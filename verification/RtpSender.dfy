/**
  SendLoop of src/rtp/rtpsender.cpp: anchoring to PTP time, absolute deadlines, sequence numbers
  and packet layout. The PTP clock and the audio source are inputs: one `Tick` per iteration.
  Times are nanoseconds below 2^63, so the signed comparison of the code is exact.
*/
module RtpSender {
  import opened Common
  import MediaClock
  import RtpPacket

  const LEAD_NS: nat := 20_000_000
  const JUMP_NS: int := 2_000_000_000

  /** What one iteration reads: whether PTP is synced, its time when anchoring and when checking
      the deadline, and the samples of the block. */
  datatype Tick = Tick(synced: bool, anchorNs: nat, checkNs: nat, block: seq<int>)

  datatype Config = Config(packetUs: nat, payloadType: int, ssrc: nat)

  datatype Sent = Sent(start: nat, n: nat, deadline: nat, block: seq<int>, bytes: seq<Byte>)

  datatype Sender = Sender(start: nat, n: nat, seqNo: nat, needAnchor: bool)

  function Begin(c: Config): Sender {
    Sender(0, 0, c.ssrc % SEQ_RANGE, true)
  }

  function Anchored(s: Sender, t: Tick): Sender {
    if s.needAnchor || !t.synced then s.(start := t.anchorNs + LEAD_NS, n := 0, needAnchor := false) else s
  }

  predicate Jumped(deadline: nat, checkNs: nat) {
    deadline - checkNs > JUMP_NS || deadline - checkNs < -JUMP_NS
  }

  function Bytes(c: Config, seqNo: nat, deadline: nat, block: seq<int>): seq<Byte> {
    RtpPacket.Header(c.payloadType, seqNo, MediaClock.Timestamp(deadline), c.ssrc) + RtpPacket.Payload(block)
  }

  /** One iteration: the new loop variables and the packet, if one leaves. */
  function Iterate(c: Config, s: Sender, t: Tick): (Sender, seq<Sent>) {
    var a := Anchored(s, t);
    var deadline := MediaClock.Deadline(a.start, a.n, c.packetUs);
    if Jumped(deadline, t.checkNs) then (a.(needAnchor := true), [])
    else (a.(seqNo := (a.seqNo + 1) % SEQ_RANGE, n := a.n + 1),
          [Sent(a.start, a.n, deadline, t.block, Bytes(c, a.seqNo, deadline, t.block))])
  }

  /** The loop over any sequence of iterations. */
  function Loop(c: Config, ticks: seq<Tick>): (Sender, seq<Sent>) {
    if ticks == [] then (Begin(c), [])
    else
      var (s, sent) := Loop(c, ticks[..|ticks| - 1]);
      var (s2, more) := Iterate(c, s, ticks[|ticks| - 1]);
      (s2, sent + more)
  }

  /** The body of the loop, with the packet bytes built in an array. */
  method Iteration(c: Config, s: Sender, t: Tick) returns (s2: Sender, sent: seq<Sent>)
    ensures (s2, sent) == Iterate(c, s, t)
  {
    s2, sent := s, [];
    if s2.needAnchor || !t.synced {
      s2 := s2.(start := t.anchorNs + LEAD_NS, n := 0, needAnchor := false);
    }
    var deadline := s2.start + s2.n * (c.packetUs * 1000);
    if deadline - t.checkNs > JUMP_NS || deadline - t.checkNs < -JUMP_NS {
      s2 := s2.(needAnchor := true);
      return;
    }
    var block := new int[|t.block|](k requires 0 <= k < |t.block| => t.block[k]);
    assert block[..] == t.block;
    var packet := RtpPacket.BuildPacket(c.payloadType, s2.seqNo, MediaClock.Timestamp(deadline), c.ssrc, block);
    assert packet[..] == Bytes(c, s2.seqNo, deadline, t.block);
    sent := [Sent(s2.start, s2.n, deadline, t.block, packet[..])];
    s2 := s2.(seqNo := (s2.seqNo + 1) % SEQ_RANGE, n := s2.n + 1);
  }

  method SendLoop(c: Config, ticks: seq<Tick>) returns (sent: seq<Sent>)
    ensures sent == Loop(c, ticks).1
  {
    var s := Begin(c);
    sent := [];
    var i := 0;
    while i < |ticks|
      invariant 0 <= i <= |ticks|
      invariant (s, sent) == Loop(c, ticks[..i])
    {
      assert ticks[..i + 1][..i] == ticks[..i];
      var more;
      s, more := Iteration(c, s, ticks[i]);
      sent := sent + more;
      i := i + 1;
    }
    assert ticks[..i] == ticks;
  }

  // ---------------------------------------------------------------- one iteration in plain words

  /** An iteration that needs an anchor, or finds PTP unsynced, starts a new grid 20 ms after the PTP
      time it reads. */
  predicate StartsGrid(s: Sender, t: Tick) {
    s.needAnchor || !t.synced
  }

  /** One packet leaves exactly if its deadline, the next point of the grid, is within 2 s of the PTP
      time; then the grid is kept and the sequence number moves on. Otherwise nothing leaves and the
      next iteration starts a new grid. */
  lemma IterationMeans(c: Config, s: Sender, t: Tick)
    ensures var start := if StartsGrid(s, t) then t.anchorNs + 20000000 else s.start;
            var n := if StartsGrid(s, t) then 0 else s.n;
            var deadline := start + n * (c.packetUs * 1000);
            var (s2, sent) := Iterate(c, s, t);
            if -2000000000 <= deadline - t.checkNs <= 2000000000
            then && s2 == Sender(start, n + 1, (s.seqNo + 1) % 65536, false)
                 && |sent| == 1 && sent[0].start == start && sent[0].n == n && sent[0].deadline == deadline
                 && sent[0].block == t.block && Wire(c, sent[0], s.seqNo)
            else sent == [] && s2.needAnchor && s2.seqNo == s.seqNo
  {
  }

  // ---------------------------------------------------------------- what every run of the loop sends

  predicate Wire(c: Config, sent: Sent, seqNo: nat) {
    sent.bytes == Bytes(c, seqNo, sent.deadline, sent.block)
  }

  lemma NextSeq(ssrc: nat, k: nat)
    ensures ((ssrc + k) % SEQ_RANGE + 1) % SEQ_RANGE == (ssrc + k + 1) % SEQ_RANGE
  {
  }

  /** The k-th packet ever sent carries sequence number SSRC + k (mod 2^16), however often the
      sender re-anchored in between, and its deadline lies on the grid of its anchor. */
  lemma {:induction false} SequenceNumbers(c: Config, ticks: seq<Tick>)
    ensures var (s, sent) := Loop(c, ticks);
            && s.seqNo == (c.ssrc + |sent|) % SEQ_RANGE
            && forall k :: 0 <= k < |sent| ==>
                 && Wire(c, sent[k], (c.ssrc + k) % SEQ_RANGE)
                 && sent[k].deadline == MediaClock.Deadline(sent[k].start, sent[k].n, c.packetUs)
  {
    if ticks != [] {
      SequenceNumbers(c, ticks[..|ticks| - 1]);
      var (s, sent) := Loop(c, ticks[..|ticks| - 1]);
      var t := ticks[|ticks| - 1];
      var a := Anchored(s, t);
      var (s2, more) := Iterate(c, s, t);
      if more != [] {
        NextSeq(c.ssrc, |sent|);
        assert Wire(c, more[0], a.seqNo);
      }
    }
  }

  /** Every packet either continues the previous one's anchor as the next grid point or is the
      first of a new anchor. */
  lemma {:induction false} AnchorsAreTrains(c: Config, ticks: seq<Tick>)
    ensures var (s, sent) := Loop(c, ticks);
            && (forall i, j :: 0 <= i && j == i + 1 < |sent| ==>
                  sent[j].n == 0 || (sent[j].start == sent[i].start && sent[j].n == sent[i].n + 1))
            && (s.n > 0 ==> |sent| > 0 && sent[|sent| - 1].start == s.start && sent[|sent| - 1].n == s.n - 1)
            && (|sent| > 0 ==> sent[0].n == 0)
  {
    if ticks != [] {
      AnchorsAreTrains(c, ticks[..|ticks| - 1]);
    }
  }

  /** Inside an anchor the timestamps on the wire advance by the frames of one packet, or one
      more; by exactly that at any packet time that is a multiple of 125 us. */
  lemma TimestampsFollowMediaClock(c: Config, ticks: seq<Tick>, i: nat)
    requires i + 1 < |Loop(c, ticks).1| && Loop(c, ticks).1[i + 1].n != 0
    ensures var sent := Loop(c, ticks).1;
            var from, to := MediaClock.Timestamp(sent[i].deadline), MediaClock.Timestamp(sent[i + 1].deadline);
            var step := (to - from) % MediaClock.RANGE32;
            var f := MediaClock.FramesPerPacket(c.packetUs);
            && (step == f % MediaClock.RANGE32 || step == (f + 1) % MediaClock.RANGE32)
            && (c.packetUs % 125 == 0 ==> step == f % MediaClock.RANGE32)
  {
    var sent := Loop(c, ticks).1;
    AnchorsAreTrains(c, ticks);
    SequenceNumbers(c, ticks);
    var start, n := sent[i].start, sent[i].n;
    assert sent[i + 1].start == start && sent[i + 1].n == n + 1 by {
      var j := i + 1;
      assert sent[j].n == 0 || (sent[j].start == sent[i].start && sent[j].n == sent[i].n + 1);
    }
    MediaClock.TimestampStep(start, n, c.packetUs);
    MediaClock.StepIsFramesOrOneMore(start, n, c.packetUs);
    MediaClock.ExactIff125(start, c.packetUs);
  }

  /** No packet leaves more than 2 s away from the PTP time it was checked against. */
  lemma NoPacketAfterJump(c: Config, s: Sender, t: Tick)
    ensures var more := Iterate(c, s, t).1;
            && |more| <= 1
            && (more != [] ==> -JUMP_NS <= more[0].deadline - t.checkNs <= JUMP_NS)
            && (more == [] <==> Iterate(c, s, t).0.needAnchor)
  {
  }

  /** Whatever a run sends, an L24 stereo receiver takes apart again: the k-th packet yields
      sequence number SSRC + k, the media clock of its deadline, and every sample of its block. */
  lemma ReceiverHears(c: Config, ticks: seq<Tick>, k: nat)
    requires k < |Loop(c, ticks).1|
    requires var block := Loop(c, ticks).1[k].block;
             |block| > 0 && |block| % 2 == 0 && forall i :: 0 <= i < |block| ==> -0x80_0000 <= block[i] < 0x80_0000
    ensures var sent := Loop(c, ticks).1[k];
            |sent.bytes| > 12
            && RtpPacket.Parse(sent.bytes, RtpPacket.Format(24, 2, -1, -1))
               == RtpPacket.Usable((c.ssrc + k) % SEQ_RANGE, MediaClock.Timestamp(sent.deadline), sent.block)
  {
    SequenceNumbers(c, ticks);
    var sent := Loop(c, ticks).1[k];
    assert Wire(c, sent, (c.ssrc + k) % SEQ_RANGE);
    RtpPacket.PacketRoundTrip(c.payloadType, (c.ssrc + k) % SEQ_RANGE, MediaClock.Timestamp(sent.deadline),
                              c.ssrc, sent.block, RtpPacket.Format(24, 2, -1, -1));
  }

  // ---------------------------------------------------------------- where the grids lie

  lemma LoopNext(c: Config, ticks: seq<Tick>)
    requires ticks != []
    ensures var n := |ticks| - 1;
            && Loop(c, ticks).0 == Iterate(c, Loop(c, ticks[..n]).0, ticks[n]).0
            && Loop(c, ticks).1 == Loop(c, ticks[..n]).1 + Iterate(c, Loop(c, ticks[..n]).0, ticks[n]).1
  {
  }

  /** A sender that does not need an anchor follows the grid that some iteration started. */
  lemma {:induction false} GridOf(c: Config, ticks: seq<Tick>) returns (j: nat)
    requires !Loop(c, ticks).0.needAnchor
    ensures j < |ticks| && Loop(c, ticks).0.start == ticks[j].anchorNs + 20000000
    ensures StartsGrid(Loop(c, ticks[..j]).0, ticks[j])
    ensures Loop(c, ticks).0.n == |ticks| - j
  {
    var n := |ticks| - 1;
    LoopNext(c, ticks);
    IterationMeans(c, Loop(c, ticks[..n]).0, ticks[n]);
    if StartsGrid(Loop(c, ticks[..n]).0, ticks[n]) {
      j := n;
    } else {
      j := GridOf(c, ticks[..n]);
      assert ticks[..n][..j] == ticks[..j];
    }
  }

  /** Every packet ever sent: which iteration i sent it, with whose block, and which iteration j
      started its grid, 20 ms after the PTP time it read then. The first packet of a grid is sent by
      the iteration that started it, and one leaves per iteration. */
  lemma {:induction false} SentMeans(c: Config, ticks: seq<Tick>, k: nat) returns (i: nat, j: nat)
    requires k < |Loop(c, ticks).1|
    ensures j <= i < |ticks| && StartsGrid(Loop(c, ticks[..j]).0, ticks[j])
    ensures var p := Loop(c, ticks).1[k];
            && p.start == ticks[j].anchorNs + 20000000 && p.n == i - j
            && p.deadline == ticks[j].anchorNs + 20000000 + (i - j) * (c.packetUs * 1000)
            && p.block == ticks[i].block && -2000000000 <= p.deadline - ticks[i].checkNs <= 2000000000
  {
    var n := |ticks| - 1;
    assert ticks != [];
    LoopNext(c, ticks);
    var s := Loop(c, ticks[..n]).0;
    if k < |Loop(c, ticks[..n]).1| {
      i, j := SentMeans(c, ticks[..n], k);
      assert ticks[..n][..j] == ticks[..j];
    } else {
      i := n;
      IterationMeans(c, s, ticks[n]);
      if StartsGrid(s, ticks[n]) {
        j := n;
      } else {
        j := GridOf(c, ticks[..n]);
        assert ticks[..n][..j] == ticks[..j];
      }
    }
  }

  /** A sender that stays synchronised and reads PTP times within 2 s of its schedule sends one packet
      per iteration, the k-th with block k and its deadline 20 ms and k packet times after the time of
      its first iteration. */
  lemma {:induction false} SteadySender(c: Config, ticks: seq<Tick>)
    requires ticks != [] && forall i :: 0 <= i < |ticks| ==> OnSchedule(c, ticks[0].anchorNs, ticks[i], i)
    ensures |Loop(c, ticks).1| == |ticks|
    ensures Loop(c, ticks).0 == Sender(ticks[0].anchorNs + 20000000, |ticks|, (c.ssrc + |ticks|) % 65536, false)
    ensures forall k :: 0 <= k < |ticks| ==>
              && Loop(c, ticks).1[k].block == ticks[k].block
              && Loop(c, ticks).1[k].deadline == ticks[0].anchorNs + 20000000 + k * (c.packetUs * 1000)
  {
    var n := |ticks| - 1;
    LoopNext(c, ticks);
    assert OnSchedule(c, ticks[0].anchorNs, ticks[n], n);
    if n > 0 {
      SteadySender(c, ticks[..n]);
    } else {
      assert ticks[..0] == [];
    }
    IterationMeans(c, Loop(c, ticks[..n]).0, ticks[n]);
    NextSeq(c.ssrc, n);
  }

  predicate OnSchedule(c: Config, begun: nat, t: Tick, i: nat) {
    t.synced && -2000000000 <= begun + 20000000 + i * (c.packetUs * 1000) - t.checkNs <= 2000000000
  }
}
