/**
  Sender, network and receiver together: both legs carry packets of one run of the sender's loop,
  in any order, with losses and copies, and what the listener hears are the sender's blocks.
*/
module EndToEnd {
  import opened Common
  import opened JitterRing
  import opened JitterSlot
  import opened JitterMerge
  import opened JitterOrder
  import RtpPacket
  import RtpSender

  const STEREO: RtpPacket.Format := RtpPacket.Format(24, 2, -1, -1)

  /** What the loop hands to the network over the given iterations. */
  function Packets(c: RtpSender.Config, ticks: seq<RtpSender.Tick>): seq<RtpSender.Sent> {
    RtpSender.Loop(c, ticks).1
  }

  predicate IsBlock(block: seq<int>) {
    |block| > 0 && |block| % 2 == 0 && forall i :: 0 <= i < |block| ==> -0x80_0000 <= block[i] < 0x80_0000
  }

  ghost predicate SendsBlocks(c: RtpSender.Config, ticks: seq<RtpSender.Tick>) {
    forall k :: 0 <= k < |Packets(c, ticks)| ==> IsBlock(Packets(c, ticks)[k].block)
  }

  /** The arrival is the k-th packet ever sent, as the receiver decodes its bytes. */
  ghost predicate IsPacket(c: RtpSender.Config, ticks: seq<RtpSender.Tick>, step: Step, k: int)
    requires step.Arrive?
  {
    && 0 <= k < |Packets(c, ticks)| && step.pos == c.ssrc + k && |Packets(c, ticks)[k].bytes| > 12
    && var p := RtpPacket.Parse(Packets(c, ticks)[k].bytes, STEREO);
       p.Usable? && p.seqNo == step.pos % SEQ_RANGE && p.audio == step.audio
  }

  /** Whatever arrives on either leg was sent. */
  ghost predicate Carries(r: Run, c: RtpSender.Config, ticks: seq<RtpSender.Tick>) {
    forall i :: 0 <= i < |r.steps| && r.steps[i].Arrive? ==> exists k :: IsPacket(c, ticks, r.steps[i], k)
  }

  /** What is published is the block of its position. */
  lemma PublishedBlock(r: Run, c: RtpSender.Config, ticks: seq<RtpSender.Tick>, k: nat, q: int)
    requires IsRun(r) && Carries(r, c, ticks) && SendsBlocks(c, ticks) && k < |r.steps| && Publishes(r, k, q)
    ensures 0 <= q - c.ssrc < |Packets(c, ticks)|
    ensures r.states[k].writer.audio == Packets(c, ticks)[q - c.ssrc].block
  {
    var j := WriterFrom(r, k);
    var n :| IsPacket(c, ticks, r.steps[j], n);
    assert IsBlock(Packets(c, ticks)[n].block);
    RtpSender.ReceiverHears(c, ticks, n);
  }

  /** As long as packets are stored less than one ring away from the cursor, whatever plays is one of
      the sender's blocks, whole, and one with the 16-bit number of the cursor. */
  lemma HearsBlocks(r: Run, c: RtpSender.Config, ticks: seq<RtpSender.Tick>, i: nat, p: int) returns (n: nat)
    requires NearRun(r) && Carries(r, c, ticks) && SendsBlocks(c, ticks) && i < |r.steps| && Plays(r, i, p)
    ensures n < |Packets(c, ticks)| && Marker(c.ssrc + n) == Marker(p)
    ensures r.states[i].reader == Written(Packets(c, ticks)[n].block, Packets(c, ticks)[n].block)
  {
    var k, q := PlayedIsComplete(r, i, p);
    PublishedBlock(r, c, ticks, k, q);
    n := q - c.ssrc;
  }

  /** In a windowed run playout has handled nothing at or above its cursor. */
  lemma {:induction false} HandledBelow(r: Run, late: nat, lead: nat, n: nat)
    requires WindowedRun(r, late, lead) && n < |r.states|
    ensures forall x :: 0 <= x < |r.states[n].log| ==> r.states[n].log[x].pos < r.states[n].cursor
  {
    if n > 0 {
      HandledBelow(r, late, lead, n - 1);
      InvAlways(r, late, lead, n - 1);
      assert StepAt(r, n - 1);
      LogStep(r.states[n - 1], r.config, r.steps[n - 1]);
      CursorStep(r.states[n - 1], r.config, r.steps[n - 1]);
    }
  }

  lemma CursorStep(s: State, c: Config, step: Step)
    requires Enabled(s, step) && ReaderOk(s)
    ensures Apply(s, c, step).cursor >= s.cursor
    ensures Advances(s, c, step) ==> Apply(s, c, step).cursor == s.cursor + 1
  {
  }

  lemma WindowedIsOrdered(r: Run, late: nat, lead: nat)
    requires WindowedRun(r, late, lead)
    ensures Ordered(r)
  {
    forall i, j | 0 <= i < j < |r.steps| && AdvancesAt(r, i) && AdvancesAt(r, j)
      ensures r.states[i].cursor < r.states[j].cursor
    {
      Logged(r, i, j);
      HandledBelow(r, late, lead, j);
    }
  }

  /** End to end: in a windowed run, what plays at position SSRC + k is the sender's block k, in the
      meters and on the sound card alike, and blocks are heard in the order they were sent, none of
      them twice. */
  lemma ListenerHears(r: Run, late: nat, lead: nat, c: RtpSender.Config, ticks: seq<RtpSender.Tick>,
                      i: nat, p: int, j: nat, q: int)
    requires WindowedRun(r, late, lead) && Carries(r, c, ticks) && SendsBlocks(c, ticks)
    requires i < j < |r.steps| && Plays(r, i, p) && Plays(r, j, q)
    ensures 0 <= p - c.ssrc < q - c.ssrc < |Packets(c, ticks)|
    ensures var a, b := Packets(c, ticks)[p - c.ssrc].block, Packets(c, ticks)[q - c.ssrc].block;
            r.states[i].reader == Written(a, a) && r.states[j].reader == Written(b, b)
  {
    var k := PlayedIsPublished(r, late, lead, i, p);
    PublishedBlock(r, c, ticks, k, p);
    var l := PlayedIsPublished(r, late, lead, j, q);
    PublishedBlock(r, c, ticks, l, q);
    WindowedIsOrdered(r, late, lead);
    AdvancesMeans(r, i);
    AdvancesMeans(r, j);
  }
}
