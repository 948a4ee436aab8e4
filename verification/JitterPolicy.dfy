/**
  When playout plays, conceals, waits, parks and drops, said in terms of the ring, the queue depths
  and the 16-bit numbers alone.
*/
module JitterPolicy {
  import opened JitterRing
  import opened JitterSlot

  /** The slot of position q carries the 16-bit number of q. */
  predicate Waiting(s: State, q: int)
    requires |s.ring| == 1024
  {
    s.ring[q % 1024].gen == q % 65536 + 1
  }

  lemma WaitingMeans(s: State, q: int)
    requires |s.ring| == 1024
    ensures Waiting(s, q) <==> At(s, q).gen == Marker(q)
  {
    IndexIsMod(q);
  }

  /** Time to conceal: the queue is nearly dry; or it is below half its target and one of the next
      sixteen packets is already there. */
  ghost predicate TimeToConceal(s: State, c: Config, queued: int, queuedAfter: int)
    requires |s.ring| == 1024
  {
    || queued <= 2 * c.framesPerPacket
    || (queuedAfter < c.targetFrames / 2 && exists q :: s.cursor < q <= s.cursor + 16 && Waiting(s, q))
  }

  /** A missing packet while the stream is being received: the cursor moves on by one concealed
      position exactly when it is time to conceal; otherwise playout waits and nothing changes. */
  lemma ConcealsIff(r: Run, i: nat)
    requires IsRun(r) && i < |r.steps| && r.steps[i].Miss? && r.steps[i].receiving
    ensures |r.states[i].ring| == 1024
    ensures var s, t, step := r.states[i], r.states[i + 1], r.steps[i];
            if TimeToConceal(s, r.config, step.queued, step.queuedAfter)
            then && |t.log| == |s.log| + 1 && s.log <= t.log && t.log[|s.log|].Concealed?
                 && t.log[|s.log|].pos == s.cursor
                 && t == s.(cursor := s.cursor + 1, log := t.log, reader := Steer,
                            count := s.count.(concealed := s.count.concealed + 1))
            else t == s.(reader := Steer)
  {
    assert StepAt(r, i);
    var s := r.states[i];
    forall q
      ensures Waiting(s, q) <==> At(s, q).gen == Marker(q)
    {
      WaitingMeans(s, q);
    }
    assert NewerWaiting(s) <==> exists q :: s.cursor < q <= s.cursor + 16 && Waiting(s, q);
  }

  /** A missing packet while nothing is being received parks playout, which then waits for a packet
      to restart at, and changes nothing else. */
  lemma ParksIff(r: Run, i: nat)
    requires IsRun(r) && i < |r.steps| && r.steps[i].Miss?
    ensures r.states[i + 1].reader == Parked <==> !r.steps[i].receiving
    ensures !r.steps[i].receiving ==> r.states[i + 1] == r.states[i].(reader := Parked, haveFirst := false)
  {
    assert StepAt(r, i);
  }

  /** Playout takes the packet at its cursor exactly when the cursor's own slot carries its number. */
  lemma MatchesIff(r: Run, i: nat)
    requires IsRun(r) && i < |r.steps| && r.steps[i] == Look
    ensures |r.states[i].ring| == 1024
    ensures r.states[i + 1].reader == Matched <==> Waiting(r.states[i], r.states[i].cursor)
    ensures r.states[i + 1].reader != Matched ==> r.states[i + 1].reader.Missed?
    ensures r.states[i + 1] == r.states[i].(reader := r.states[i + 1].reader)
  {
    assert StepAt(r, i);
    WaitingMeans(r.states[i], r.states[i].cursor);
  }

  /** One packet is dropped exactly when more than the target and four packets are queued and the
      packet at the cursor is there. */
  lemma DropsIff(r: Run, i: nat)
    requires IsRun(r) && i < |r.steps| && r.steps[i].Drift?
    ensures |r.states[i].ring| == 1024
    ensures r.states[i + 1] == r.states[i].(reader :=
              if r.steps[i].queued > r.config.targetFrames + 4 * r.config.framesPerPacket
                 && Waiting(r.states[i], r.states[i].cursor)
              then DropMatched else Top)
  {
    assert StepAt(r, i);
    WaitingMeans(r.states[i], r.states[i].cursor);
  }

  /** An arrival is discarded exactly when its slot carries its number, and counted either way. */
  lemma DiscardsIff(r: Run, i: nat)
    requires IsRun(r) && i < |r.steps| && r.steps[i].Arrive?
    ensures |r.states[i].ring| == 1024
    ensures var s, t, step := r.states[i], r.states[i + 1], r.steps[i];
            if Waiting(s, step.pos)
            then t == s.(count := s.count.(received := s.count.received + 1, duplicates := s.count.duplicates + 1))
            else t == s.(count := s.count.(received := s.count.received + 1),
                         writer := Busy(step.leg, step.pos, step.audio, false, 0))
  {
    assert StepAt(r, i);
    WaitingMeans(r.states[i], r.steps[i].pos);
  }

  /** Publications of packets that came on the second leg. */
  ghost function FromSecondary(r: Run, n: nat): nat
    requires IsRun(r) && n < |r.states|
  {
    if n == 0 then 0
    else
      var step, writer := r.steps[n - 1], r.states[n - 1].writer;
      FromSecondary(r, n - 1) + (if step == Publish && writer.Busy? && writer.leg == 1 then 1 else 0)
  }

  lemma {:induction false} SecondaryMeans(r: Run, n: nat)
    requires IsRun(r) && n < |r.states|
    ensures r.states[n].count.secondary == FromSecondary(r, n)
  {
    if n > 0 {
      SecondaryMeans(r, n - 1);
      assert StepAt(r, n - 1);
    }
  }
}
