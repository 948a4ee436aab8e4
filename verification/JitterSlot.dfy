/**
  One slot between the two threads. How far from the cursor a packet may be while it is stored
  decides whether a slot can be torn, and how far it may be in the meantime decides whether a
  packet that came in time is found. Nothing is assumed about old markers or about where a packet
  re-anchors playout.
*/
module JitterSlot {
  import opened Common
  import opened JitterRing

  // ---------------------------------------------------------------- arithmetic of the ring

  lemma IndexIsMod(p: int)
    ensures Index(p) == p % SLOTS
  {
    var hi, lo := p / SEQ_RANGE, p % SEQ_RANGE;
    assert p == SLOTS * (64 * hi + lo / SLOTS) + lo % SLOTS;
  }

  lemma SameIndex(p: int, q: int)
    requires Index(p) == Index(q) && -SLOTS < p - q < SLOTS
    ensures p == q
  {
    IndexIsMod(p);
    IndexIsMod(q);
    var d := p / SLOTS - q / SLOTS;
    assert p - q == SLOTS * d;
  }

  lemma SameMarker(p: int, q: int)
    requires Marker(p) == Marker(q) && -SEQ_RANGE < p - q < SEQ_RANGE
    ensures p == q
  {
  }

  // ---------------------------------------------------------------- the writer's slot

  /** The writer owns the slot it fills: the marker is not the one it is about to publish, and
      what it has stored so far is a prefix of its packet. */
  ghost predicate WriterOk(s: State)
    requires |s.ring| == SLOTS
  {
    s.writer.Busy? ==>
      var w := s.writer;
      && At(s, w.pos).gen != Marker(w.pos)
      && w.filled <= |w.audio|
      && (!w.sized ==> w.filled == 0)
      && (w.sized ==> |At(s, w.pos).audio| == |w.audio| && At(s, w.pos).audio[..w.filled] == w.audio[..w.filled])
  }

  lemma WriterStep(s: State, c: Config, step: Step)
    requires |s.ring| == SLOTS && WriterOk(s) && Enabled(s, step)
    ensures |Apply(s, c, step).ring| == SLOTS && WriterOk(Apply(s, c, step))
  {
    var t := Apply(s, c, step);
    if step.StoreSample? {
      StoreStep(s, c);
    } else if t.writer.Busy? && !step.Arrive? {
      assert t.writer.pos == s.writer.pos && t.writer.filled == s.writer.filled;
    }
  }

  lemma StoreStep(s: State, c: Config)
    requires |s.ring| == SLOTS && WriterOk(s) && Enabled(s, StoreSample)
    ensures |Apply(s, c, StoreSample).ring| == SLOTS && WriterOk(Apply(s, c, StoreSample))
  {
    var t, w := Apply(s, c, StoreSample), s.writer;
    assert At(t, w.pos).audio == At(s, w.pos).audio[w.filled := w.audio[w.filled]];
    assert w.audio[..w.filled + 1] == w.audio[..w.filled] + [w.audio[w.filled]];
  }

  lemma {:induction false} WriterAlways(r: Run, n: nat)
    requires IsRun(r) && n < |r.states|
    ensures |r.states[n].ring| == SLOTS && WriterOk(r.states[n])
  {
    if n > 0 {
      WriterAlways(r, n - 1);
      assert StepAt(r, n - 1);
      WriterStep(r.states[n - 1], r.config, r.steps[n - 1]);
    }
  }

  /** The packet being stored is the latest arrival that was not discarded. */
  lemma {:induction false} WriterFrom(r: Run, n: nat) returns (j: nat)
    requires IsRun(r) && n < |r.states| && r.states[n].writer.Busy?
    ensures j < n && r.steps[j].Arrive? && r.states[j].writer.Idle?
    ensures r.steps[j].pos == r.states[n].writer.pos && r.steps[j].audio == r.states[n].writer.audio
    ensures forall m :: j < m <= n ==> r.states[m].writer.Busy?
  {
    assert n > 0;
    assert StepAt(r, n - 1);
    if r.states[n - 1].writer.Idle? {
      j := n - 1;
    } else {
      j := WriterFrom(r, n - 1);
    }
  }

  /** What is published is complete. */
  lemma PublishedWhole(r: Run, k: nat, p: int)
    requires IsRun(r) && k < |r.steps| && Publishes(r, k, p)
    ensures |r.states[k + 1].ring| == SLOTS
    ensures At(r.states[k + 1], p) == Slot(Marker(p), p, r.states[k].writer.audio)
  {
    WriterAlways(r, k);
    assert StepAt(r, k);
    var s := r.states[k];
    assert s.writer.audio[..s.writer.filled] == s.writer.audio;
    assert At(s, p).audio[..s.writer.filled] == At(s, p).audio;
  }

  // ---------------------------------------------------------------- no torn slot

  /** While playout is running, packets are stored less than one ring away from its cursor. */
  ghost predicate Near(s: State) {
    s.writer.Busy? && !s.reader.Parked? ==> -SLOTS < s.writer.pos - s.cursor < SLOTS
  }

  ghost predicate NearRun(r: Run) {
    IsRun(r) && forall n :: 0 <= n < |r.states| ==> Near(r.states[n])
  }

  /** Playout has matched the slot at its cursor and not cleared it yet. */
  predicate Holding(s: State) {
    s.reader.Matched? || s.reader.Fed? || s.reader.Written? || s.reader.DropMatched?
  }

  ghost predicate Steady(s: State) {
    && |s.ring| == SLOTS && WriterOk(s)
    && (Holding(s) ==> At(s, s.cursor).gen == Marker(s.cursor))
    && (s.reader.Fed? ==> s.reader.fed == At(s, s.cursor).audio)
    && (s.reader.Written? ==> s.reader.fed == s.reader.written == At(s, s.cursor).audio)
  }

  /** The slot that playout holds is not the one being stored into. */
  lemma ElsewhereStored(s: State)
    requires Steady(s) && Near(s) && Holding(s) && s.writer.Busy?
    ensures Index(s.writer.pos) != Index(s.cursor)
  {
    if Index(s.writer.pos) == Index(s.cursor) {
      SameIndex(s.writer.pos, s.cursor);
    }
  }

  lemma SteadyStep(s: State, c: Config, step: Step)
    requires Steady(s) && Near(s) && Enabled(s, step)
    ensures Steady(Apply(s, c, step))
    ensures Holding(s) && !step.Clear? && !step.DropClear? ==>
              At(Apply(s, c, step), s.cursor) == At(s, s.cursor)
  {
    WriterStep(s, c, step);
    if Holding(s) && s.writer.Busy? {
      ElsewhereStored(s);
    }
  }

  lemma {:induction false} SteadyAlways(r: Run, n: nat)
    requires NearRun(r) && n < |r.states|
    ensures Steady(r.states[n])
  {
    if n > 0 {
      SteadyAlways(r, n - 1);
      assert StepAt(r, n - 1);
      assert Near(r.states[n - 1]);
      SteadyStep(r.states[n - 1], r.config, r.steps[n - 1]);
    }
  }

  /** No torn slot: as long as packets are stored less than one ring away from the cursor, no step
      of either thread changes the samples or the marker of the slot that playout has matched,
      until playout clears it; and what it then clears is what it has fed and written. */
  lemma NoTornSlot(r: Run, n: nat)
    requires NearRun(r) && n < |r.steps| && Holding(r.states[n])
    ensures |r.states[n].ring| == SLOTS && At(r.states[n], r.states[n].cursor).gen == Marker(r.states[n].cursor)
    ensures !r.steps[n].Clear? && !r.steps[n].DropClear? ==>
              |r.states[n + 1].ring| == SLOTS
              && At(r.states[n + 1], r.states[n].cursor) == At(r.states[n], r.states[n].cursor)
    ensures r.steps[n].Clear? ==>
              var a := At(r.states[n], r.states[n].cursor).audio; r.states[n].reader == Written(a, a)
  {
    SteadyAlways(r, n);
    assert StepAt(r, n);
    assert Near(r.states[n]);
    SteadyStep(r.states[n], r.config, r.steps[n]);
  }

  // ---------------------------------------------------------------- what plays is one whole packet

  predicate Filling(s: State, i: int) {
    s.writer.Busy? && s.writer.sized && Index(s.writer.pos) == i
  }

  /** The packet in slot i, if it is not being overwritten, is a published one, whole. */
  ghost predicate Whole(r: Run, n: int, i: int)
    requires IsRun(r) && 0 <= n < |r.states| && |r.states[n].ring| == SLOTS && 0 <= i < SLOTS
  {
    var slot := r.states[n].ring[i];
    && (slot.gen != 0 ==> slot.gen == Marker(slot.pos) && Index(slot.pos) == i)
    && (slot.gen != 0 && !Filling(r.states[n], i) ==>
          exists k :: 0 <= k < n && Publishes(r, k, slot.pos) && r.states[k].writer.audio == slot.audio)
  }

  /** A step changes slot i by storing into it, by publishing it or by clearing it. */
  lemma SlotStep(s: State, c: Config, step: Step, i: int)
    requires |s.ring| == SLOTS && 0 <= i < SLOTS && Enabled(s, step)
    ensures var t := Apply(s, c, step);
            && |t.ring| == SLOTS
            && (t.ring[i] == s.ring[i]
                || t.ring[i] == s.ring[i].(gen := 0)
                || (Filling(t, i) && t.ring[i] == s.ring[i].(audio := t.ring[i].audio))
                || (step == Publish && Index(s.writer.pos) == i))
            && (Filling(s, i) && !Filling(t, i) ==> step == Publish && Index(s.writer.pos) == i)
  {
  }

  lemma {:induction false} WholeAlways(r: Run, n: nat, i: int)
    requires IsRun(r) && n < |r.states| && 0 <= i < SLOTS
    ensures |r.states[n].ring| == SLOTS && Whole(r, n, i)
  {
    if n > 0 {
      WholeAlways(r, n - 1, i);
      assert StepAt(r, n - 1);
      var s, step := r.states[n - 1], r.steps[n - 1];
      SlotStep(s, r.config, step, i);
      if step == Publish && Index(s.writer.pos) == i {
        PublishedWhole(r, n - 1, s.writer.pos);
        assert Publishes(r, n - 1, s.writer.pos);
      }
    }
  }

  /** Under the same condition, whatever plays is the complete decode of one published packet with
      the 16-bit number of the cursor, the same in the meters and on the sound card; and it is the
      packet of that very position unless it has been lying in the ring for a whole wrap. */
  lemma PlayedIsComplete(r: Run, i: nat, p: int) returns (k: nat, q: int)
    requires NearRun(r) && i < |r.steps| && Plays(r, i, p)
    ensures k < i && Publishes(r, k, q) && Marker(q) == Marker(p)
    ensures r.states[i].reader == Written(r.states[k].writer.audio, r.states[k].writer.audio)
    ensures -SEQ_RANGE < q - p < SEQ_RANGE ==> q == p
  {
    var s := r.states[i];
    SteadyAlways(r, i);
    assert StepAt(r, i);
    assert Near(s);
    if s.writer.Busy? {
      ElsewhereStored(s);
    }
    WholeAlways(r, i, Index(p));
    q := At(s, p).pos;
    k :| 0 <= k < i && Publishes(r, k, q) && r.states[k].writer.audio == At(s, p).audio;
    if -SEQ_RANGE < q - p < SEQ_RANGE {
      SameMarker(q, p);
    }
  }

  // ---------------------------------------------------------------- what came in time is found

  /** How far behind and ahead of playout packets are stored. */
  ghost predicate Spans(r: Run, late: nat, lead: nat) {
    && IsRun(r)
    && forall n :: 0 <= n < |r.states| ==> Spanned(r.states[n], late, lead)
  }

  ghost predicate Spanned(s: State, late: nat, lead: nat) {
    s.writer.Busy? ==> Horizon(s) - late <= s.writer.pos < Horizon(s) + lead
  }

  /** After step k and up to state j playout neither passes p nor leaves it out of reach. */
  ghost predicate InReach(r: Run, lead: nat, p: int, k: int, j: int)
    requires 0 <= k && j < |r.states|
  {
    forall n :: k < n <= j ==> Reachable(r.states[n], lead, p)
  }

  ghost predicate Reachable(s: State, lead: nat, p: int) {
    Horizon(s) <= p < Horizon(s) + lead
  }

  lemma KeptStep(s: State, c: Config, step: Step, late: nat, lead: nat, p: int)
    requires |s.ring| == SLOTS && WriterOk(s) && Enabled(s, step) && late + lead <= SLOTS
    requires Spanned(s, late, lead) && Reachable(s, lead, p) && Reachable(Apply(s, c, step), lead, p)
    requires At(s, p).gen == Marker(p)
    ensures At(Apply(s, c, step), p) == At(s, p)
  {
    if s.writer.Busy? && Index(s.writer.pos) == Index(p) {
      SameIndex(s.writer.pos, p);
    }
    if (step.Clear? || step.DropClear?) && Index(s.cursor) == Index(p) {
      SameIndex(s.cursor, p);
    }
  }

  lemma {:induction false} KeptInReach(r: Run, late: nat, lead: nat, k: nat, n: nat, p: int)
    requires Spans(r, late, lead) && late + lead <= SLOTS && k < n < |r.states|
    requires Publishes(r, k, p) && InReach(r, lead, p, k, n)
    ensures |r.states[n].ring| == SLOTS && At(r.states[n], p) == Slot(Marker(p), p, r.states[k].writer.audio)
  {
    if n == k + 1 {
      PublishedWhole(r, k, p);
    } else {
      assert InReach(r, lead, p, k, n - 1);
      KeptInReach(r, late, lead, k, n - 1, p);
      assert StepAt(r, n - 1);
      WriterAlways(r, n - 1);
      assert Spanned(r.states[n - 1], late, lead);
      assert Reachable(r.states[n - 1], lead, p) && Reachable(r.states[n], lead, p);
      KeptStep(r.states[n - 1], r.config, r.steps[n - 1], late, lead, p);
    }
  }

  /** Nothing that comes in time is lost: if the late and the early span fit into one ring, a
      published packet that stays in reach until playout looks for its position is found there,
      complete, however the threads interleave. */
  lemma InTimeIsMatched(r: Run, late: nat, lead: nat, k: nat, j: nat, p: int)
    requires Spans(r, late, lead) && late + lead <= SLOTS && k < j < |r.steps|
    requires Publishes(r, k, p) && InReach(r, lead, p, k, j)
    requires r.steps[j] == Look && r.states[j].cursor == p
    ensures r.states[j + 1].reader == Matched
    ensures |r.states[j].ring| == SLOTS && At(r.states[j], p) == Slot(Marker(p), p, r.states[k].writer.audio)
  {
    KeptInReach(r, late, lead, k, j, p);
    assert StepAt(r, j);
  }

  /** While a miss is being handled it still refers to the look that caused it. */
  lemma {:induction false} MissedMeans(r: Run, n: nat) returns (j: nat)
    requires IsRun(r) && n < |r.states| && r.states[n].reader.Missed?
    ensures j < n && r.steps[j] == Look && r.states[j].cursor == r.states[n].cursor
    ensures r.states[j].reader.Top?
    ensures r.states[n].reader.known == r.states[j].published.Keys
    ensures forall m :: j < m <= n ==> r.states[m].reader.Missed? && r.states[m].cursor == r.states[n].cursor
  {
    assert n > 0;
    assert StepAt(r, n - 1);
    if r.steps[n - 1] == Look {
      j := n - 1;
    } else {
      j := MissedMeans(r, n - 1);
    }
  }

  /** In particular it is not concealed: a packet published before playout came to its position,
      and in reach ever since. */
  lemma InTimeNeverConcealed(r: Run, late: nat, lead: nat, k: nat, i: nat, p: int)
    requires Spans(r, late, lead) && late + lead <= SLOTS && k < i < |r.steps|
    requires Publishes(r, k, p) && Horizon(r.states[k]) < p && InReach(r, lead, p, k, i)
    ensures !Conceals(r, i, p)
  {
    if Conceals(r, i, p) {
      assert StepAt(r, i);
      var j := MissedMeans(r, i);
      assert k < j;
      assert InReach(r, lead, p, k, j);
      InTimeIsMatched(r, late, lead, k, j, p);
    }
  }
}
