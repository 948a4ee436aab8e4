/**
  Whole-run theorems about the jitter ring under the full window hypothesis: the ring refines a
  map from positions to packets, so that what plays is the first copy of the very position at the
  cursor and duplicates are told by their position. What needs less than the window is in JitterSlot.
*/
module JitterMerge {
  import opened JitterRing
  import opened JitterSlot

  // ---------------------------------------------------------------- the invariant

  /** Slot i is either empty or marked with its own position, which lies below the horizon's lead. */
  ghost predicate SlotOk(s: State, lead: nat, i: int)
    requires |s.ring| == SLOTS && 0 <= i < SLOTS
  {
    s.ring[i].gen != 0 ==>
      && s.ring[i].gen == Marker(s.ring[i].pos)
      && Index(s.ring[i].pos) == i
      && s.ring[i].pos < Horizon(s) + lead
      && s.ring[i].pos in s.published
  }

  /** A published packet that playout has not passed lies complete in its slot. */
  ghost predicate Held(s: State, q: int)
    requires |s.ring| == SLOTS
  {
    && q in s.published
    && At(s, q) == Slot(Marker(q), q, s.published[q])
  }

  ghost predicate RingOk(s: State, lead: nat) {
    && |s.ring| == SLOTS
    && (forall i :: 0 <= i < SLOTS ==> SlotOk(s, lead, i))
    && (forall q :: q in s.published && q >= Horizon(s) ==> q < Horizon(s) + lead && Held(s, q))
  }

  ghost predicate ReaderOk(s: State)
    requires |s.ring| == SLOTS
  {
    && (!s.reader.Parked? ==> s.haveFirst)
    && (s.reader.Parked? && s.haveFirst ==> s.cursor <= s.first)
    && match s.reader
       case Matched => Held(s, s.cursor)
       case Fed(f) => Held(s, s.cursor) && f == s.published[s.cursor]
       case Written(f, w) => Held(s, s.cursor) && f == w == s.published[s.cursor]
       case Missed(known) => known <= s.published.Keys && s.cursor !in known
       case DropMatched => Held(s, s.cursor)
       case _ => true
  }

  ghost predicate EventOk(e: Event, published: map<int, Audio>) {
    match e
    case Played(p, f, w) => p in published && f == w == published[p]
    case Concealed(p, known) => known <= published.Keys && p !in known
    case Dropped(p) => p in published
  }

  ghost predicate LogOk(s: State) {
    forall i :: 0 <= i < |s.log| ==> EventOk(s.log[i], s.published)
  }

  ghost predicate Inv(s: State, lead: nat) {
    RingOk(s, lead) && WriterOk(s) && ReaderOk(s) && LogOk(s)
  }

  // ---------------------------------------------------------------- single steps

  /** The heart of the argument: inside the window the slot the writer is filling is never the
      slot of a packet that is still to be played. */
  lemma WriterClear(s: State, late: nat, lead: nat, q: int)
    requires Inv(s, lead) && Window(s, late, lead)
    requires s.writer.Busy? && q in s.published && q >= Horizon(s)
    ensures Index(q) != Index(s.writer.pos)
  {
    assert Held(s, q);
    if Index(q) == Index(s.writer.pos) {
      SameIndex(q, s.writer.pos);
    }
  }

  /** A marker that matches the cursor belongs to the cursor's own packet. */
  lemma MatchIsHeld(s: State, late: nat, lead: nat, p: int)
    requires Inv(s, lead) && Window(s, late, lead)
    requires Horizon(s) - late <= p < Horizon(s) + lead
    requires At(s, p).gen == Marker(p)
    ensures At(s, p).pos == p && p in s.published
    ensures p >= Horizon(s) ==> Held(s, p)
  {
    assert SlotOk(s, lead, Index(p));
    SameMarker(At(s, p).pos, p);
  }

  lemma WriterFillKeeps(s: State, c: Config, step: Step, late: nat, lead: nat)
    requires Inv(s, lead) && Window(s, late, lead)
    requires step.Resize? || step.StoreSample?
    requires Enabled(s, step)
    ensures Inv(Apply(s, c, step), lead)
  {
    var t := Apply(s, c, step);
    assert Horizon(t) == Horizon(s);
    forall i | 0 <= i < SLOTS
      ensures SlotOk(t, lead, i)
    {
      assert SlotOk(s, lead, i);
    }
    forall q | q in t.published && q >= Horizon(t)
      ensures q < Horizon(t) + lead && Held(t, q)
    {
      WriterClear(s, late, lead, q);
      assert Held(s, q);
    }
    if t.reader.Matched? || t.reader.Fed? || t.reader.Written? || t.reader.DropMatched? {
      assert Held(t, t.cursor);
    }
  }

  lemma ArriveKeeps(s: State, c: Config, step: Step, late: nat, lead: nat)
    requires Inv(s, lead) && Window(s, late, lead)
    requires step.Arrive? && Enabled(s, step)
    requires Window(Apply(s, c, step), late, lead)
    ensures Inv(Apply(s, c, step), lead)
  {
    var t := Apply(s, c, step);
    assert Horizon(t) >= Horizon(s);
    forall i | 0 <= i < SLOTS
      ensures SlotOk(t, lead, i)
    {
      assert SlotOk(s, lead, i);
    }
    forall q | q in t.published && q >= Horizon(t)
      ensures q < Horizon(t) + lead && Held(t, q)
    {
      assert Held(s, q);
    }
  }

  lemma PublishKeeps(s: State, c: Config, late: nat, lead: nat)
    requires Inv(s, lead) && Window(s, late, lead)
    requires Enabled(s, Publish)
    ensures Inv(Apply(s, c, Publish), lead)
  {
    var t := Apply(s, c, Publish);
    var w := s.writer;
    assert Horizon(t) == Horizon(s);
    assert w.audio[..w.filled] == w.audio && At(s, w.pos).audio[..w.filled] == At(s, w.pos).audio;
    if w.pos in s.published && w.pos >= Horizon(s) {
      WriterClear(s, late, lead, w.pos);
    }
    forall i | 0 <= i < SLOTS
      ensures SlotOk(t, lead, i)
    {
      assert SlotOk(s, lead, i);
    }
    forall q | q in t.published && q >= Horizon(t)
      ensures q < Horizon(t) + lead && Held(t, q)
    {
      if q != w.pos {
        WriterClear(s, late, lead, q);
        assert Held(s, q);
      }
    }
    if t.reader.Matched? || t.reader.Fed? || t.reader.Written? || t.reader.DropMatched? {
      WriterClear(s, late, lead, s.cursor);
      assert Held(t, t.cursor);
    }
  }

  lemma LookKeeps(s: State, c: Config, step: Step, late: nat, lead: nat)
    requires Inv(s, lead) && Window(s, late, lead)
    requires step.Look? || step.Feed? || step.Write? || step.Drift?
    requires Enabled(s, step)
    ensures Inv(Apply(s, c, step), lead)
  {
    var t := Apply(s, c, step);
    if step.Look? || step.Drift? {
      if At(s, s.cursor).gen == Marker(s.cursor) {
        MatchIsHeld(s, late, lead, s.cursor);
      }
    }
    KeepRing(s, t, lead);
  }

  lemma KeepRing(s: State, t: State, lead: nat)
    requires RingOk(s, lead) && t.ring == s.ring && t.published == s.published
    requires Horizon(t) >= Horizon(s)
    ensures RingOk(t, lead)
    ensures forall q :: Held(s, q) <==> Held(t, q)
  {
    forall i | 0 <= i < SLOTS
      ensures SlotOk(t, lead, i)
    {
      assert SlotOk(s, lead, i);
    }
    forall q | q in t.published && q >= Horizon(t)
      ensures q < Horizon(t) + lead && Held(t, q)
    {
      assert Held(s, q);
    }
  }

  lemma ClearKeeps(s: State, c: Config, step: Step, late: nat, lead: nat)
    requires Inv(s, lead) && Window(s, late, lead)
    requires step.Clear? || step.DropClear?
    requires Enabled(s, step)
    ensures Inv(Apply(s, c, step), lead)
  {
    var t := Apply(s, c, step);
    assert Held(s, s.cursor);
    assert Horizon(t) == Horizon(s) + 1;
    forall i | 0 <= i < SLOTS
      ensures SlotOk(t, lead, i)
    {
      assert SlotOk(s, lead, i);
    }
    forall q | q in t.published && q >= Horizon(t)
      ensures q < Horizon(t) + lead && Held(t, q)
    {
      assert Held(s, q);
      if Index(q) == Index(s.cursor) {
        SameIndex(q, s.cursor);
      }
    }
  }

  lemma MissKeeps(s: State, c: Config, step: Step, late: nat, lead: nat)
    requires Inv(s, lead) && Window(s, late, lead)
    requires step.Miss? || step.Resume?
    requires Enabled(s, step)
    requires Window(Apply(s, c, step), late, lead)
    ensures Inv(Apply(s, c, step), lead)
  {
    var t := Apply(s, c, step);
    assert Horizon(t) >= Horizon(s);
    KeepRing(s, t, lead);
  }

  lemma StepKeeps(s: State, c: Config, step: Step, late: nat, lead: nat)
    requires Inv(s, lead) && Window(s, late, lead)
    requires Enabled(s, step)
    requires Window(Apply(s, c, step), late, lead)
    ensures Inv(Apply(s, c, step), lead)
  {
    match step
    case Reject => KeepRing(s, Apply(s, c, step), lead);
    case Arrive(_, _, _) => ArriveKeeps(s, c, step, late, lead);
    case Resize => WriterFillKeeps(s, c, step, late, lead);
    case StoreSample => WriterFillKeeps(s, c, step, late, lead);
    case Publish => PublishKeeps(s, c, late, lead);
    case Look => LookKeeps(s, c, step, late, lead);
    case Feed => LookKeeps(s, c, step, late, lead);
    case Write => LookKeeps(s, c, step, late, lead);
    case Drift(_) => LookKeeps(s, c, step, late, lead);
    case Clear => ClearKeeps(s, c, step, late, lead);
    case DropClear => ClearKeeps(s, c, step, late, lead);
    case Miss(_, _, _) => MissKeeps(s, c, step, late, lead);
    case Resume => MissKeeps(s, c, step, late, lead);
  }

  // ---------------------------------------------------------------- whole runs

  ghost predicate WindowedRun(r: Run, late: nat, lead: nat) {
    && IsRun(r)
    && forall i :: 0 <= i < |r.states| ==> Window(r.states[i], late, lead)
  }

  lemma {:induction false} InvAlways(r: Run, late: nat, lead: nat, n: nat)
    requires WindowedRun(r, late, lead) && n < |r.states|
    ensures Inv(r.states[n], lead)
  {
    if n > 0 {
      InvAlways(r, late, lead, n - 1);
      assert StepAt(r, n - 1);
      assert Window(r.states[n - 1], late, lead) && Window(r.states[n], late, lead);
      StepKeeps(r.states[n - 1], r.config, r.steps[n - 1], late, lead);
    }
  }

  // ---------------------------------------------------------------- what a run means

  /** The history map is what it says: the positions published so far, each with its first copy. */
  lemma {:induction false} PublishedMeans(r: Run, n: nat, p: int)
    requires IsRun(r) && n < |r.states|
    ensures p in r.states[n].published <==> exists k :: 0 <= k < n && Publishes(r, k, p)
    ensures p in r.states[n].published ==>
              exists k :: 0 <= k < n && Publishes(r, k, p)
                          && r.states[k].writer.audio == r.states[n].published[p]
                          && forall m :: 0 <= m < k ==> !Publishes(r, m, p)
  {
    if n > 0 {
      PublishedMeans(r, n - 1, p);
      assert StepAt(r, n - 1);
      assert Publishes(r, n - 1, p) <==> r.steps[n - 1] == Publish && r.states[n - 1].writer.pos == p;
    }
  }

  lemma HorizonStep(s: State, c: Config, step: Step, late: nat, lead: nat)
    requires Enabled(s, step) && ReaderOk(s)
    requires Window(Apply(s, c, step), late, lead)
    ensures Horizon(s) <= Horizon(Apply(s, c, step))
  {
  }

  lemma HorizonNext(r: Run, late: nat, lead: nat, n: nat)
    requires WindowedRun(r, late, lead) && n < |r.steps|
    ensures Horizon(r.states[n]) <= Horizon(r.states[n + 1])
  {
    var s, step := r.states[n], r.steps[n];
    assert StepAt(r, n);
    assert Window(r.states[n + 1], late, lead);
    assert ReaderOk(s) by {
      InvAlways(r, late, lead, n);
    }
    HorizonStep(s, r.config, step, late, lead);
  }

  lemma {:induction false} HorizonGrows(r: Run, late: nat, lead: nat, i: nat, j: nat)
    requires WindowedRun(r, late, lead) && i <= j < |r.states|
    ensures Horizon(r.states[i]) <= Horizon(r.states[j])
    decreases j - i
  {
    if i < j {
      HorizonGrows(r, late, lead, i, j - 1);
      HorizonNext(r, late, lead, j - 1);
    }
  }

  // ---------------------------------------------------------------- main theorems

  /** What is metered and what is written to the sound card are both exactly the complete first
      published copy of the position that plays. */
  lemma PlayedIsPublished(r: Run, late: nat, lead: nat, i: nat, p: int) returns (k: nat)
    requires WindowedRun(r, late, lead) && i < |r.steps| && Plays(r, i, p)
    ensures k < i && Publishes(r, k, p)
    ensures forall m :: 0 <= m < k ==> !Publishes(r, m, p)
    ensures r.states[i].reader == Written(r.states[k].writer.audio, r.states[k].writer.audio)
  {
    InvAlways(r, late, lead, i);
    assert StepAt(r, i);
    PublishedMeans(r, i, p);
    k :| 0 <= k < i && Publishes(r, k, p)
         && r.states[k].writer.audio == r.states[i].published[p]
         && forall m :: 0 <= m < k ==> !Publishes(r, m, p);
  }

  /** A concealed position was missing on every leg when the cursor looked for it. */
  lemma ConcealedWasMissing(r: Run, late: nat, lead: nat, i: nat, p: int) returns (j: nat)
    requires WindowedRun(r, late, lead) && i < |r.steps| && Conceals(r, i, p)
    ensures j < i && r.steps[j] == Look && r.states[j].cursor == p
    ensures forall k :: 0 <= k < j ==> !Publishes(r, k, p)
  {
    InvAlways(r, late, lead, i);
    assert StepAt(r, i);
    j := MissedMeans(r, i);
    PublishedMeans(r, j, p);
  }

  /** Inside the window a packet published before the cursor reached its position stays in reach
      until it is played, so it is never concealed. */
  lemma WindowedInTime(r: Run, late: nat, lead: nat, k: nat, i: nat, p: int)
    requires WindowedRun(r, late, lead) && k < |r.steps| && i < |r.steps|
    requires Publishes(r, k, p) && Horizon(r.states[k]) < p
    ensures !Conceals(r, i, p)
  {
    if Conceals(r, i, p) {
      var j := ConcealedWasMissing(r, late, lead, i, p);
      assert StepAt(r, j);
      HorizonGrows(r, late, lead, j, k);
    }
  }

  /** First arrival wins: inside the window a packet at or ahead of playout is discarded as a
      duplicate exactly when its position has already been published. */
  lemma DuplicateIffPublished(r: Run, late: nat, lead: nat, n: nat, leg: nat, p: int, audio: Audio)
    requires WindowedRun(r, late, lead) && n < |r.states|
    requires r.states[n].writer.Idle?
    requires Horizon(r.states[n]) <= p < Horizon(r.states[n]) + lead
    ensures ArriveStep(r.states[n], leg, p, audio).writer.Idle?
            <==> exists k :: 0 <= k < n && Publishes(r, k, p)
  {
    var s := r.states[n];
    InvAlways(r, late, lead, n);
    PublishedMeans(r, n, p);
    assert Window(s, late, lead);
    if At(s, p).gen == Marker(p) {
      MatchIsHeld(s, late, lead, p);
    }
    if p in s.published {
      assert Held(s, p);
    }
  }
}
