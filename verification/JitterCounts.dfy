/** Packet conservation at every step of every run of the jitter ring, windowed or not. */
module JitterCounts {
  import opened JitterRing

  // ---------------------------------------------------------------- conservation

  function Occupied(ring: seq<Slot>): nat {
    if ring == [] then 0
    else (if ring[0].gen != 0 then 1 else 0) + Occupied(ring[1..])
  }

  lemma {:induction false} OccupiedUpdate(ring: seq<Slot>, i: nat, slot: Slot)
    requires i < |ring|
    ensures Occupied(ring[i := slot]) + (if ring[i].gen != 0 then 1 else 0)
            == Occupied(ring) + (if slot.gen != 0 then 1 else 0)
  {
    if i == 0 {
      assert ring[i := slot][1..] == ring[1..];
    } else {
      assert ring[i := slot][1..] == ring[1..][i - 1 := slot];
      OccupiedUpdate(ring[1..], i - 1, slot);
    }
  }

  lemma {:induction false} OccupiedNone(ring: seq<Slot>)
    requires forall i :: 0 <= i < |ring| ==> ring[i].gen == 0
    ensures Occupied(ring) == 0
  {
    if ring != [] {
      OccupiedNone(ring[1..]);
    }
  }

  datatype Kind = Play | Conceal | Drop

  function KindOf(e: Event): Kind {
    match e
    case Played(_, _, _) => Play
    case Concealed(_, _) => Conceal
    case Dropped(_) => Drop
  }

  function Count(log: seq<Event>, kind: Kind): nat {
    if log == [] then 0
    else Count(log[..|log| - 1], kind) + (if KindOf(log[|log| - 1]) == kind then 1 else 0)
  }

  lemma CountAppend(log: seq<Event>, e: Event, kind: Kind)
    ensures Count(log + [e], kind) == Count(log, kind) + (if KindOf(e) == kind then 1 else 0)
  {
    assert (log + [e])[..|log|] == log;
  }

  ghost predicate Conserved(s: State) {
    && |s.ring| == SLOTS
    && s.count.received
       == s.count.duplicates + s.count.rejected + s.count.stored + (if s.writer.Busy? then 1 else 0)
    && s.count.stored
       == s.count.played + s.count.dropped + s.count.overwritten + Occupied(s.ring)
    && s.count.secondary <= s.count.stored
    && s.count.played == Count(s.log, Play)
    && s.count.concealed == Count(s.log, Conceal)
    && s.count.dropped == Count(s.log, Drop)
    && s.epoch <= |s.log| && s.cursor - s.anchor == |s.log| - s.epoch
  }

  /** Only playout empties a slot, so the slot it matched is still occupied when it clears it. */
  ghost predicate MatchedOccupied(s: State)
    requires |s.ring| == SLOTS
  {
    s.reader.Matched? || s.reader.Fed? || s.reader.Written? || s.reader.DropMatched?
    ==> At(s, s.cursor).gen != 0
  }

  lemma FillConserves(s: State, c: Config, step: Step)
    requires Conserved(s) && MatchedOccupied(s) && Enabled(s, step)
    requires step.Resize? || step.StoreSample? || step.Publish?
    ensures Conserved(Apply(s, c, step)) && MatchedOccupied(Apply(s, c, step))
  {
    var i := Index(s.writer.pos);
    OccupiedUpdate(s.ring, i, Apply(s, c, step).ring[i]);
  }

  lemma ClearConserves(s: State, c: Config, step: Step)
    requires Conserved(s) && MatchedOccupied(s) && Enabled(s, step)
    requires step.Clear? || step.DropClear?
    ensures Conserved(Apply(s, c, step)) && MatchedOccupied(Apply(s, c, step))
  {
    var t, i := Apply(s, c, step), Index(s.cursor);
    OccupiedUpdate(s.ring, i, t.ring[i]);
    AppendConserves(s, t);
  }

  lemma AppendConserves(s: State, t: State)
    requires |t.log| == |s.log| + 1 && s.log <= t.log
    ensures forall kind :: Count(t.log, kind)
                           == Count(s.log, kind) + (if KindOf(t.log[|s.log|]) == kind then 1 else 0)
  {
    var e := t.log[|s.log|];
    assert t.log == s.log + [e];
    forall kind {
      CountAppend(s.log, e, kind);
    }
  }

  lemma MissConserves(s: State, c: Config, step: Step)
    requires Conserved(s) && MatchedOccupied(s) && Enabled(s, step) && step.Miss?
    ensures Conserved(Apply(s, c, step)) && MatchedOccupied(Apply(s, c, step))
  {
    var t := Apply(s, c, step);
    if t.log != s.log {
      AppendConserves(s, t);
    }
  }

  lemma ArriveConserves(s: State, c: Config, step: Step)
    requires Conserved(s) && MatchedOccupied(s) && Enabled(s, step)
    requires step.Arrive? || step.Reject?
    ensures Conserved(Apply(s, c, step)) && MatchedOccupied(Apply(s, c, step))
  {
  }

  lemma LookConserves(s: State, c: Config, step: Step)
    requires Conserved(s) && MatchedOccupied(s) && Enabled(s, step)
    requires step.Look? || step.Feed? || step.Write? || step.Drift? || step.Resume?
    ensures Conserved(Apply(s, c, step)) && MatchedOccupied(Apply(s, c, step))
  {
    var t := Apply(s, c, step);
    assert t.ring == s.ring && t.writer == s.writer && t.count == s.count && t.log == s.log;
    assert t.cursor - t.anchor == |t.log| - t.epoch;
  }

  lemma ConservedStep(s: State, c: Config, step: Step)
    requires Conserved(s) && MatchedOccupied(s) && Enabled(s, step)
    ensures Conserved(Apply(s, c, step)) && MatchedOccupied(Apply(s, c, step))
  {
    match step
    case Resize => FillConserves(s, c, step);
    case StoreSample => FillConserves(s, c, step);
    case Publish => FillConserves(s, c, step);
    case Clear => ClearConserves(s, c, step);
    case DropClear => ClearConserves(s, c, step);
    case Miss(_, _, _) => MissConserves(s, c, step);
    case Arrive(_, _, _) => ArriveConserves(s, c, step);
    case Reject => ArriveConserves(s, c, step);
    case _ => LookConserves(s, c, step);
  }

  /** Every packet is accounted for after every step of every run, windowed or not. */
  lemma {:induction false} PacketConservation(r: Run, n: nat)
    requires IsRun(r) && n < |r.states|
    ensures Conserved(r.states[n]) && MatchedOccupied(r.states[n])
  {
    if n == 0 {
      OccupiedNone(r.states[0].ring);
    } else {
      PacketConservation(r, n - 1);
      assert StepAt(r, n - 1);
      ConservedStep(r.states[n - 1], r.config, r.steps[n - 1]);
    }
  }
}
