/**
  When the outcome of RunBmca's single pass is determined by the table alone. No consistency is
  assumed here: the pass finds the same master in every order exactly when some qualified master
  beats all others, and a table of three that beat each other in a circle has none.
*/
module PtpElection {
  import opened Common
  import opened Bmca
  import opened PtpState
  import opened PtpRuns

  lemma {:induction false} Enumeration(keys: set<PortIdentity>) returns (order: seq<PortIdentity>)
    ensures Enumerates(order, keys)
    decreases |keys|
  {
    if keys == {} {
      order := [];
    } else {
      var id :| id in keys;
      var rest := Enumeration(keys - {id});
      order := [id] + rest;
    }
  }

  /** A master that has been beaten once does not come back. */
  lemma {:induction false} NeverBack(t: Table, x: PortIdentity, y: PortIdentity, rest: seq<PortIdentity>)
    requires x in t && y in t && x != y && x !in rest && forall id :: id in rest ==> id in t
    requires Qualified(t, x) && Qualified(t, y) && Beats(t, y, x)
    ensures Scan(t, [x, y] + rest) != Some(x)
  {
    var order := [x, y] + rest;
    var front, last := order[..|order| - 1], order[|order| - 1];
    if rest == [] {
      assert order == [x, y] && front == [x] && [x][..0] == [];
      assert Scan(t, []) == None;
      assert Scan(t, [x]) == Some(x);
    } else {
      assert front == [x, y] + rest[..|rest| - 1];
      NeverBack(t, x, y, rest[..|rest| - 1]);
    }
  }

  ghost predicate OrderIndependent(t: Table) {
    forall a, b :: Elects(t, a) && Elects(t, b) ==> a == b
  }

  lemma StartingWith(keys: set<PortIdentity>, x: PortIdentity, y: PortIdentity) returns (rest: seq<PortIdentity>)
    requires x in keys && y in keys && x != y
    ensures Enumerates([x, y] + rest, keys) && x !in rest && forall id :: id in rest ==> id in keys
  {
    rest := Enumeration(keys - {x, y});
    var order := [x, y] + rest;
    assert forall id :: id in order <==> id == x || id == y || id in rest;
  }

  lemma AnotherOutcome(t: Table, x: PortIdentity, y: PortIdentity) returns (b: Option<PortIdentity>)
    requires Qualified(t, x) && Qualified(t, y) && x != y && Beats(t, y, x)
    ensures Elects(t, b) && b != Some(x)
  {
    var rest := StartingWith(t.Keys, x, y);
    NeverBack(t, x, y, rest);
    b := Scan(t, [x, y] + rest);
  }

  /** Without a master that beats all others, two orders of the same table elect differently. */
  lemma TwoOutcomes(t: Table) returns (a: Option<PortIdentity>, b: Option<PortIdentity>)
    requires OwnSource(t) && forall best :: !BestOf(t, best)
    ensures Elects(t, a) && Elects(t, b) && a != b
  {
    var order := Enumeration(t.Keys);
    ScanQualified(t, order);
    a := Scan(t, order);
    assert !BestOf(t, a);
    var y :| y in t && Qualified(t, y) && y != a.value && !Beats(t, a.value, y);
    DistinctNeverTie(t, a.value, y);
    b := AnotherOutcome(t, a.value, y);
  }

  /** The outcome of the pass does not depend on the order of the table if and only if the table
      has a best master (or no qualified one at all). */
  lemma ElectionIff(t: Table)
    requires OwnSource(t)
    ensures OrderIndependent(t) <==> exists best :: BestOf(t, best)
  {
    if best :| BestOf(t, best) {
      forall a, b | Elects(t, a) && Elects(t, b)
        ensures a == b
      {
        BestIsElected(t, best, a);
        BestIsElected(t, best, b);
      }
    } else {
      var a, b := TwoOutcomes(t);
    }
  }

  /** Consistent tables always have one. */
  lemma ConsistentHasBest(t: Table)
    requires OwnSource(t) && ConsistentTable(t)
    ensures exists best :: BestOf(t, best)
  {
    var order := Enumeration(t.Keys);
    var best := Scan(t, order);
    assert Elects(t, best);
    ElectedIsBest(t, best, best);
  }

  /** In every state of every run, whatever was announced: the selected master is the best of the
      present table if and only if the table has a best one. */
  lemma SelectedBestIff(r: Run, n: nat)
    requires IsRun(r) && n < |r.states|
    ensures BestOf(r.states[n].table, r.states[n].selected) <==> exists best :: BestOf(r.states[n].table, best)
  {
    SelectedIsElected(r, n);
    if best :| BestOf(r.states[n].table, best) {
      BestIsElected(r.states[n].table, best, r.states[n].selected);
    }
  }

  // ---------------------------------------------------------------- a run without a best master

  lemma SomeElection(t: Table) returns (best: Option<PortIdentity>)
    ensures Elects(t, best) && (best.Some? ==> best.value in t)
  {
    var order := Enumeration(t.Keys);
    best := Scan(t, order);
  }

  /** u is t after one primary announce of ds. */
  ghost predicate Updated(t: Table, u: Table, ds: Dataset, now: int) {
    && u.Keys == t.Keys + {ds.source}
    && u[ds.source].dataset == ds && u[ds.source].lastSeen == now
    && u[ds.source].announces == (if ds.source in t then t[ds.source].announces else 0) + 1
    && forall id :: id in t && id != ds.source ==>
         u[id].dataset == t[id].dataset && u[id].announces == t[id].announces && u[id].lastSeen == t[id].lastSeen
  }

  lemma HeardUpdates(t: Table, ds: Dataset, now: int, best: Option<PortIdentity>)
    requires best.Some? ==> best.value in Heard(t, ds, 0, now)
    ensures Updated(t, Annotated(Heard(t, ds, 0, now), best), ds, now)
  {
  }

  /** An announce, with whatever the pass then elects. */
  lemma Hear(r: Run, ds: Dataset, now: int) returns (r': Run)
    requires IsRun(r)
    ensures IsRun(r') && r.states <= r'.states && |r'.steps| == |r.steps| + 1 && r.steps <= r'.steps
    ensures Updated(Last(r).table, Last(r').table, ds, now)
    ensures Elects(Heard(Last(r).table, ds, 0, now), Last(r').selected)
    ensures Last(r') == Switched(Last(r).(table := Last(r').table), Last(r').selected)
  {
    var s := Last(r);
    var best := SomeElection(Heard(s.table, ds, 0, now));
    HeardUpdates(s.table, ds, now, best);
    r' := Go(r, Announce(ds, 0, now, best));
    assert Last(r') == Reselect(s.(table := Heard(s.table, ds, 0, now)), best);
  }

  lemma CycleHasNoBest(t: Table, a: PortIdentity, b: PortIdentity, c: PortIdentity, best: Option<PortIdentity>)
    requires t.Keys == {a, b, c} && Qualified(t, a) && Qualified(t, b) && Qualified(t, c)
    requires Cyclic(t[a].dataset, t[b].dataset, t[c].dataset) && a != b && b != c && c != a
    ensures !BestOf(t, best)
  {
    Antisymmetric(t[a].dataset, t[b].dataset);
    Antisymmetric(t[b].dataset, t[c].dataset);
    Antisymmetric(t[c].dataset, t[a].dataset);
    assert !Beats(t, a, c) && !Beats(t, b, a) && !Beats(t, c, b);
  }

  /** Two announces qualify a new master. */
  lemma HearTwice(r: Run, ds: Dataset, now: int) returns (r': Run)
    requires IsRun(r) && ds.source !in Last(r).table
    ensures IsRun(r') && |r'.steps| == |r.steps| + 2 && r.states <= r'.states && r.steps <= r'.steps
    ensures Last(r').delaySeq == Last(r).delaySeq && Last(r').delayTx == Last(r).delayTx
    ensures Last(r').servo.smoothed == Last(r).servo.smoothed
    ensures Last(r').servo.haveDelay ==> Last(r).servo.haveDelay
    ensures var t, u := Last(r).table, Last(r').table;
            && u.Keys == t.Keys + {ds.source} && u[ds.source].dataset == ds && u[ds.source].announces == 2
            && u[ds.source].lastSeen == now
            && forall id :: id in t ==> u[id].dataset == t[id].dataset && u[id].announces == t[id].announces
  {
    var r1 := Hear(r, ds, now);
    r' := Hear(r1, ds, now);
  }

  /** Three announced masters that beat each other in a circle: whichever is selected, another one
      beats it, and a different order of the table would have selected differently. */
  lemma SelectedNotBest() returns (r: Run)
    ensures IsRun(r) && OwnSource(Last(r).table) && !OrderIndependent(Last(r).table)
    ensures !BestOf(Last(r).table, Last(r).selected)
  {
    var x, y, z := CyclicTriple();
    var r0 := Start();
    var r1 := HearTwice(r0, x, 0);
    var r2 := HearTwice(r1, y, 0);
    r := HearTwice(r2, z, 0);
    var t := Last(r).table;
    assert t.Keys == {x.source, y.source, z.source};
    forall best
      ensures !BestOf(t, best)
    {
      CycleHasNoBest(t, x.source, y.source, z.source, best);
    }
    ElectionIff(t);
  }

  lemma Start() returns (r: Run)
    ensures IsRun(r) && r.steps == []
    ensures Last(r).table == map[] && Last(r).selected == None && Last(r).servo.window == [] && !Last(r).servo.synced
            && !Last(r).servo.haveDelay && Last(r).servo.smoothed == 0.0 && !Last(r).awaiting
            && Last(r).delaySeq == 0 && Last(r).syncCount == 0
  {
    var start := State(map[], None, false, 0, 0, 0, 0, 0, 0, Servo.Servo([], 0.0, false, 0.0, false), 0, 0, []);
    r := Run([start], []);
  }
}
