/**
  When a controller's copy of a message or counter is right after resets: exactly if no reset has
  cleared it from under the controller since the last notification of it.
*/
module Is12Reset {
  import opened Is12
  import opened Is12Mirror

  // ---------------------------------------------------------------- folding, property by property

  predicate Notes(notes: seq<Notification>, p: Property) {
    exists i :: 0 <= i < |notes| && notes[i].property == p
  }

  lemma NotesFront(notes: seq<Notification>, p: Property)
    requires notes != []
    ensures var n := |notes| - 1; Notes(notes, p) <==> Notes(notes[..n], p) || notes[n].property == p
  {
    var n := |notes| - 1;
    if Notes(notes, p) {
      var i :| 0 <= i < |notes| && notes[i].property == p;
      assert i < n ==> notes[..n][i].property == p;
    }
    if Notes(notes[..n], p) {
      var i :| 0 <= i < n && notes[..n][i].property == p;
      assert notes[i].property == p;
    }
  }

  /** Two mirrors that fold the same notifications agree on what was noted and keep the rest. */
  lemma {:induction false} FoldAt(a: Mirror, b: Mirror, notes: seq<Notification>, p: Property)
    ensures Notes(notes, p) ==> p in Fold(a, notes) && p in Fold(b, notes) && Fold(a, notes)[p] == Fold(b, notes)[p]
    ensures !Notes(notes, p) ==> (p in Fold(a, notes) <==> p in a) && (p in a ==> Fold(a, notes)[p] == a[p])
  {
    if notes != [] {
      NotesFront(notes, p);
      FoldAt(a, b, notes[..|notes| - 1], p);
    }
  }

  /** The copy of a controller that has just read everything. */
  function Snapshot(m: Monitor): (mirror: Mirror)
    requires WellFormed(m)
  {
    map l, i | 3 <= l <= 4 && 1 <= i <= 13 && (StatusProperty(l, i) || DetailProperty(l, i)) ::
      Property(m.oid, l, i) := GetProperty(m, l, i).value
  }

  lemma SnapshotIsExact(m: Monitor)
    requires WellFormed(m)
    ensures Mirrors(Snapshot(m), m, true)
  {
    forall l, i | StatusProperty(l, i) || DetailProperty(l, i)
      ensures Shows(Snapshot(m), m, l, i)
    {
      assert Property(m.oid, l, i) in Snapshot(m);
    }
  }

  // ---------------------------------------------------------------- one step

  /** b continues a by `got`. */
  ghost predicate Continued(a: seq<Notification>, b: seq<Notification>, got: seq<Notification>) {
    a <= b && got == b[|a|..]
  }

  /** A property that is not notified has not changed, and one that is notified is shown as it now is,
      whatever was shown before. */
  ghost predicate Told(mirror: Mirror, m: Monitor, m2: Monitor, got: seq<Notification>, index: int)
    requires WellFormed(m) && WellFormed(m2)
  {
    if Notes(got, Property(m.oid, 4, index)) then Shows(Fold(mirror, got), m2, 4, index)
    else Shows(Fold(mirror, got), m2, 4, index) <==> Shows(mirror, m, 4, index)
  }

  lemma ToldIf(mirror: Mirror, m: Monitor, m2: Monitor, got: seq<Notification>, index: int)
    requires WellFormed(m) && WellFormed(m2) && m2.oid == m.oid && DetailProperty(4, index)
    requires Mirrors(Fold(Snapshot(m), got), m2, true)
    ensures Told(mirror, m, m2, got, index)
  {
    var p, ideal := Property(m.oid, 4, index), Snapshot(m);
    SnapshotIsExact(m);
    assert Shows(ideal, m, 4, index) && Shows(Fold(ideal, got), m2, 4, index);
    FoldAt(mirror, ideal, got, p);
    FoldAt(ideal, mirror, got, p);
  }

  /** Steps other than a reset of the monitor tell the controller what changes. */
  lemma StepTells(s: Server, t: Server, step: Step, conn: nat, x: nat, mirror: Mirror, got: seq<Notification>,
                  index: int)
    requires Enabled(s, step) && t == Apply(s, step) && x < 2 && DetailProperty(4, index) && !Resets(step, x)
    requires Subscribed(s, conn, s.monitors[x].oid) && Subscribed(t, conn, s.monitors[x].oid) && ServerOk(t)
    requires Continued(s.connections[conn].received, t.connections[conn].received, got)
    ensures Told(mirror, s.monitors[x], t.monitors[x], got, index)
  {
    SnapshotIsExact(s.monitors[x]);
    StepMirrors(s, step, conn, x, Snapshot(s.monitors[x]), true);
    ToldIf(mirror, s.monitors[x], t.monitors[x], got, index);
  }

  predicate Resets(step: Step, x: nat) {
    step.Reset? && step.x == x
  }

  /** A reset says nothing. What it clears, the controller goes on showing. */
  lemma ResetHides(mirror: Mirror, m: Monitor, index: int)
    requires WellFormed(m) && DetailProperty(4, index)
    requires Holds(m, index) ==> Shows(mirror, m, 4, index)
    ensures WellFormed(ResetMonitor(m))
    ensures Shows(mirror, ResetMonitor(m), 4, index) <==> Shows(mirror, m, 4, index) && !Holds(m, index)
  {
  }

  /** The message or counter is not at its reset value. */
  ghost predicate Holds(m: Monitor, index: int)
    requires WellFormed(m)
  {
    GetProperty(m, 4, index) != Ok(Text("")) && GetProperty(m, 4, index) != Ok(Number(0))
  }

  // ---------------------------------------------------------------- whole traces

  /** What `conn` has received between two states. */
  ghost function Received(r: Trace, conn: nat, i: int, n: int): seq<Notification>
    requires 0 <= i < |r.states| && 0 <= n < |r.states|
  {
    if conn in r.states[i].connections && conn in r.states[n].connections
       && |r.states[i].connections[conn].received| <= |r.states[n].connections[conn].received|
    then r.states[n].connections[conn].received[|r.states[i].connections[conn].received|..] else []
  }

  /** Step k resets monitor x while the property holds something. */
  ghost predicate Clears(r: Trace, k: int, x: nat, index: int)
    requires 0 <= k < |r.steps| < |r.states| && x < 2
  {
    Resets(r.steps[k], x) && ServerOk(r.states[k]) && Holds(r.states[k].monitors[x], index)
  }

  /** The property was cleared from under the controller, which has not heard of it since: step
      n - 1 cleared it, or it was so before and step n - 1 did not notify it. */
  ghost predicate Stale(r: Trace, conn: nat, x: nat, p: Property, i: nat, n: nat)
    requires i <= n < |r.states| && |r.states| == |r.steps| + 1 && x < 2
    decreases n
  {
    n > i && (Clears(r, n - 1, x, p.index)
              || (Stale(r, conn, x, p, i, n - 1) && !Notes(Received(r, conn, n - 1, n), p)))
  }

  lemma ReceivedMore(r: Trace, conn: nat, i: nat, n: nat, mirror: Mirror)
    requires i <= n && n + 1 < |r.states|
    requires conn in r.states[i].connections && conn in r.states[n].connections && conn in r.states[n + 1].connections
    requires r.states[i].connections[conn].received <= r.states[n].connections[conn].received
    requires r.states[n].connections[conn].received <= r.states[n + 1].connections[conn].received
    ensures Fold(mirror, Received(r, conn, i, n + 1))
            == Fold(Fold(mirror, Received(r, conn, i, n)), Received(r, conn, n, n + 1))
  {
    FoldTwice(mirror, r.states[i].connections[conn].received, r.states[n].connections[conn].received,
              r.states[n + 1].connections[conn].received);
  }

  ghost predicate ShownIff(r: Trace, conn: nat, x: nat, i: nat, n: nat, mirror: Mirror, index: int)
    requires i <= n < |r.states| && |r.states| == |r.steps| + 1 && x < 2
    requires ServerOk(r.states[i]) && ServerOk(r.states[n])
  {
    Shows(Fold(mirror, Received(r, conn, i, n)), r.states[n].monitors[x], 4, index)
    <==> !Stale(r, conn, x, Property(r.states[i].monitors[x].oid, 4, index), i, n)
  }

  lemma ShownNext(r: Trace, conn: nat, x: nat, i: nat, n: nat, mirror: Mirror, index: int)
    requires IsTrace(r) && x < 2 && i <= n && n + 1 < |r.states| && ServerOk(r.states[i]) && DetailProperty(4, index)
    requires SubscribedThroughout(r, conn, r.states[i].monitors[x].oid, i, n + 1)
    requires ServerOk(r.states[n]) && ServerOk(r.states[n + 1])
    requires r.states[n].connections[conn].received <= r.states[n + 1].connections[conn].received
    requires r.states[i].connections[conn].received <= r.states[n].connections[conn].received
    requires Mirrors(Fold(mirror, Received(r, conn, i, n)), r.states[n].monitors[x], false)
    requires ShownIff(r, conn, x, i, n, mirror, index)
    ensures ShownIff(r, conn, x, i, n + 1, mirror, index)
  {
    var s, t, step := r.states[n], r.states[n + 1], r.steps[n];
    assert StepAt(r, n);
    assert Subscribed(s, conn, r.states[i].monitors[x].oid) && Subscribed(t, conn, r.states[i].monitors[x].oid);
    ReceivedMore(r, conn, i, n, mirror);
    StepVerdict(s, t, step, conn, x, Fold(mirror, Received(r, conn, i, n)), Received(r, conn, n, n + 1), index);
    assert Clears(r, n, x, index) <==> Resets(step, x) && Holds(s.monitors[x], index);
  }

  /** One step of a controller's view of one property. */
  lemma StepVerdict(s: Server, t: Server, step: Step, conn: nat, x: nat, shown: Mirror, got: seq<Notification>,
                    index: int)
    requires Enabled(s, step) && t == Apply(s, step) && x < 2 && DetailProperty(4, index) && ServerOk(t)
    requires Subscribed(s, conn, s.monitors[x].oid) && Subscribed(t, conn, s.monitors[x].oid)
    requires Continued(s.connections[conn].received, t.connections[conn].received, got)
    requires Mirrors(shown, s.monitors[x], false)
    ensures Shows(Fold(shown, got), t.monitors[x], 4, index)
            <==> if Resets(step, x) && Holds(s.monitors[x], index) then false
                 else Notes(got, Property(s.monitors[x].oid, 4, index)) || Shows(shown, s.monitors[x], 4, index)
  {
    if Resets(step, x) {
      ResetKeeps(s, step, conn, x);
      assert got == [];
      HeldIsShown(shown, s.monitors[x], index);
      ResetHides(shown, s.monitors[x], index);
    } else {
      StepTells(s, t, step, conn, x, shown, got, index);
    }
  }

  lemma HeldIsShown(shown: Mirror, m: Monitor, index: int)
    requires WellFormed(m) && DetailProperty(4, index) && Mirrors(shown, m, false)
    ensures Holds(m, index) ==> Shows(shown, m, 4, index)
  {
  }

  lemma ResetKeeps(s: Server, step: Step, conn: nat, x: nat)
    requires Enabled(s, step) && x < 2 && Resets(step, x) && conn in s.connections
    ensures Apply(s, step).monitors[x] == ResetMonitor(s.monitors[x]) && Apply(s, step).connections == s.connections
  {
  }

  /** For every message and every counter, along every trace with any resets: a subscribed
      controller that started from an exact copy shows the property rightly at n if and only if no
      reset since then has cleared it without a later notification of it. */
  lemma {:induction false} DetailShownIff(r: Trace, conn: nat, x: nat, i: nat, n: nat, mirror: Mirror, index: int)
    requires IsTrace(r) && x < 2 && i <= n < |r.states| && ServerOk(r.states[i]) && DetailProperty(4, index)
    requires SubscribedThroughout(r, conn, r.states[i].monitors[x].oid, i, n)
    requires Mirrors(mirror, r.states[i].monitors[x], true)
    ensures ServerOk(r.states[n]) && ShownIff(r, conn, x, i, n, mirror, index)
    decreases n - i
  {
    LooseToo(mirror, r.states[i].monitors[x]);
    if i == n {
      assert Subscribed(r.states[i], conn, r.states[i].monitors[x].oid);
      assert Received(r, conn, i, n) == [];
      assert Shows(mirror, r.states[i].monitors[x], 4, index);
    } else {
      DetailShownIff(r, conn, x, i, n - 1, mirror, index);
      NotificationMirror(r, conn, x, i, n - 1, mirror, false);
      OneMore(r, conn, x, i, n, mirror);
      ShownNext(r, conn, x, i, n - 1, mirror, index);
    }
  }

  lemma LooseToo(mirror: Mirror, m: Monitor)
    requires WellFormed(m) && Mirrors(mirror, m, true)
    ensures Mirrors(mirror, m, false)
  {
  }

  lemma OneMore(r: Trace, conn: nat, x: nat, i: nat, n: nat, mirror: Mirror)
    requires IsTrace(r) && x < 2 && i < n < |r.states| && ServerOk(r.states[i]) && ServerOk(r.states[n - 1])
    requires SubscribedThroughout(r, conn, r.states[i].monitors[x].oid, i, n)
    requires Mirrors(mirror, r.states[i].monitors[x], false)
    ensures ServerOk(r.states[n]) && conn in r.states[n - 1].connections && conn in r.states[n].connections
    ensures r.states[n - 1].connections[conn].received <= r.states[n].connections[conn].received
  {
    assert StepAt(r, n - 1);
    assert Subscribed(r.states[n - 1], conn, r.states[i].monitors[x].oid);
    assert Subscribed(r.states[n], conn, r.states[i].monitors[x].oid);
    SnapshotIsExact(r.states[n - 1].monitors[x]);
    assert Mirrors(Snapshot(r.states[n - 1].monitors[x]), r.states[n - 1].monitors[x], false);
    StepMirrors(r.states[n - 1], r.steps[n - 1], conn, x, Snapshot(r.states[n - 1].monitors[x]), false);
  }
}
