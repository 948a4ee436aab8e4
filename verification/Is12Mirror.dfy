/**
  The notification stream as a protocol: a controller that takes one snapshot and then folds
  every notification into it always holds what GetProperty would answer.
*/
module Is12Mirror {
  import opened Common
  import opened Is12

  type Mirror = map<Property, Value>

  function Fold(mirror: Mirror, notes: seq<Notification>): Mirror {
    if notes == [] then mirror
    else
      var last := notes[|notes| - 1];
      Fold(mirror, notes[..|notes| - 1])[last.property := last.value]
  }

  lemma {:induction false} FoldConcat(mirror: Mirror, a: seq<Notification>, b: seq<Notification>)
    ensures Fold(mirror, a + b) == Fold(Fold(mirror, a), b)
  {
    if b == [] {
      assert a + b == a;
    } else {
      assert (a + b)[..|a + b| - 1] == a + b[..|b| - 1];
      FoldConcat(mirror, a, b[..|b| - 1]);
    }
  }

  // ---------------------------------------------------------------- what a mirror shows

  /** Domain statuses, overall status and message, synchronisation source. */
  predicate StatusProperty(level: int, index: int) {
    || (level == 3 && (index == 1 || index == 2))
    || (level == 4 && (index == 1 || index == 4 || index == 7 || index == 11 || index == 10))
  }

  /** Domain messages and transition counters: what a reset clears without a notification. */
  predicate DetailProperty(level: int, index: int) {
    && level == 4
    && (index == 2 || index == 3 || index == 5 || index == 6 || index == 8 || index == 9 || index == 12 || index == 13)
  }

  predicate Cleared(v: Value) {
    v == Text("") || v == Number(0)
  }

  ghost predicate Shows(mirror: Mirror, m: Monitor, level: int, index: int)
    requires WellFormed(m)
  {
    var p := Property(m.oid, level, index);
    p in mirror && GetProperty(m, level, index) == Ok(mirror[p])
  }

  /** The controller sees every status exactly; messages and counters exactly if `exact`, and
      otherwise at least whenever the object holds anything but the reset value. */
  ghost predicate Mirrors(mirror: Mirror, m: Monitor, exact: bool)
    requires WellFormed(m)
  {
    forall level, index ::
      && (StatusProperty(level, index) ==> Shows(mirror, m, level, index))
      && (DetailProperty(level, index) && (exact || !Cleared(GetProperty(m, level, index).value))
          ==> Shows(mirror, m, level, index))
  }

  /** m and m2 answer alike except possibly at one property. */
  ghost predicate OnlyAt(m: Monitor, m2: Monitor, level: int, index: int) {
    && WellFormed(m) && WellFormed(m2) && m.oid == m2.oid
    && forall l, i :: l != level || i != index ==> GetProperty(m2, l, i) == GetProperty(m, l, i)
  }

  lemma NotedMirrors(mirror: Mirror, c: Change, m2: Monitor, level: int, index: int, v: Value, exact: bool)
    requires OnlyAt(c.m, m2, level, index) && GetProperty(m2, level, index) == Ok(v)
    requires Mirrors(Fold(mirror, c.notes), c.m, exact)
    ensures Mirrors(Fold(mirror, Noted(c, m2, level, index, v).notes), m2, exact)
  {
    var now := Fold(mirror, c.notes);
    var note := Notification(Property(m2.oid, level, index), v);
    assert (c.notes + [note])[..|c.notes|] == c.notes;
    assert Fold(mirror, c.notes + [note]) == now[note.property := v];
    forall l, i | StatusProperty(l, i) || DetailProperty(l, i)
      ensures Shows(now, c.m, l, i) ==> Shows(now[note.property := v], m2, l, i)
      ensures (l == level && i == index) ==> Shows(now[note.property := v], m2, l, i)
    {
    }
    forall l, i | StatusProperty(l, i) || (DetailProperty(l, i) && (exact || !Cleared(GetProperty(m2, l, i).value)))
      ensures Shows(now[note.property := v], m2, l, i)
    {
      if l != level || i != index {
        assert Shows(now, c.m, l, i);
      }
    }
  }

  lemma Unchanged(mirror: Mirror, m: Monitor, m2: Monitor, exact: bool)
    requires WellFormed(m) && WellFormed(m2) && m.oid == m2.oid
    requires forall l, i :: GetProperty(m2, l, i) == GetProperty(m, l, i)
    requires Mirrors(mirror, m, exact)
    ensures Mirrors(mirror, m2, exact)
  {
    forall l, i | StatusProperty(l, i) || (DetailProperty(l, i) && (exact || !Cleared(GetProperty(m2, l, i).value)))
      ensures Shows(mirror, m2, l, i)
    {
      assert Shows(mirror, m, l, i);
    }
  }

  lemma DomainOnlyAt(m: Monitor, d: nat, domain: Domain, index: int)
    requires WellFormed(m) && d < 4
    requires index == Base(d) || domain.status == m.domains[d].status
    requires index == Base(d) + 1 || domain.message == m.domains[d].message
    requires index == Base(d) + 2 || domain.transitions == m.domains[d].transitions
    ensures OnlyAt(m, WithDomain(m, d, domain), 4, index)
    ensures GetProperty(WithDomain(m, d, domain), 4, Base(d)) == Ok(Number(domain.status))
    ensures GetProperty(WithDomain(m, d, domain), 4, Base(d) + 1) == Ok(Text(domain.message))
    ensures GetProperty(WithDomain(m, d, domain), 4, Base(d) + 2) == Ok(Number(domain.transitions))
  {
  }

  // ---------------------------------------------------------------- the code's own updates

  lemma CountMirrors(mirror: Mirror, c: Change, d: nat, exact: bool)
    requires WellFormed(c.m) && d < 4 && Mirrors(Fold(mirror, c.notes), c.m, exact)
    ensures Mirrors(Fold(mirror, CountTransition(c, d).notes), CountTransition(c, d).m, exact)
  {
    var domain := CountTransition(c, d).m.domains[d];
    DomainOnlyAt(c.m, d, domain, Base(d) + 2);
    NotedMirrors(mirror, c, WithDomain(c.m, d, domain), 4, Base(d) + 2, Number(domain.transitions), exact);
  }

  lemma StatusMirrors(mirror: Mirror, c: Change, d: nat, status: Status, exact: bool)
    requires WellFormed(c.m) && d < 4 && Mirrors(Fold(mirror, c.notes), c.m, exact)
    ensures Mirrors(Fold(mirror, SetStatus(c, d, status).notes), SetStatus(c, d, status).m, exact)
  {
    if c.m.domains[d].status != status {
      var counted := c;
      if status > c.m.domains[d].status && c.m.domains[d].status != 0 {
        CountMirrors(mirror, c, d, exact);
        counted := CountTransition(c, d);
      }
      var domain := counted.m.domains[d].(status := status);
      DomainOnlyAt(counted.m, d, domain, Base(d));
      NotedMirrors(mirror, counted, WithDomain(counted.m, d, domain), 4, Base(d), Number(status), exact);
    }
  }

  lemma MessageMirrors(mirror: Mirror, c: Change, d: nat, message: string, exact: bool)
    requires WellFormed(c.m) && d < 4 && Mirrors(Fold(mirror, c.notes), c.m, exact)
    ensures Mirrors(Fold(mirror, SetMessage(c, d, message).notes), SetMessage(c, d, message).m, exact)
  {
    if c.m.domains[d].message != message {
      var domain := c.m.domains[d].(message := message);
      DomainOnlyAt(c.m, d, domain, Base(d) + 1);
      NotedMirrors(mirror, c, WithDomain(c.m, d, domain), 4, Base(d) + 1, Text(message), exact);
    }
  }

  lemma OverallOnlyAt(m: Monitor, status: Status, message: string)
    requires WellFormed(m)
    ensures OnlyAt(m, m.(overall := status), 3, 1) && OnlyAt(m, m.(overallMessage := message), 3, 2)
    ensures GetProperty(m.(overall := status), 3, 1) == Ok(Number(status))
    ensures GetProperty(m.(overallMessage := message), 3, 2) == Ok(Text(message))
  {
    forall l, i | l != 3 || i != 1
      ensures GetProperty(m.(overall := status), l, i) == GetProperty(m, l, i)
    {
    }
    forall l, i | l != 3 || i != 2
      ensures GetProperty(m.(overallMessage := message), l, i) == GetProperty(m, l, i)
    {
    }
  }

  /** The first half of RecomputeOverall. */
  function WithOverall(c: Change, status: Status): Change {
    if status == c.m.overall then c else Noted(c, c.m.(overall := status), 3, 1, Number(status))
  }

  /** The second half. */
  function WithOverallMessage(c: Change, message: string): Change {
    if message == c.m.overallMessage then c else Noted(c, c.m.(overallMessage := message), 3, 2, Text(message))
  }

  lemma OverallMirrors(mirror: Mirror, c: Change, status: Status, exact: bool)
    requires WellFormed(c.m) && Mirrors(Fold(mirror, c.notes), c.m, exact)
    ensures Mirrors(Fold(mirror, WithOverall(c, status).notes), WithOverall(c, status).m, exact)
  {
    if status != c.m.overall {
      OverallOnlyAt(c.m, status, "");
      NotedMirrors(mirror, c, c.m.(overall := status), 3, 1, Number(status), exact);
    }
  }

  lemma OverallMessageMirrors(mirror: Mirror, c: Change, message: string, exact: bool)
    requires WellFormed(c.m) && Mirrors(Fold(mirror, c.notes), c.m, exact)
    ensures Mirrors(Fold(mirror, WithOverallMessage(c, message).notes), WithOverallMessage(c, message).m, exact)
  {
    if message != c.m.overallMessage {
      OverallOnlyAt(c.m, 0, message);
      NotedMirrors(mirror, c, c.m.(overallMessage := message), 3, 2, Text(message), exact);
    }
  }

  lemma RecomputedMirrors(mirror: Mirror, c: Change, exact: bool)
    requires WellFormed(c.m) && Mirrors(Fold(mirror, c.notes), c.m, exact)
    ensures Mirrors(Fold(mirror, Recomputed(c).notes), Recomputed(c).m, exact)
  {
    var status, message := OverallStatus(c.m), OverallMessage(c.m);
    OverallMirrors(mirror, c, status, exact);
    OverallMessageMirrors(mirror, WithOverall(c, status), message, exact);
    assert Recomputed(c) == WithOverallMessage(WithOverall(c, status), message);
  }

  lemma UpdateMirrors(mirror: Mirror, m: Monitor, d: nat, status: Status, message: string, now: int, exact: bool)
    requires WellFormed(m) && d < 4 && Mirrors(mirror, m, exact)
    ensures var c := UpdateDomain(m, d, status, message, now);
            Mirrors(Fold(mirror, c.notes), c.m, exact)
  {
    var quiet := if HeldBack(m.domains[d], status, now) then Pend(m.domains[d], status, now)
                 else m.domains[d].(pending := NOTHING);
    DomainOnlyAt(m, d, quiet, Base(d));
    var c := Change(WithDomain(m, d, quiet), []);
    Unchanged(mirror, m, c.m, exact);
    if !HeldBack(m.domains[d], status, now) {
      StatusMirrors(mirror, c, d, status, exact);
      var c1 := SetStatus(c, d, status);
      MessageMirrors(mirror, c1, d, message, exact);
      RecomputedMirrors(mirror, SetMessage(c1, d, message), exact);
    }
  }

  lemma SourceMirrors(mirror: Mirror, m: Monitor, source: Option<string>, exact: bool)
    requires WellFormed(m) && Mirrors(mirror, m, exact)
    ensures Mirrors(Fold(mirror, SetSource(m, source).notes), SetSource(m, source).m, exact)
  {
    if m.syncSource != source {
      NotedMirrors(mirror, Change(m, []), m.(syncSource := source), 4, 10, SourceValue(source), exact);
    }
  }

  /** A reset keeps the loose mirror. */
  lemma ResetMirrors(mirror: Mirror, m: Monitor)
    requires WellFormed(m) && Mirrors(mirror, m, false)
    ensures Mirrors(mirror, ResetMonitor(m), false)
  {
    var m2 := ResetMonitor(m);
    forall l, i | StatusProperty(l, i) || (DetailProperty(l, i) && !Cleared(GetProperty(m2, l, i).value))
      ensures Shows(mirror, m2, l, i)
    {
      assert Shows(mirror, m, l, i);
    }
  }

  /** And it keeps an exact mirror exactly when there was nothing to reset. */
  lemma ResetExactIff(mirror: Mirror, m: Monitor)
    requires WellFormed(m) && Mirrors(mirror, m, true)
    ensures Mirrors(mirror, ResetMonitor(m), true)
            <==> forall d :: 0 <= d < 4 ==> m.domains[d].message == "" && m.domains[d].transitions == 0
  {
    var m2 := ResetMonitor(m);
    if Mirrors(mirror, m2, true) {
      forall d | 0 <= d < 4
        ensures m.domains[d].message == "" && m.domains[d].transitions == 0
      {
        assert Shows(mirror, m, 4, Base(d) + 1) && Shows(mirror, m2, 4, Base(d) + 1);
        assert Shows(mirror, m, 4, Base(d) + 2) && Shows(mirror, m2, 4, Base(d) + 2);
      }
    }
    if forall d :: 0 <= d < 4 ==> m.domains[d].message == "" && m.domains[d].transitions == 0 {
      assert m2.domains == m.domains;
    }
  }

  // ---------------------------------------------------------------- delivery

  ghost predicate AllOf(notes: seq<Notification>, oid: int) {
    forall i :: 0 <= i < |notes| ==> notes[i].property.oid == oid
  }

  lemma {:induction false} ForAllOf(notes: seq<Notification>, oid: int, oids: set<int>)
    requires AllOf(notes, oid)
    ensures For(notes, oids) == if oid in oids then notes else []
  {
    if notes != [] {
      ForAllOf(notes[..|notes| - 1], oid, oids);
      assert notes == notes[..|notes| - 1] + [notes[|notes| - 1]];
    }
  }

  /** Notifications of another object leave this object's properties alone. */
  lemma {:induction false} FoldOther(mirror: Mirror, notes: seq<Notification>, oid: int, m: Monitor, exact: bool)
    requires WellFormed(m) && oid != m.oid && AllOf(notes, oid) && Mirrors(mirror, m, exact)
    ensures Mirrors(Fold(mirror, notes), m, exact)
  {
    if notes != [] {
      var front := notes[..|notes| - 1];
      FoldOther(mirror, front, oid, m, exact);
      var before, after := Fold(mirror, front), Fold(mirror, notes);
      forall l, i | StatusProperty(l, i) || (DetailProperty(l, i) && (exact || !Cleared(GetProperty(m, l, i).value)))
        ensures Shows(after, m, l, i)
      {
        assert Shows(before, m, l, i);
      }
    }
  }

  lemma OwnNotes(m: Monitor, d: nat, status: Status, message: string, now: int)
    requires WellFormed(m) && d < 4
    ensures var c := UpdateDomain(m, d, status, message, now);
            WellFormed(c.m) && c.m.oid == m.oid && AllOf(c.notes, m.oid)
  {
    if !HeldBack(m.domains[d], status, now) {
      var c := Change(WithDomain(m, d, m.domains[d].(pending := NOTHING)), []);
      OwnStatusNotes(c, d, status);
      var c2 := SetMessage(SetStatus(c, d, status), d, message);
      assert c2.m.oid == m.oid && AllOf(c2.notes, m.oid);
      OwnOverallNotes(c2);
    }
  }

  lemma OwnStatusNotes(c: Change, d: nat, status: Status)
    requires WellFormed(c.m) && d < 4 && AllOf(c.notes, c.m.oid)
    ensures var c' := SetStatus(c, d, status); WellFormed(c'.m) && c'.m.oid == c.m.oid && AllOf(c'.notes, c.m.oid)
  {
  }

  lemma OwnOverallNotes(c: Change)
    requires WellFormed(c.m) && AllOf(c.notes, c.m.oid)
    ensures var c' := Recomputed(c); WellFormed(c'.m) && c'.m.oid == c.m.oid && AllOf(c'.notes, c.m.oid)
  {
  }

  ghost predicate Subscribed(s: Server, conn: nat, oid: int) {
    conn in s.connections && oid in s.connections[conn].oids
  }

  lemma {:induction false} ForOnly(notes: seq<Notification>, oids: set<int>)
    ensures forall i :: 0 <= i < |For(notes, oids)| ==> For(notes, oids)[i].property.oid in oids
  {
    if notes != [] {
      ForOnly(notes[..|notes| - 1], oids);
    }
  }

  /** b continues a with notifications of the given objects only. */
  ghost predicate MoreOf(a: seq<Notification>, b: seq<Notification>, oids: set<int>) {
    a <= b && forall i :: |a| <= i < |b| ==> b[i].property.oid in oids
  }

  lemma CommitOnly(s: Server, y: nat, c: Change, conn: nat)
    requires y < |s.monitors| && conn in s.connections
    ensures conn in Commit(s, y, c).connections && Commit(s, y, c).connections[conn].oids == s.connections[conn].oids
    ensures MoreOf(s.connections[conn].received, Commit(s, y, c).connections[conn].received, s.connections[conn].oids)
  {
    ForOnly(c.notes, s.connections[conn].oids);
  }

  /** In every step of every trace a connection that stays open receives notifications of the
      objects it is subscribed to and of nothing else; what it has received is never lost. */
  lemma OnlySubscribed(r: Trace, conn: nat, n: nat)
    requires IsTrace(r) && n < |r.steps| && conn in r.states[n].connections && conn in r.states[n + 1].connections
    requires !(r.steps[n].Connect? && r.steps[n].conn == conn)
    ensures MoreOf(r.states[n].connections[conn].received, r.states[n + 1].connections[conn].received,
                   r.states[n].connections[conn].oids)
  {
    assert StepAt(r, n);
    var s := r.states[n];
    match r.steps[n]
    case Update(y, d, status, message, now) =>
      CommitOnly(s, y, UpdateDomain(s.monitors[y], d, status, message, now), conn);
    case SyncSource(source, _) => SourceOnly(s, source, conn);
    case _ =>
  }

  lemma SourceOnly(s: Server, source: Option<string>, conn: nat)
    requires ServerOk(s) && conn in s.connections
    ensures var t := Commit(s, 0, SetSource(s.monitors[0], source));
            var u := Commit(t, 1, SetSource(t.monitors[1], source));
            && conn in u.connections
            && MoreOf(s.connections[conn].received, u.connections[conn].received, s.connections[conn].oids)
  {
    var t := Commit(s, 0, SetSource(s.monitors[0], source));
    CommitOnly(s, 0, SetSource(s.monitors[0], source), conn);
    CommitOnly(t, 1, SetSource(t.monitors[1], source), conn);
  }

  /** Connecting starts without subscriptions, a subscription replaces the former one by the known
      objects asked for (the root block 1 and the monitors 10 and 11), and closing forgets it. */
  lemma SubscriptionMeans(s: Server, step: Step, conn: nat)
    requires Enabled(s, step)
    ensures var t := Apply(s, step);
            && (step == Connect(conn, step.now) ==> conn in t.connections && t.connections[conn] == Connection({}, []))
            && (step.Subscribe? && step.conn == conn ==>
                  && conn in t.connections
                  && forall oid :: oid in t.connections[conn].oids
                                   <==> oid in step.oids && (oid == 1 || oid == 10 || oid == 11))
            && (step == Disconnect(conn, step.now) ==> conn !in t.connections)
            && (step.Connect? || step.Subscribe? || step.Disconnect? ==>
                  t.monitors == s.monitors
                  && forall c :: c != step.conn ==> (c in t.connections <==> c in s.connections)
                                                    && (c in t.connections ==> t.connections[c] == s.connections[c]))
  {
  }

  /** One object changes; a subscriber of object x receives what keeps its mirror of x true. */
  lemma CommitMirrors(s: Server, y: nat, c: Change, conn: nat, x: nat, mirror: Mirror, exact: bool)
    requires ServerOk(s) && x < 2 && y < 2 && Subscribed(s, conn, s.monitors[x].oid)
    requires WellFormed(c.m) && c.m.oid == s.monitors[y].oid && AllOf(c.notes, c.m.oid)
    requires Mirrors(mirror, s.monitors[x], exact)
    requires x == y ==> Mirrors(Fold(mirror, c.notes), c.m, exact)
    ensures var t := Commit(s, y, c);
            && ServerOk(t) && Subscribed(t, conn, t.monitors[x].oid)
            && s.connections[conn].received <= t.connections[conn].received
            && Mirrors(Fold(mirror, t.connections[conn].received[|s.connections[conn].received|..]),
                       t.monitors[x], exact)
  {
    var t := Commit(s, y, c);
    var got := For(c.notes, s.connections[conn].oids);
    ForAllOf(c.notes, c.m.oid, s.connections[conn].oids);
    assert t.connections[conn].received[|s.connections[conn].received|..] == got;
    if x != y {
      FoldOther(mirror, got, c.m.oid, s.monitors[x], exact);
    }
  }

  /** What `conn` receives in one step keeps its mirror of object x true. */
  lemma StepMirrors(s: Server, step: Step, conn: nat, x: nat, mirror: Mirror, exact: bool)
    requires Enabled(s, step) && x < 2 && Mirrors(mirror, s.monitors[x], exact)
    requires Subscribed(s, conn, s.monitors[x].oid) && Subscribed(Apply(s, step), conn, s.monitors[x].oid)
    requires exact ==> !(step.Reset? && step.x == x)
    ensures var t := Apply(s, step);
            && ServerOk(t) && s.connections[conn].received <= t.connections[conn].received
            && Mirrors(Fold(mirror, t.connections[conn].received[|s.connections[conn].received|..]),
                       t.monitors[x], exact)
  {
    match step
    case Update(y, d, status, message, now) =>
      OwnNotes(s.monitors[y], d, status, message, now);
      UpdateMirrorsOwn(s, y, d, status, message, now, x, mirror, exact);
      CommitMirrors(s, y, UpdateDomain(s.monitors[y], d, status, message, now), conn, x, mirror, exact);
    case SyncSource(source, _) => SourceStepMirrors(s, source, conn, x, mirror, exact);
    case Reset(y, _) =>
      if y == x {
        ResetMirrors(mirror, s.monitors[x]);
      }
    case _ =>
  }

  lemma UpdateMirrorsOwn(s: Server, y: nat, d: nat, status: Status, message: string, now: int, x: nat,
                         mirror: Mirror, exact: bool)
    requires ServerOk(s) && x < 2 && y < 2 && d < 4 && Mirrors(mirror, s.monitors[x], exact)
    ensures x == y ==> var c := UpdateDomain(s.monitors[y], d, status, message, now);
                       Mirrors(Fold(mirror, c.notes), c.m, exact)
  {
    if x == y {
      UpdateMirrors(mirror, s.monitors[x], d, status, message, now, exact);
    }
  }

  lemma SourceCommitMirrors(s: Server, y: nat, source: Option<string>, conn: nat, x: nat, mirror: Mirror, exact: bool)
    requires ServerOk(s) && x < 2 && y < 2 && Mirrors(mirror, s.monitors[x], exact)
    requires Subscribed(s, conn, s.monitors[x].oid)
    ensures var t := Commit(s, y, SetSource(s.monitors[y], source));
            && ServerOk(t) && Subscribed(t, conn, t.monitors[x].oid)
            && s.connections[conn].received <= t.connections[conn].received
            && Mirrors(Fold(mirror, t.connections[conn].received[|s.connections[conn].received|..]),
                       t.monitors[x], exact)
  {
    if x == y {
      SourceMirrors(mirror, s.monitors[x], source, exact);
    }
    CommitMirrors(s, y, SetSource(s.monitors[y], source), conn, x, mirror, exact);
  }

  lemma FoldTwice(mirror: Mirror, from: seq<Notification>, mid: seq<Notification>, to: seq<Notification>)
    requires from <= mid <= to
    ensures Fold(mirror, to[|from|..]) == Fold(Fold(mirror, mid[|from|..]), to[|mid|..])
  {
    assert to[|from|..] == mid[|from|..] + to[|mid|..];
    FoldConcat(mirror, mid[|from|..], to[|mid|..]);
  }

  lemma SourceStepMirrors(s: Server, source: Option<string>, conn: nat, x: nat, mirror: Mirror, exact: bool)
    requires ServerOk(s) && x < 2 && Mirrors(mirror, s.monitors[x], exact)
    requires Subscribed(s, conn, s.monitors[x].oid)
    ensures var t := Commit(s, 0, SetSource(s.monitors[0], source));
            var u := Commit(t, 1, SetSource(t.monitors[1], source));
            && ServerOk(u) && conn in u.connections && s.connections[conn].received <= u.connections[conn].received
            && Mirrors(Fold(mirror, u.connections[conn].received[|s.connections[conn].received|..]),
                       u.monitors[x], exact)
  {
    SourceCommitMirrors(s, 0, source, conn, x, mirror, exact);
    var t := Commit(s, 0, SetSource(s.monitors[0], source));
    var from, mid := s.connections[conn].received, t.connections[conn].received;
    SourceCommitMirrors(t, 1, source, conn, x, Fold(mirror, mid[|from|..]), exact);
    var u := Commit(t, 1, SetSource(t.monitors[1], source));
    FoldTwice(mirror, from, mid, u.connections[conn].received);
  }

  // ---------------------------------------------------------------- whole traces

  ghost predicate SubscribedThroughout(r: Trace, conn: nat, oid: int, i: nat, n: nat)
    requires i <= n < |r.states|
  {
    forall k :: i <= k <= n ==> Subscribed(r.states[k], conn, oid)
  }

  ghost predicate ResetFree(r: Trace, x: nat, i: nat, n: nat)
    requires i <= n <= |r.steps|
  {
    forall k :: i <= k < n ==> !(r.steps[k].Reset? && r.steps[k].x == x)
  }

  /** The controller's mirror is right at every point of every trace: all statuses, the overall
      message and the sync source always, messages and counters too in reset-free traces, and
      with resets at least whenever the object does not hold the reset value. */
  lemma {:induction false} NotificationMirror(r: Trace, conn: nat, x: nat, i: nat, n: nat, mirror: Mirror, exact: bool)
    requires IsTrace(r) && x < 2 && i <= n < |r.states| && ServerOk(r.states[i])
    requires SubscribedThroughout(r, conn, r.states[i].monitors[x].oid, i, n)
    requires Mirrors(mirror, r.states[i].monitors[x], exact)
    requires exact ==> ResetFree(r, x, i, n)
    ensures ServerOk(r.states[n]) && Subscribed(r.states[n], conn, r.states[i].monitors[x].oid)
    ensures r.states[i].connections[conn].received <= r.states[n].connections[conn].received
    ensures var stream := r.states[n].connections[conn].received[|r.states[i].connections[conn].received|..];
            Mirrors(Fold(mirror, stream), r.states[n].monitors[x], exact)
    decreases n - i
  {
    if i < n {
      NotificationMirror(r, conn, x, i, n - 1, mirror, exact);
      assert StepAt(r, n - 1);
      assert Subscribed(r.states[n], conn, r.states[i].monitors[x].oid);
      var from, mid, to := r.states[i].connections[conn].received,
                           r.states[n - 1].connections[conn].received, r.states[n].connections[conn].received;
      StepMirrors(r.states[n - 1], r.steps[n - 1], conn, x, Fold(mirror, mid[|from|..]), exact);
      FoldTwice(mirror, from, mid, to);
    } else {
      assert r.states[n].connections[conn].received[|r.states[i].connections[conn].received|..] == [];
    }
  }

  /** Why the reset clause is needed: after a reset the next report of an empty message is not a
      change, so nothing ever tells the controller that its old message is gone. */
  lemma ResetSilencesMessage(m: Monitor, d: nat, now: int)
    requires WellFormed(m) && d < 4 && m.domains[d].message != ""
    ensures var m2 := ResetMonitor(m);
            var c := UpdateDomain(m2, d, m2.domains[d].status, "", now);
            && GetProperty(c.m, 4, Base(d) + 1) == Ok(Text(""))
            && forall i :: 0 <= i < |c.notes| ==> c.notes[i].property != Property(m.oid, 4, Base(d) + 1)
  {
  }
}
