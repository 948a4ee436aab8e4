/**
  The Is12Server object of src/nmos/is12.cpp: monitors and subscriptions updated in place, one
  notification sent per changed property. The object carries the run of Is12 it has made so far;
  every public method extends it by one step and hands on what the theorems about runs say of it.
*/
module Is12Server {
  import opened Common
  import opened Is12
  import opened Is12Delay

  lemma {:induction false} ForConcat(a: seq<Notification>, b: seq<Notification>, oids: set<int>)
    ensures For(a + b, oids) == For(a, oids) + For(b, oids)
  {
    if b == [] {
      assert a + b == a;
    } else {
      assert (a + b)[..|a + b| - 1] == a + b[..|b| - 1];
      ForConcat(a, b[..|b| - 1], oids);
    }
  }

  lemma DeliverMore(connections: map<nat, Connection>, a: seq<Notification>, note: Notification)
    ensures Deliver(Deliver(connections, a), [note]) == Deliver(connections, a + [note])
  {
    forall c | c in connections
      ensures Deliver(Deliver(connections, a), [note])[c] == Deliver(connections, a + [note])[c]
    {
      ForConcat(a, [note], connections[c].oids);
    }
  }

  lemma DeliverNothing(connections: map<nat, Connection>)
    ensures Deliver(connections, []) == connections
  {
    forall c | c in connections
      ensures Deliver(connections, [])[c] == connections[c]
    {
      assert connections[c].received + [] == connections[c].received;
    }
  }

  /** What holds in every state of a run: the worst-of rule for both monitors, and at least 3 s per
      counted transition. */
  ghost predicate Promises(r: Trace) {
    && (forall n: nat, x: nat {:trigger WorstAt(r, n, x)} :: n < |r.states| && x < 2 ==> WorstAt(r, n, x))
    && (forall n: nat, x: nat, d: nat {:trigger Spaced(r, n, x, d)} ::
          n < |r.states| && x < 2 && d < 4 && Proper(r, x, d) ==>
          Spaced(r, n, x, d))
  }

  ghost predicate WorstAt(r: Trace, n: nat, x: nat)
    requires n < |r.states| && x < 2
  {
    ServerOk(r.states[n]) && IsWorst(r.states[n].monitors[x])
  }

  ghost predicate Spaced(r: Trace, n: nat, x: nat, d: nat)
    requires n < |r.states| && x < 2 && d < 4
  {
    ServerOk(r.states[n]) && DELAY_MS * Dom(r.states[n], x, d).transitions <= r.states[n].clock - r.states[0].clock
  }

  lemma RunPromises(r: Trace)
    requires IsRun(r)
    ensures Promises(r)
  {
    forall n: nat, x: nat | n < |r.states| && x < 2
      ensures WorstAt(r, n, x)
    {
      OverallAlways(r, x, n);
    }
    forall n: nat, x: nat, d: nat | n < |r.states| && x < 2 && d < 4 && Proper(r, x, d)
      ensures Spaced(r, n, x, d)
    {
      TransitionsSinceStart(r, x, d, n);
    }
  }

  lemma LastUpdate(r: Trace, before: Server, x: nat)
    requires IsRun(r) && |r.steps| > 0 && r.states[|r.steps| - 1] == before && ServerOk(before) && x < 2
    ensures ServerOk(Last(r)) && IsWorst(Last(r).monitors[x])
    ensures Applied(before, r.steps[|r.steps| - 1], x) ==> SpeaksForWorst(Last(r).monitors[x])
  {
    var n := |r.steps|;
    OverallAlways(r, x, n);
    if Applied(before, r.steps[n - 1], x) {
      MessageAlways(r, x, n, n);
    }
  }

  /** The part of a subscription request that is accepted, as the response lists it. */
  function KnownOnly(oids: seq<int>): seq<int> {
    if oids == [] then []
    else
      var last := oids[|oids| - 1];
      KnownOnly(oids[..|oids| - 1]) + (if Known(last) then [last] else [])
  }

  class Is12Server {
    var monitors: seq<Monitor>
    var connections: map<nat, Connection>
    ghost var clock: int
    ghost var run: Trace

    ghost function Model(): Server
      reads this
    {
      Server(monitors, connections, clock)
    }

    ghost predicate Valid()
      reads this
    {
      IsRun(run) && Last(run) == Model() && ServerOk(Model())
    }

    /** The run has grown by one step, and keeps its promises. */
    twostate predicate Took(step: Step)
      reads this
    {
      && Valid() && Enabled(old(Model()), step)
      && run.steps == old(run).steps + [step] && run.states == old(run).states + [Model()]
      && Promises(run)
    }

    /** The fields have moved from `before` by one step: extend the run. */
    ghost method Record(before: Server, step: Step)
      requires IsRun(run) && Last(run) == before && Enabled(before, step) && Model() == Apply(before, step)
      modifies this`run
      ensures Valid() && run.steps == old(run).steps + [step] && run.states == old(run).states + [Model()]
              && Promises(run)
    {
      run := Go(run, step);
      RunPromises(run);
      OkAlways(run, |run.states| - 1);
    }

    constructor (receiverId: string, senderId: string)
      ensures Valid() && Init(Model()) && run.steps == []
      ensures monitors[0].identity.resourceId == receiverId && monitors[1].identity.resourceId == senderId
      ensures forall x :: 0 <= x < 2 ==>
                && monitors[x].oid == 10 + x && monitors[x].overall == 0 && monitors[x].syncSource == None
                && forall d :: 0 <= d < 4 ==>
                     var dom := monitors[x].domains[d];
                     dom.status == (if d == 0 then 1 else 0) && dom.transitions == 0 && dom.message == ""
    {
      monitors := [NewReceiverMonitor(receiverId), NewSenderMonitor(senderId)];
      connections := map[];
      clock := 0;
      run := Trace([Server([NewReceiverMonitor(receiverId), NewSenderMonitor(senderId)], map[], 0)], []);
    }

    /** One notification to every connection that subscribed to the object. */
    method Notify(note: Notification)
      modifies this`connections
      ensures connections == Deliver(old(connections), [note])
    {
      var todo := connections.Keys;
      ghost var before := connections;
      while todo != {}
        invariant todo <= connections.Keys == before.Keys
        invariant forall c :: c in before ==>
                    connections[c] == if c in todo then before[c] else Deliver(before, [note])[c]
        decreases |todo|
      {
        var c :| c in todo;
        assert For([note], before[c].oids) == if note.property.oid in before[c].oids then [note] else [];
        if note.property.oid in connections[c].oids {
          connections := connections[c := connections[c].(received := connections[c].received + [note])];
        }
        todo := todo - {c};
      }
    }

    /** Store a changed monitor and tell the subscribers. `c` is the change so far, `start` the
        connections at its beginning. */
    method Report(x: nat, m: Monitor, level: int, index: int, v: Value, ghost c: Change,
                  ghost start: map<nat, Connection>)
      returns (ghost c': Change)
      requires x < |monitors| && connections == Deliver(start, c.notes)
      modifies this`monitors, this`connections
      ensures c' == Noted(c, m, level, index, v)
      ensures monitors == old(monitors)[x := m] && connections == Deliver(start, c'.notes)
    {
      monitors := monitors[x := m];
      var note := Notification(Property(m.oid, level, index), v);
      Notify(note);
      DeliverMore(start, c.notes, note);
      c' := Noted(c, m, level, index, v);
    }

    method RecomputeOverall(x: nat, ghost c: Change, ghost start: map<nat, Connection>) returns (ghost c': Change)
      requires x < |monitors| && WellFormed(c.m) && monitors[x] == c.m && connections == Deliver(start, c.notes)
      modifies this`monitors, this`connections
      ensures c' == Recomputed(c)
      ensures monitors == old(monitors)[x := c'.m] && connections == Deliver(start, c'.notes)
    {
      c' := c;
      var m := monitors[x];
      var overall: Status, message := 0, "";
      if m.domains[PATH].status != 0 {
        var worst, i := PATH, 1;
        while i < 4
          invariant 1 <= i <= 4 && worst < 4
          invariant worst == Worst(m, ORDER[..i])
        {
          assert ORDER[..i + 1][..i] == ORDER[..i];
          var d := ORDER[i];
          if !((d == SYNC || d == STREAM) && m.domains[d].status == 0)
             && m.domains[d].status > m.domains[worst].status {
            worst := d;
          }
          i := i + 1;
        }
        assert ORDER[..4] == ORDER;
        overall, message := m.domains[worst].status, m.domains[worst].message;
      }
      assert overall == OverallStatus(m) && message == OverallMessage(m);
      if overall != m.overall {
        m := m.(overall := overall);
        c' := Report(x, m, 3, 1, Number(overall), c', start);
      }
      if message != m.overallMessage {
        m := m.(overallMessage := message);
        c' := Report(x, m, 3, 2, Text(message), c', start);
      }
    }

    method ChangeStatus(x: nat, d: nat, status: Status, ghost c: Change, ghost start: map<nat, Connection>)
      returns (ghost c': Change)
      requires x < |monitors| && d < 4 && WellFormed(c.m) && monitors[x] == c.m
      requires connections == Deliver(start, c.notes)
      modifies this`monitors, this`connections
      ensures c' == SetStatus(c, d, status)
      ensures monitors == old(monitors)[x := c'.m] && connections == Deliver(start, c'.notes)
    {
      c' := c;
      var m := monitors[x];
      if m.domains[d].status != status {
        if status > m.domains[d].status && m.domains[d].status != 0 {
          var n := (m.domains[d].transitions + 1) % COUNTER_RANGE;
          m := WithDomain(m, d, m.domains[d].(transitions := n));
          c' := Report(x, m, 4, Base(d) + 2, Number(n), c', start);
        }
        m := WithDomain(m, d, m.domains[d].(status := status));
        c' := Report(x, m, 4, Base(d), Number(status), c', start);
      }
    }

    /** UpdateReceiverDomain and UpdateSenderDomain. */
    method Update(x: nat, d: nat, status: Status, message: string, now: int)
      requires Valid() && clock <= now && x < 2 && d < 4
      modifies this
      ensures Took(Step.Update(x, d, status, message, now))
      ensures status >= 2 && AskedLongEnough(run, x, d, |run.steps| - 1, status) ==>
                monitors[x].domains[d].status == status && monitors[x].domains[d].message == message
      ensures IsWorst(monitors[x])
      ensures Applied(old(Model()), Step.Update(x, d, status, message, now), x) ==> SpeaksForWorst(monitors[x])
    {
      ghost var before := Model();
      UpdateDomainOf(x, d, status, message, now);
      Record(before, Step.Update(x, d, status, message, now));
      if status >= 2 && AskedLongEnough(run, x, d, |run.steps| - 1, status) {
        LongAsked(run, x, d, |run.steps| - 1, status);
      }
      LastUpdate(run, before, x);
    }

    method UpdateDomainOf(x: nat, d: nat, status: Status, message: string, now: int)
      requires ServerOk(Model()) && clock <= now && x < 2 && d < 4
      modifies this`monitors, this`connections, this`clock
      ensures Model() == Apply(old(Model()), Step.Update(x, d, status, message, now))
    {
      ghost var start := connections;
      DeliverNothing(start);
      clock := now;
      var dom := monitors[x].domains[d];
      if status > 1 && status > dom.status {
        if dom.pending != status {
          dom := dom.(pending := status, since := now);
          monitors := monitors[x := WithDomain(monitors[x], d, dom)];
        }
        if now - dom.since < DELAY_MS {
          assert monitors[x].domains == old(monitors[x]).domains[d := dom];
          return;
        }
      }
      monitors := monitors[x := WithDomain(monitors[x], d, dom.(pending := NOTHING))];
      ghost var c := Change(monitors[x], []);
      c := ChangeStatus(x, d, status, c, start);
      if monitors[x].domains[d].message != message {
        var m := WithDomain(monitors[x], d, monitors[x].domains[d].(message := message));
        c := Report(x, m, 4, Base(d) + 1, Text(message), c, start);
      }
      c := RecomputeOverall(x, c, start);
      assert c == UpdateDomain(old(monitors[x]), d, status, message, now);
      assert monitors == old(monitors)[x := c.m];
    }

    /** The per-monitor body of SetSyncSource's loop. */
    method SetSourceOf(x: nat, source: Option<string>)
      requires x < |monitors|
      modifies this`monitors, this`connections
      ensures Model() == Commit(old(Model()), x, SetSource(old(monitors[x]), source))
    {
      ghost var start := connections;
      DeliverNothing(start);
      if monitors[x].syncSource != source {
        ghost var c := Change(monitors[x], []);
        c := Report(x, monitors[x].(syncSource := source), 4, 10, SourceValue(source), c, start);
      } else {
        assert monitors[x := monitors[x]] == monitors;
      }
    }

    method SetSyncSource(source: Option<string>, now: int)
      requires Valid() && clock <= now
      modifies this
      ensures Took(SyncSource(source, now))
      ensures monitors[0].syncSource == monitors[1].syncSource == source
    {
      ghost var before := Model();
      SetSourceOf(0, source);
      SetSourceOf(1, source);
      clock := now;
      Record(before, SyncSource(source, now));
    }

    method ResetCounters(x: nat, now: int)
      requires Valid() && clock <= now && x < 2
      modifies this`monitors, this`clock, this`run
      ensures Took(Reset(x, now)) && connections == old(connections)
    {
      ghost var before := Model();
      var m, d := monitors[x], 0;
      while d < 4
        invariant 0 <= d <= 4 && WellFormed(m)
        invariant m == monitors[x].(domains := m.domains)
        invariant forall e :: 0 <= e < 4 ==>
                    m.domains[e] == if e < d then monitors[x].domains[e].(transitions := 0, message := "")
                                    else monitors[x].domains[e]
      {
        m := WithDomain(m, d, m.domains[d].(transitions := 0, message := ""));
        d := d + 1;
      }
      assert m == ResetMonitor(monitors[x]);
      monitors, clock := monitors[x := m], now;
      Record(before, Reset(x, now));
    }

    method Opened(conn: nat, now: int)
      requires Valid() && clock <= now
      modifies this`connections, this`clock, this`run
      ensures Took(Connect(conn, now))
    {
      ghost var before := Model();
      connections, clock := connections[conn := Connection({}, [])], now;
      Record(before, Connect(conn, now));
    }

    method Closed(conn: nat, now: int)
      requires Valid() && clock <= now
      modifies this`connections, this`clock, this`run
      ensures Took(Disconnect(conn, now))
    {
      ghost var before := Model();
      connections, clock := connections - {conn}, now;
      Record(before, Disconnect(conn, now));
    }

    /** The subscription branch of HandleMessage: unknown objects are dropped from the request. */
    method HandleSubscription(conn: nat, oids: seq<int>, now: int) returns (accepted: seq<int>)
      requires Valid() && clock <= now
      modifies this`connections, this`clock, this`run
      ensures Took(Subscribe(conn, oids, now)) && accepted == KnownOnly(oids)
    {
      ghost var before := Model();
      accepted := [];
      var subscribed: set<int> := {};
      var i := 0;
      while i < |oids|
        invariant 0 <= i <= |oids|
        invariant subscribed == set oid | oid in oids[..i] && Known(oid)
        invariant accepted == KnownOnly(oids[..i])
      {
        assert oids[..i + 1] == oids[..i] + [oids[i]];
        assert oids[..i + 1][..i] == oids[..i];
        if oids[i] == 1 || oids[i] == monitors[0].oid || oids[i] == monitors[1].oid {
          subscribed := subscribed + {oids[i]};
          accepted := accepted + [oids[i]];
        }
        i := i + 1;
      }
      assert oids[..i] == oids;
      var received := if conn in connections then connections[conn].received else [];
      connections, clock := connections[conn := Connection(subscribed, received)], now;
      Record(before, Subscribe(conn, oids, now));
    }
  }
}
