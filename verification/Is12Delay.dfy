/** The status reporting delay and the overall status, over whole traces. */
module Is12Delay {
  import opened Common
  import opened Is12

  // ---------------------------------------------------------------- one request

  predicate CountsTransition(dom: Domain, status: Status) {
    dom.status != 0 && status > dom.status
  }

  /** What one request does to the domain it addresses. */
  function Requested(dom: Domain, status: Status, message: string, now: int): Domain {
    if HeldBack(dom, status, now) then Pend(dom, status, now)
    else Domain(status, message,
                if CountsTransition(dom, status) then (dom.transitions + 1) % COUNTER_RANGE else dom.transitions,
                NOTHING, dom.since)
  }

  lemma UpdateResult(m: Monitor, d: nat, status: Status, message: string, now: int)
    requires WellFormed(m) && d < 4
    ensures UpdateDomain(m, d, status, message, now).m.domains
            == m.domains[d := Requested(m.domains[d], status, message, now)]
    ensures UpdateDomain(m, d, status, message, now).m.oid == m.oid
  {
    var c := Change(WithDomain(m, d, m.domains[d].(pending := NOTHING)), []);
    var c1 := SetStatus(c, d, status);
    var c2 := SetMessage(c1, d, message);
    if !HeldBack(m.domains[d], status, now) {
      assert c2.m.domains == m.domains[d := Requested(m.domains[d], status, message, now)];
      assert Recomputed(c2).m.domains == c2.m.domains;
    }
  }

  /** Equal, healthier and inactive-or-healthy requests take effect at once. */
  lemma AppliesAtOnce(m: Monitor, d: nat, status: Status, message: string, now: int)
    requires WellFormed(m) && d < 4 && (status <= 1 || status <= m.domains[d].status)
    ensures var dom := UpdateDomain(m, d, status, message, now).m.domains[d];
            dom.status == status && dom.message == message && dom.pending == NOTHING
  {
    UpdateResult(m, d, status, message, now);
  }

  // ---------------------------------------------------------------- one domain along a trace

  function Dom(s: Server, x: nat, d: nat): Domain
    requires ServerOk(s) && x < 2 && d < 4
  {
    s.monitors[x].domains[d]
  }

  predicate Addresses(step: Step, x: nat, d: nat) {
    step.Update? && step.x == x && step.d == d
  }

  function Stepped(dom: Domain, step: Step, x: nat, d: nat): Domain {
    if Addresses(step, x, d) then Requested(dom, step.status, step.message, step.now)
    else if step.Reset? && step.x == x then dom.(transitions := 0, message := "")
    else dom
  }

  lemma DomainStep(s: Server, step: Step, x: nat, d: nat)
    requires Enabled(s, step) && x < 2 && d < 4
    ensures ServerOk(Apply(s, step))
    ensures Dom(Apply(s, step), x, d) == Stepped(Dom(s, x, d), step, x, d)
  {
    match step
    case Update(y, e, status, message, now) =>
      UpdateResult(s.monitors[y], e, status, message, now);
    case _ =>
  }

  lemma {:induction false} OkAlways(r: Trace, n: nat)
    requires IsTrace(r) && n < |r.states|
    ensures ServerOk(r.states[n])
  {
    if n > 0 {
      OkAlways(r, n - 1);
      assert StepAt(r, n - 1);
      DomainStep(r.states[n - 1], r.steps[n - 1], 0, 0);
    }
  }

  /** A pending status is one that every request on the domain has asked for since `since`. */
  lemma {:induction false} PendingMeans(r: Trace, x: nat, d: nat, n: nat) returns (k: nat)
    requires IsRun(r) && x < 2 && d < 4 && n < |r.states|
    requires ServerOk(r.states[n]) && Dom(r.states[n], x, d).pending != NOTHING
    ensures k < n && Addresses(r.steps[k], x, d)
    ensures r.steps[k].status == Dom(r.states[n], x, d).pending && r.steps[k].now == Dom(r.states[n], x, d).since
    ensures forall j :: k <= j < n && Addresses(r.steps[j], x, d) ==>
              r.steps[j].status == Dom(r.states[n], x, d).pending
  {
    assert n > 0;
    OkAlways(r, n - 1);
    assert StepAt(r, n - 1);
    var step := r.steps[n - 1];
    var before := Dom(r.states[n - 1], x, d);
    DomainStep(r.states[n - 1], step, x, d);
    if Addresses(step, x, d) && before.pending != step.status {
      k := n - 1;
    } else {
      k := PendingMeans(r, x, d, n - 1);
    }
  }

  /** A domain worsens to status 2 or 3 only if, for at least the preceding 3 s, every request on
      it asked for exactly that status. */
  lemma WorsensOnlyAfterDelay(r: Trace, x: nat, d: nat, n: nat) returns (k: nat)
    requires IsRun(r) && x < 2 && d < 4 && n < |r.steps|
    requires ServerOk(r.states[n]) && ServerOk(r.states[n + 1])
    requires Dom(r.states[n + 1], x, d).status > Dom(r.states[n], x, d).status
    requires Dom(r.states[n + 1], x, d).status >= 2
    ensures k <= n && Addresses(r.steps[k], x, d) && Addresses(r.steps[n], x, d)
    ensures r.steps[n].now - r.steps[k].now >= DELAY_MS
    ensures forall j :: k <= j <= n && Addresses(r.steps[j], x, d) ==>
              r.steps[j].status == Dom(r.states[n + 1], x, d).status
  {
    assert StepAt(r, n);
    DomainStep(r.states[n], r.steps[n], x, d);
    k := PendingMeans(r, x, d, n);
  }

  // ---------------------------------------------------------------- and it does worsen

  /** Nothing is pending from the future. */
  lemma {:induction false} PendingPast(r: Trace, x: nat, d: nat, n: nat)
    requires IsRun(r) && x < 2 && d < 4 && n < |r.states|
    ensures ServerOk(r.states[n])
    ensures Dom(r.states[n], x, d).pending != NOTHING ==> Dom(r.states[n], x, d).since <= r.states[n].clock
  {
    if n > 0 {
      PendingPast(r, x, d, n - 1);
      assert StepAt(r, n - 1);
      DomainStep(r.states[n - 1], r.steps[n - 1], x, d);
    }
  }

  /** The status s has been reported, or has been waiting to be since `start` or before. */
  predicate OnItsWay(dom: Domain, s: Status, start: int) {
    dom.status == s || (dom.status < s && dom.pending == s && dom.since <= start)
  }

  lemma AskedAgain(dom: Domain, s: Status, message: string, now: int, start: int)
    requires s >= 2 && OnItsWay(dom, s, start)
    ensures OnItsWay(Requested(dom, s, message, now), s, start)
    ensures now - start >= 3000 ==>
              Requested(dom, s, message, now).status == s && Requested(dom, s, message, now).message == message
  {
  }

  lemma FirstAsked(dom: Domain, s: Status, message: string, now: int)
    requires s >= 2 && (dom.pending != NOTHING ==> dom.since <= now)
    ensures OnItsWay(Requested(dom, s, message, now), s, now)
  {
  }

  lemma {:induction false} StaysOnItsWay(r: Trace, x: nat, d: nat, k: nat, n: nat, s: Status)
    requires IsRun(r) && x < 2 && d < 4 && k < n < |r.states| && s >= 2 && Addresses(r.steps[k], x, d)
    requires forall j :: k <= j < n && Addresses(r.steps[j], x, d) ==> r.steps[j].status == s
    ensures ServerOk(r.states[n]) && OnItsWay(Dom(r.states[n], x, d), s, r.steps[k].now)
  {
    var m := n - 1;
    PendingPast(r, x, d, m);
    assert StepAt(r, m);
    DomainStep(r.states[m], r.steps[m], x, d);
    if m == k {
      FirstAsked(Dom(r.states[m], x, d), s, r.steps[m].message, r.steps[m].now);
    } else {
      StaysOnItsWay(r, x, d, k, m, s);
      if Addresses(r.steps[m], x, d) {
        AskedAgain(Dom(r.states[m], x, d), s, r.steps[m].message, r.steps[m].now, r.steps[k].now);
      }
    }
  }

  /** What is asked for long enough is reported: if every request on a domain from step k to step n
      asks for the same status, 2 or worse, and 3 s lie between the two, the domain has that status
      and step n's message after step n, whatever it reported before, inactive included. */
  lemma AppliesAfterDelay(r: Trace, x: nat, d: nat, k: nat, n: nat, s: Status)
    requires IsRun(r) && x < 2 && d < 4 && k <= n < |r.steps| && s >= 2
    requires Addresses(r.steps[k], x, d) && Addresses(r.steps[n], x, d)
    requires forall j :: k <= j <= n && Addresses(r.steps[j], x, d) ==> r.steps[j].status == s
    requires r.steps[n].now - r.steps[k].now >= 3000
    ensures ServerOk(r.states[n + 1])
    ensures Dom(r.states[n + 1], x, d).status == s && Dom(r.states[n + 1], x, d).message == r.steps[n].message
  {
    OkAlways(r, n);
    assert StepAt(r, n);
    DomainStep(r.states[n], r.steps[n], x, d);
    StaysOnItsWay(r, x, d, k, n, s);
    AskedAgain(Dom(r.states[n], x, d), s, r.steps[n].message, r.steps[n].now, r.steps[k].now);
  }

  /** Step n and every request on the domain for at least 3 s before it ask for s. */
  ghost predicate AskedLongEnough(r: Trace, x: nat, d: nat, n: int, s: Status)
    requires 0 <= n < |r.steps|
  {
    exists k :: 0 <= k <= n && Addresses(r.steps[k], x, d) && r.steps[n].now - r.steps[k].now >= 3000
                && forall j :: k <= j <= n && Addresses(r.steps[j], x, d) ==> r.steps[j].status == s
  }

  lemma LongAsked(r: Trace, x: nat, d: nat, n: nat, s: Status)
    requires IsRun(r) && x < 2 && d < 4 && n < |r.steps| && s >= 2 && Addresses(r.steps[n], x, d)
    requires AskedLongEnough(r, x, d, n, s)
    ensures ServerOk(r.states[n + 1])
    ensures Dom(r.states[n + 1], x, d).status == s && Dom(r.states[n + 1], x, d).message == r.steps[n].message
  {
    var k :| 0 <= k <= n && Addresses(r.steps[k], x, d) && r.steps[n].now - r.steps[k].now >= 3000
             && forall j :: k <= j <= n && Addresses(r.steps[j], x, d) ==> r.steps[j].status == s;
    AppliesAfterDelay(r, x, d, k, n, s);
  }

  /** A request that is not reported at once leaves the domain as it was for everyone who reads it. */
  lemma HeldBackIsInvisible(r: Trace, x: nat, d: nat, n: nat)
    requires IsRun(r) && x < 2 && d < 4 && n < |r.steps| && Addresses(r.steps[n], x, d)
    ensures ServerOk(r.states[n]) && ServerOk(r.states[n + 1])
    ensures var a, b := Dom(r.states[n], x, d), Dom(r.states[n + 1], x, d);
            || (b.status == r.steps[n].status && b.message == r.steps[n].message)
            || (b.status == a.status && b.message == a.message && b.transitions == a.transitions)
  {
    OkAlways(r, n);
    assert StepAt(r, n);
    DomainStep(r.states[n], r.steps[n], x, d);
  }

  // ---------------------------------------------------------------- transition counters

  function Reported(s: Server, x: nat, d: nat): Status {
    if ServerOk(s) && x < 2 && d < 4 then Dom(s, x, d).status else 0
  }

  /** Steps since the latest reset that made an active domain worse. */
  ghost function Worsenings(r: Trace, x: nat, d: nat, n: nat): nat
    requires n < |r.states| && |r.states| == |r.steps| + 1
  {
    if n == 0 || (r.steps[n - 1].Reset? && r.steps[n - 1].x == x) then 0
    else
      var a, b := Reported(r.states[n - 1], x, d), Reported(r.states[n], x, d);
      Worsenings(r, x, d, n - 1) + (if a != 0 && b > a then 1 else 0)
  }

  /** The counter counts exactly these, modulo 2^32. */
  lemma {:induction false} TransitionsMeans(r: Trace, x: nat, d: nat, n: nat)
    requires IsRun(r) && x < 2 && d < 4 && n < |r.states|
    ensures ServerOk(r.states[n])
    ensures Dom(r.states[n], x, d).transitions == Worsenings(r, x, d, n) % 0x1_0000_0000
  {
    if n > 0 {
      TransitionsMeans(r, x, d, n - 1);
      assert StepAt(r, n - 1);
      DomainStep(r.states[n - 1], r.steps[n - 1], x, d);
      CountStep(Dom(r.states[n - 1], x, d), r.steps[n - 1], x, d, Worsenings(r, x, d, n - 1));
    }
  }

  lemma CountStep(dom: Domain, step: Step, x: nat, d: nat, w: nat)
    requires dom.transitions == w % 0x1_0000_0000
    ensures var next := Stepped(dom, step, x, d);
            var more := if dom.status != 0 && next.status > dom.status then 1 else 0;
            next.transitions == (if step.Reset? && step.x == x then 0 else w + more) % 0x1_0000_0000
  {
    CounterWraps(w);
  }

  lemma CounterWraps(w: nat)
    ensures (w % 0x1_0000_0000 + 1) % 0x1_0000_0000 == (w + 1) % 0x1_0000_0000
  {
  }

  /** No request ever asks for a negative status on this domain. */
  ghost predicate Proper(r: Trace, x: nat, d: nat) {
    forall k :: 0 <= k < |r.steps| && Addresses(r.steps[k], x, d) ==> r.steps[k].status >= 0
  }

  /** Such a request can be counted when it is taken back, without any delay, and only such a one. */
  lemma CountsAtOnceIff(dom: Domain)
    ensures (exists status: Status :: status <= 1 && CountsTransition(dom, status)) <==> dom.status < 0
  {
    if dom.status < 0 {
      assert CountsTransition(dom, 0);
    }
  }

  /** Reachable domains: a pending status is worse than the reported one and not from the future. */
  predicate Sane(dom: Domain, clock: int) {
    && dom.status >= 0
    && (dom.pending != NOTHING ==> 2 <= dom.pending && dom.pending > dom.status && dom.since <= clock)
  }

  lemma {:induction false} SaneAlways(r: Trace, x: nat, d: nat, n: nat)
    requires IsRun(r) && Proper(r, x, d) && x < 2 && d < 4 && n < |r.states|
    ensures ServerOk(r.states[n]) && Sane(Dom(r.states[n], x, d), r.states[n].clock)
  {
    if n > 0 {
      SaneAlways(r, x, d, n - 1);
      assert StepAt(r, n - 1);
      DomainStep(r.states[n - 1], r.steps[n - 1], x, d);
    }
  }

  /** The time up to which the counted transitions must have happened. */
  function Frontier(dom: Domain, clock: int): int {
    if dom.pending != NOTHING && dom.status != 0 then dom.since else clock
  }

  lemma FrontierStep(dom: Domain, clock: int, start: int, step: Step, x: nat, d: nat)
    requires Sane(dom, clock) && clock <= step.now && (Addresses(step, x, d) ==> step.status >= 0)
    requires DELAY_MS * dom.transitions <= Frontier(dom, clock) - start
    ensures var next := Stepped(dom, step, x, d);
            Sane(next, step.now) && DELAY_MS * next.transitions <= Frontier(next, step.now) - start
  {
    if Addresses(step, x, d) && !HeldBack(dom, step.status, step.now) && CountsTransition(dom, step.status) {
      assert dom.pending == step.status && step.now - dom.since >= DELAY_MS;
      assert (dom.transitions + 1) % COUNTER_RANGE <= dom.transitions + 1;
    }
  }

  /** Nothing was pending on an active domain when counting started. */
  predicate CleanStart(dom: Domain, start: int) {
    dom.pending == NOTHING || dom.status == 0 || dom.since >= start
  }

  lemma {:induction false} TransitionsBounded(r: Trace, x: nat, d: nat, n: nat)
    requires IsTrace(r) && Proper(r, x, d) && x < 2 && d < 4 && n < |r.states|
    requires var dom := Dom(r.states[0], x, d);
             dom.transitions == 0 && Sane(dom, r.states[0].clock) && CleanStart(dom, r.states[0].clock)
    ensures ServerOk(r.states[n])
    ensures var dom := Dom(r.states[n], x, d);
            && Sane(dom, r.states[n].clock)
            && DELAY_MS * dom.transitions <= Frontier(dom, r.states[n].clock) - r.states[0].clock
  {
    if n > 0 {
      TransitionsBounded(r, x, d, n - 1);
      assert StepAt(r, n - 1);
      var s, step := r.states[n - 1], r.steps[n - 1];
      DomainStep(s, step, x, d);
      FrontierStep(Dom(s, x, d), s.clock, r.states[0].clock, step, x, d);
    }
  }

  /** From the constructor on, counted transitions take at least 3 s each. */
  lemma TransitionsSinceStart(r: Trace, x: nat, d: nat, n: nat)
    requires IsRun(r) && Proper(r, x, d) && x < 2 && d < 4 && n < |r.states|
    ensures ServerOk(r.states[n])
    ensures DELAY_MS * Dom(r.states[n], x, d).transitions <= r.states[n].clock - r.states[0].clock
  {
    TransitionsBounded(r, x, d, n);
  }

  ghost predicate BoundHolds(s: Server, x: nat, d: nat)
    requires ServerOk(s) && x < 2 && d < 4
  {
    forall r: Trace, n: nat :: IsTrace(r) && Proper(r, x, d) && r.states[0] == s && n < |r.states| ==>
      ServerOk(r.states[n]) && DELAY_MS * Dom(r.states[n], x, d).transitions <= r.states[n].clock - s.clock
  }

  /** Counting from a reset, the same bound holds for every continuation if and only if the reset
      did not fall into the waiting time of a status that an active domain had pending. */
  lemma TransitionsSinceReset(s: Server, x: nat, d: nat)
    requires ServerOk(s) && x < 2 && d < 4
    requires Dom(s, x, d).transitions == 0 && Sane(Dom(s, x, d), s.clock)
    ensures BoundHolds(s, x, d) <==> CleanStart(Dom(s, x, d), s.clock)
  {
    var dom := Dom(s, x, d);
    if CleanStart(dom, s.clock) {
      forall r: Trace, n: nat | IsTrace(r) && Proper(r, x, d) && r.states[0] == s && n < |r.states|
        ensures ServerOk(r.states[n]) && DELAY_MS * Dom(r.states[n], x, d).transitions <= r.states[n].clock - s.clock
      {
        TransitionsBounded(r, x, d, n);
      }
    } else {
      var now := if dom.since + DELAY_MS > s.clock then dom.since + DELAY_MS else s.clock;
      var step := Update(x, d, dom.pending, "", now);
      DomainStep(s, step, x, d);
      var r := Trace([s, Apply(s, step)], [step]);
      assert StepAt(r, 0);
      assert IsTrace(r) && Proper(r, x, d) && r.states[0] == s;
      assert Dom(r.states[1], x, d).transitions == 1 && r.states[1].clock - s.clock < DELAY_MS;
    }
  }

  lemma NewRun() returns (r: Trace)
    ensures IsRun(r) && r.steps == [] && Last(r).clock == 0 && ServerOk(Last(r))
    ensures Dom(Last(r), 0, LINK) == Domain(1, "", 0, NOTHING, 0)
  {
    r := Trace([Server([NewReceiverMonitor(""), NewSenderMonitor("")], map[], 0)], []);
  }

  /** Reached from the start: the link is asked for status 2, the counters are reset 2999 ms later,
      and the same request 1 ms after that counts a transition. */
  lemma ResetInsideDelay() returns (r: Trace)
    ensures IsRun(r) && r.steps == [Update(0, LINK, 2, "", 0), Reset(0, 2999), Update(0, LINK, 2, "", 3000)]
    ensures ServerOk(Last(r)) && Dom(Last(r), 0, LINK).transitions == 1
    ensures Last(r).clock - r.states[2].clock == 1
  {
    var r0 := NewRun();
    var r1 := LinkStep(r0, Update(0, LINK, 2, "", 0));
    var r2 := LinkStep(r1, Reset(0, 2999));
    r := LinkStep(r2, Update(0, LINK, 2, "", 3000));
    assert r.states[2] == Last(r2);
  }

  /** One more step, and what it does to the receiver's link domain. */
  lemma LinkStep(r: Trace, step: Step) returns (r': Trace)
    requires IsRun(r) && Enabled(Last(r), step)
    ensures IsRun(r') && r'.steps == r.steps + [step] && r.states <= r'.states && |r'.states| == |r.states| + 1
    ensures Last(r').clock == step.now && ServerOk(Last(r'))
    ensures Dom(Last(r'), 0, LINK) == Stepped(Dom(Last(r), 0, LINK), step, 0, LINK)
  {
    DomainStep(Last(r), step, 0, LINK);
    r' := Go(r, step);
  }

  /** A status below inactive, which no caller uses, is counted as soon as it is taken back. */
  lemma NegativeCounts() returns (r: Trace)
    ensures IsRun(r) && r.steps == [Update(0, LINK, -1, "", 0), Update(0, LINK, 0, "", 0)]
    ensures ServerOk(Last(r)) && Dom(Last(r), 0, LINK).transitions == 1 && Last(r).clock == r.states[0].clock
  {
    var r0 := NewRun();
    var r1 := LinkStep(r0, Update(0, LINK, -1, "", 0));
    r := LinkStep(r1, Update(0, LINK, 0, "", 0));
  }

  // ---------------------------------------------------------------- the overall status

  /** Inactive while the path is inactive, else the worst of the domains in use. */
  ghost predicate IsWorst(m: Monitor) {
    && WellFormed(m)
    && if m.domains[PATH].status == 0 then m.overall == 0
       else && (forall d :: 0 <= d < 4 && !Unused(m, d) ==> m.domains[d].status <= m.overall)
            && (exists d :: 0 <= d < 4 && !Unused(m, d) && m.domains[d].status == m.overall)
  }

  /** The i-th domain in the order of the loop is the first worst one. */
  ghost predicate FirstWorst(m: Monitor, i: int)
    requires WellFormed(m)
  {
    && 0 <= i < 4 && m.domains[ORDER[i]].status == m.overall
    && forall j :: 0 <= j < i && !Unused(m, ORDER[j]) ==> m.domains[ORDER[j]].status < m.overall
  }

  /** The overall message is that of the first worst domain, path before link, sync and stream. */
  ghost predicate SpeaksForWorst(m: Monitor) {
    && WellFormed(m)
    && if m.domains[PATH].status == 0 then m.overallMessage == ""
       else exists i :: FirstWorst(m, i) && m.overallMessage == m.domains[ORDER[i]].message
  }

  lemma {:induction false} WorstIsFirstMaximum(m: Monitor, order: seq<nat>) returns (i: nat)
    requires WellFormed(m) && |order| > 0 && forall k :: 0 <= k < |order| ==> order[k] < 4
    requires !Unused(m, order[0])
    ensures i < |order| && Worst(m, order) == order[i] && !Unused(m, order[i])
    ensures forall k :: 0 <= k < |order| && !Unused(m, order[k]) ==>
            m.domains[order[k]].status <= m.domains[order[i]].status
    ensures forall k :: 0 <= k < i && !Unused(m, order[k]) ==> m.domains[order[k]].status < m.domains[order[i]].status
  {
    if |order| == 1 {
      i := 0;
    } else {
      i := WorstIsFirstMaximum(m, order[..|order| - 1]);
      var d := order[|order| - 1];
      if !Unused(m, d) && m.domains[d].status > m.domains[order[i]].status {
        i := |order| - 1;
      }
    }
  }

  lemma RecomputedIsWorst(c: Change)
    requires WellFormed(c.m)
    ensures IsWorst(Recomputed(c).m) && SpeaksForWorst(Recomputed(c).m)
  {
    var i := WorstIsFirstMaximum(c.m, ORDER);
    var m := Recomputed(c).m;
    assert m.domains == c.m.domains;
    assert m.overall == OverallStatus(c.m) && m.overallMessage == OverallMessage(c.m);
    if m.domains[PATH].status != 0 {
      assert FirstWorst(m, i) && m.overallMessage == m.domains[ORDER[i]].message;
      forall d | 0 <= d < 4 && !Unused(m, d)
        ensures m.domains[d].status <= m.overall
      {
        assert ORDER[[1, 0, 2, 3][d]] == d;
      }
    }
  }

  lemma KeepsWorst(m: Monitor, m2: Monitor)
    requires IsWorst(m) && WellFormed(m2) && m2.overall == m.overall
    requires forall d :: 0 <= d < 4 ==> m2.domains[d].status == m.domains[d].status
    ensures IsWorst(m2)
  {
    assert forall d :: 0 <= d < 4 ==> (Unused(m2, d) <==> Unused(m, d));
    if m.domains[PATH].status != 0 {
      var d :| 0 <= d < 4 && !Unused(m, d) && m.domains[d].status == m.overall;
      assert m2.domains[d].status == m2.overall;
    }
  }

  lemma KeepsSpeaking(m: Monitor, m2: Monitor)
    requires SpeaksForWorst(m) && WellFormed(m2) && m2.overall == m.overall && m2.overallMessage == m.overallMessage
    requires forall d :: 0 <= d < 4 ==>
               m2.domains[d].status == m.domains[d].status && m2.domains[d].message == m.domains[d].message
    ensures SpeaksForWorst(m2)
  {
    assert forall d :: 0 <= d < 4 ==> (Unused(m2, d) <==> Unused(m, d));
    if m.domains[PATH].status != 0 {
      var i :| FirstWorst(m, i) && m.overallMessage == m.domains[ORDER[i]].message;
      assert FirstWorst(m2, i);
    }
  }

  lemma UpdateIsWorst(m: Monitor, d: nat, status: Status, message: string, now: int)
    requires IsWorst(m) && d < 4
    ensures var m2 := UpdateDomain(m, d, status, message, now).m;
            IsWorst(m2) && (SpeaksForWorst(m) || !HeldBack(m.domains[d], status, now) ==> SpeaksForWorst(m2))
  {
    if HeldBack(m.domains[d], status, now) {
      var m2 := UpdateDomain(m, d, status, message, now).m;
      KeepsWorst(m, m2);
      if SpeaksForWorst(m) {
        KeepsSpeaking(m, m2);
      }
    } else {
      var c := Change(WithDomain(m, d, m.domains[d].(pending := NOTHING)), []);
      RecomputedIsWorst(SetMessage(SetStatus(c, d, status), d, message));
    }
  }

  /** A report on monitor x that takes effect. */
  predicate Applied(s: Server, step: Step, x: nat)
    requires ServerOk(s) && x < 2
  {
    step.Update? && step.x == x && step.d < 4 && !HeldBack(s.monitors[x].domains[step.d], step.status, step.now)
  }

  predicate Resets(step: Step, x: nat) {
    step.Reset? && step.x == x
  }

  lemma OverallStep(s: Server, step: Step, x: nat)
    requires Enabled(s, step) && x < 2 && IsWorst(s.monitors[x])
    ensures ServerOk(Apply(s, step)) && IsWorst(Apply(s, step).monitors[x])
    ensures (SpeaksForWorst(s.monitors[x]) && !Resets(step, x)) || Applied(s, step, x)
            ==> SpeaksForWorst(Apply(s, step).monitors[x])
  {
    DomainStep(s, step, x, 0);
    var m, m2 := s.monitors[x], Apply(s, step).monitors[x];
    match step
    case Update(y, d, status, message, now) =>
      if y == x {
        UpdateIsWorst(m, d, status, message, now);
      }
    case _ =>
      KeepsWorst(m, m2);
      if SpeaksForWorst(m) && !Resets(step, x) {
        KeepsSpeaking(m, m2);
      }
  }

  /** After every step of every run, early returns included, the overall status obeys the worst-of
      rule. */
  lemma {:induction false} OverallAlways(r: Trace, x: nat, n: nat)
    requires IsRun(r) && x < 2 && n < |r.states|
    ensures ServerOk(r.states[n]) && IsWorst(r.states[n].monitors[x])
  {
    if n > 0 {
      OverallAlways(r, x, n - 1);
      assert StepAt(r, n - 1);
      OverallStep(r.states[n - 1], r.steps[n - 1], x);
    }
  }

  /** The overall message is that of the first worst domain whenever the monitor has not been reset
      since it started, or since the latest report that took effect. */
  lemma {:induction false} MessageAlways(r: Trace, x: nat, i: nat, n: nat)
    requires IsRun(r) && x < 2 && i <= n < |r.states|
    requires i == 0 || (ServerOk(r.states[i - 1]) && Applied(r.states[i - 1], r.steps[i - 1], x))
    requires forall k :: i <= k < n ==> !Resets(r.steps[k], x)
    ensures ServerOk(r.states[n]) && SpeaksForWorst(r.states[n].monitors[x])
    decreases n
  {
    if n > 0 {
      OverallAlways(r, x, n - 1);
      assert StepAt(r, n - 1);
      if n > i {
        MessageAlways(r, x, i, n - 1);
      }
      OverallStep(r.states[n - 1], r.steps[n - 1], x);
    }
  }
}
