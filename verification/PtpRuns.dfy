/** Theorems about every run of the PTP slave: master selection, loss of sync and the servo. */
module PtpRuns {
  import opened Common
  import opened Bmca
  import opened Servo
  import opened PtpState

  // ---------------------------------------------------------------- the best master

  ghost predicate OwnSource(t: Table) {
    forall id :: id in t ==> t[id].dataset.source == id
  }

  /** Qualified masters that name the same grandmaster agree about its attributes. */
  ghost predicate ConsistentTable(t: Table) {
    forall a, b :: Qualified(t, a) && Qualified(t, b) ==> Consistent(t[a].dataset, t[b].dataset)
  }

  predicate Beats(t: Table, a: PortIdentity, b: PortIdentity)
    requires a in t && b in t
  {
    CompareDatasets(t[a].dataset, t[b].dataset).result < 0
  }

  /** The best qualified master among `ids`, or none if none of them is qualified. */
  ghost predicate BestAmong(t: Table, ids: set<PortIdentity>, best: Option<PortIdentity>) {
    match best
    case None => forall id :: id in ids ==> !Qualified(t, id)
    case Some(m) =>
      && m in ids && Qualified(t, m)
      && forall id :: id in ids && Qualified(t, id) && id != m ==> Beats(t, m, id)
  }

  ghost predicate BestOf(t: Table, best: Option<PortIdentity>) {
    BestAmong(t, t.Keys, best)
  }

  lemma DistinctNeverTie(t: Table, a: PortIdentity, b: PortIdentity)
    requires OwnSource(t) && a in t && b in t && a != b
    ensures Beats(t, a, b) <==> !Beats(t, b, a)
  {
    Antisymmetric(t[a].dataset, t[b].dataset);
  }

  lemma {:induction false} ScanFindsBest(t: Table, order: seq<PortIdentity>)
    requires OwnSource(t) && ConsistentTable(t) && forall id :: id in order ==> id in t
    ensures BestAmong(t, (set id | id in order), Scan(t, order))
  {
    if order != [] {
      var n := |order| - 1;
      var last, front := order[n], order[..n];
      ScanFindsBest(t, front);
      var best := Scan(t, front);
      assert forall id :: id in order <==> id in front || id == last;
      if Qualified(t, last) && best.Some? && last != best.value {
        DistinctNeverTie(t, last, best.value);
        if Beats(t, last, best.value) {
          forall id | id in front && Qualified(t, id) && id != last
            ensures Beats(t, last, id)
          {
            if id != best.value {
              Transitive(t[last].dataset, t[best.value].dataset, t[id].dataset);
            }
          }
        }
      } else if Qualified(t, last) && best.Some? {
        Antisymmetric(t[last].dataset, t[last].dataset);
      }
    }
  }

  /** RunBmca's single pass finds the best qualified master, and there is only one. */
  lemma ElectedIsBest(t: Table, best: Option<PortIdentity>, other: Option<PortIdentity>)
    requires OwnSource(t) && ConsistentTable(t) && Elects(t, best)
    ensures BestOf(t, best)
    ensures BestOf(t, other) ==> other == best
  {
    var order :| Enumerates(order, t.Keys) && Scan(t, order) == best;
    ScanFindsBest(t, order);
    assert (set id | id in order) == t.Keys;
    if BestOf(t, other) && other.Some? && best.Some? && other != best {
      DistinctNeverTie(t, best.value, other.value);
    }
  }

  /** Whoever is elected is qualified, and nobody is elected only if nobody is. */
  lemma {:induction false} ScanQualified(t: Table, order: seq<PortIdentity>)
    requires forall id :: id in order ==> id in t
    ensures Scan(t, order).Some? ==> Scan(t, order).value in order && Qualified(t, Scan(t, order).value)
    ensures Scan(t, order).None? ==> forall id :: id in order ==> !Qualified(t, id)
  {
    if order != [] {
      var front, last := order[..|order| - 1], order[|order| - 1];
      ScanQualified(t, front);
      assert order == front + [last];
    }
  }

  /** A master that beats all others is elected whenever it is looked at, in whatever order. */
  lemma {:induction false} ScanKeepsBest(t: Table, order: seq<PortIdentity>, m: PortIdentity)
    requires OwnSource(t) && BestOf(t, Some(m)) && m in order && forall id :: id in order ==> id in t
    ensures Scan(t, order) == Some(m)
  {
    var front, last := order[..|order| - 1], order[|order| - 1];
    assert order == front + [last];
    ScanQualified(t, front);
    var best := Scan(t, front);
    if last == m {
      Antisymmetric(t[m].dataset, t[m].dataset);
      if best.Some? && best.value != m {
        assert Beats(t, m, best.value);
      }
    } else {
      ScanKeepsBest(t, front, m);
      if Qualified(t, last) {
        DistinctNeverTie(t, m, last);
      }
    }
  }

  lemma BestIsElected(t: Table, best: Option<PortIdentity>, a: Option<PortIdentity>)
    requires OwnSource(t) && BestOf(t, best) && Elects(t, a)
    ensures a == best
  {
    var order :| Enumerates(order, t.Keys) && Scan(t, order) == a;
    ScanQualified(t, order);
    if best.Some? {
      ScanKeepsBest(t, order, best.value);
    }
  }

  /** What the analyzer shows for a master is the truth about the current table, in every case. */
  ghost predicate NoteTrue(t: Table, best: Option<PortIdentity>, id: PortIdentity)
    requires id in t
  {
    var f := t[id];
    && f.selected == (best == Some(id))
    && (f.note == IsSelected <==> best == Some(id))
    && (f.note == OnlyBlue <==> best != Some(id) && f.announces == 0 && f.blue > 0)
    && (f.note == NotQualified <==> best != Some(id) && f.announces < 2 && !(f.announces == 0 && f.blue > 0))
    && (f.note.LosesTo? <==> best != Some(id) && f.announces >= 2)
    && (f.note.LosesTo? ==>
          && best.Some? && best.value in t && f.note.winner == best.value.clock
          && Lex(Value(t[best.value].dataset, f.note.field), Value(f.dataset, f.note.field)) < 0
          && forall g :: Rank(g) < Rank(f.note.field) ==> Value(t[best.value].dataset, g) == Value(f.dataset, g))
  }

  ghost predicate MasterOk(s: State) {
    && OwnSource(s.table)
    && BestOf(s.table, s.selected)
    && forall id :: id in s.table ==> NoteTrue(s.table, s.selected, id)
  }

  /** Annotating a table changes no dataset and no qualification. */
  lemma AnnotatedSame(t: Table, best: Option<PortIdentity>)
    requires best.Some? ==> best.value in t
    ensures var u := Annotated(t, best);
            && u.Keys == t.Keys
            && (forall id :: id in t ==> u[id].dataset == t[id].dataset && u[id].announces == t[id].announces)
            && (forall id :: Qualified(u, id) <==> Qualified(t, id))
            && (ConsistentTable(t) <==> ConsistentTable(u))
            && (OwnSource(t) ==> OwnSource(u))
            && (BestOf(t, best) ==> BestOf(u, best))
  {
    var u := Annotated(t, best);
    assert u.Keys == t.Keys;
    if BestOf(t, best) && best.Some? {
      forall id | id in u && Qualified(u, id) && id != best.value
        ensures Beats(u, best.value, id)
      {
        assert Beats(t, best.value, id);
      }
    }
    assert forall a, b :: Qualified(u, a) && Qualified(u, b) ==> Qualified(t, a) && Qualified(t, b);
    assert forall a, b :: Qualified(t, a) && Qualified(t, b) ==> Qualified(u, a) && Qualified(u, b);
  }

  // ---------------------------------------------------------------- every reachable state

  lemma {:induction false} ScanSame(t: Table, u: Table, order: seq<PortIdentity>)
    requires t.Keys == u.Keys && forall id :: id in order ==> id in t
    requires forall id :: id in t ==> u[id].dataset == t[id].dataset && u[id].announces == t[id].announces
    ensures Scan(u, order) == Scan(t, order)
  {
    if order != [] {
      ScanSame(t, u, order[..|order| - 1]);
    }
  }

  /** Annotating a table does not change what a pass over it elects. */
  lemma AnnotatedElects(t: Table, best: Option<PortIdentity>)
    requires Elects(t, best) && (best.Some? ==> best.value in t)
    ensures Elects(Annotated(t, best), best)
  {
    var order :| Enumerates(order, t.Keys) && Scan(t, order) == best;
    ScanSame(t, Annotated(t, best), order);
    assert Annotated(t, best).Keys == t.Keys;
  }

  /** The selection is what a pass over the present table elects, and the notes are against it. */
  ghost predicate Elected(s: State) {
    && OwnSource(s.table) && Elects(s.table, s.selected) && (s.selected.Some? ==> s.selected.value in s.table)
    && forall id :: id in s.table ==>
         s.table[id].selected == (s.selected == Some(id)) && s.table[id].note == NoteFor(s.table, s.selected, id)
  }

  lemma ReselectElected(s: State, best: Option<PortIdentity>)
    requires OwnSource(s.table) && Elects(s.table, best) && (best.Some? ==> best.value in s.table)
    ensures Elected(Reselect(s, best))
  {
    var t, u := s.table, Annotated(s.table, best);
    AnnotatedElects(t, best);
    assert Reselect(s, best).table == u && Reselect(s, best).selected == best;
    forall id | id in u
      ensures u[id].selected == (best == Some(id)) && u[id].note == NoteFor(u, best, id)
    {
    }
  }

  lemma {:induction false} DroppedElected(s: State, drops: seq<PortIdentity>, bests: seq<Option<PortIdentity>>)
    requires Elected(s) && CanDrop(s, drops, bests)
    ensures Elected(Dropped(s, drops, bests))
    decreases |drops|
  {
    if drops != [] {
      var u := s.(table := s.table - {drops[0]});
      ReselectElected(u, bests[0]);
      DroppedElected(Reselect(u, bests[0]), drops[1..], bests[1..]);
    }
  }

  lemma ElectedStep(s: State, step: Step)
    requires Elected(s) && Enabled(s, step)
    ensures Elected(Apply(s, step))
  {
    match step
    case Announce(ds, net, now, best) =>
      ReselectElected(s.(table := Heard(s.table, ds, net, now)), best);
    case Age(now, drops, bests) => DroppedElected(s, drops, bests);
    case SetDomain => EmptyElected(DomainStep(s));
    case Sync(_, _, _, _, _, _) => assert Apply(s, step).table == s.table && Apply(s, step).selected == s.selected;
    case _ =>
  }

  lemma EmptyElected(s: State)
    requires s.table == map[] && s.selected == None
    ensures Elected(s)
  {
    var order: seq<PortIdentity> := [];
    assert Enumerates(order, s.table.Keys) && Scan(s.table, order) == None;
  }

  /** For every run and whatever was announced: the selected master is at every moment the one that
      a pass over the present table elects. */
  lemma {:induction false} SelectedIsElected(r: Run, n: nat)
    requires IsRun(r) && n < |r.states|
    ensures Elected(r.states[n])
  {
    if n == 0 {
      EmptyElected(r.states[0]);
    } else {
      SelectedIsElected(r, n - 1);
      assert StepAt(r, n - 1);
      ElectedStep(r.states[n - 1], r.steps[n - 1]);
    }
  }

  lemma ElectedNote(s: State, id: PortIdentity)
    requires Elected(s) && ConsistentTable(s.table) && BestOf(s.table, s.selected) && id in s.table
    ensures NoteTrue(s.table, s.selected, id)
  {
    var t, best := s.table, s.selected;
    if Qualified(t, id) && best.Some? && id != best.value {
      assert Beats(t, best.value, id);
      DecidingField(t[best.value].dataset, t[id].dataset);
    }
  }

  /** After every step of every run: if the present table is consistent, whatever earlier ones were,
      the selected master is the best of it, has been announced at least twice on the primary net,
      and every note in the table names the field the decision really fell on. */
  lemma SelectedIsBest(r: Run, n: nat)
    requires IsRun(r) && n < |r.states| && ConsistentTable(r.states[n].table)
    ensures MasterOk(r.states[n])
    ensures r.states[n].selected.Some? ==> Qualified(r.states[n].table, r.states[n].selected.value)
  {
    var s := r.states[n];
    SelectedIsElected(r, n);
    ElectedIsBest(s.table, s.selected, s.selected);
    forall id | id in s.table
      ensures NoteTrue(s.table, s.selected, id)
    {
      ElectedNote(s, id);
    }
  }

  // ---------------------------------------------------------------- losing masters

  /** Everything a master change would reset. */
  predicate SameTracking(s: State, t: State) {
    && t.selected == s.selected && t.epoch == s.epoch && t.servo == s.servo && t.since == s.since
    && t.awaiting == s.awaiting && t.syncSeq == s.syncSeq && t.syncRx == s.syncRx && t.lastSync == s.lastSync
  }

  lemma StillBest(s: State, u: State, best: Option<PortIdentity>)
    requires SameTracking(s, u) && u.selected.Some?
    requires OwnSource(u.table) && BestOf(u.table, u.selected) && Elects(u.table, best)
    requires best.Some? ==> best.value in u.table
    ensures SameTracking(s, Reselect(u, best)) && OwnSource(Reselect(u, best).table)
    ensures BestOf(Reselect(u, best).table, u.selected)
  {
    BestIsElected(u.table, u.selected, best);
    AnnotatedSame(u.table, best);
  }

  /** An announce from a master that loses to the best one, or is not yet qualified, disturbs nothing. */
  lemma LosingArrival(s: State, step: Step)
    requires OwnSource(s.table) && s.selected.Some? && BestOf(s.table, s.selected) && step.Announce? && Enabled(s, step)
    requires var t := Heard(s.table, step.ds, step.net, step.now);
             && step.ds.source != s.selected.value
             && (Qualified(t, step.ds.source) ==> Beats(t, s.selected.value, step.ds.source))
    ensures SameTracking(s, Apply(s, step))
  {
    var m := s.selected.value;
    var u := s.(table := Heard(s.table, step.ds, step.net, step.now));
    forall id | id in u.table && Qualified(u.table, id) && id != m
      ensures Beats(u.table, m, id)
    {
      if id != step.ds.source {
        assert Beats(s.table, m, id);
      }
    }
    StillBest(s, u, step.best);
  }

  lemma {:induction false} LosersDropped(s: State, drops: seq<PortIdentity>, bests: seq<Option<PortIdentity>>)
    requires OwnSource(s.table) && CanDrop(s, drops, bests)
    requires s.selected.Some? && BestOf(s.table, s.selected) && s.selected.value !in drops
    ensures SameTracking(s, Dropped(s, drops, bests))
    decreases |drops|
  {
    if drops != [] {
      var m := s.selected.value;
      var u := s.(table := s.table - {drops[0]});
      forall id | id in u.table && Qualified(u.table, id) && id != m
        ensures Beats(u.table, m, id)
      {
        assert Beats(s.table, m, id);
      }
      StillBest(s, u, bests[0]);
      LosersDropped(Reselect(u, bests[0]), drops[1..], bests[1..]);
    }
  }

  /** However many masters time out together, the servo is untouched as long as the selected one is
      the best and not among them: only the silence of its own Syncs may end synchronisation. */
  lemma LosingTimeout(s: State, step: Step)
    requires OwnSource(s.table) && step.Age? && Enabled(s, step)
    requires s.selected.Some? && BestOf(s.table, s.selected) && !Expired(s.table, step.now, s.selected.value)
    ensures SameTracking(SyncSilence(s, step.now), Apply(s, step))
  {
    assert s.selected.value !in step.drops;
    LosersDropped(s, step.drops, step.bests);
  }

  // ---------------------------------------------------------------- servo invariants

  ghost predicate TrackingOk(s: State) {
    && (s.servo.synced ==> s.selected.Some?)
    && ServoOk(s.servo, s.since)
    && |s.since| <= s.syncCount
    && s.syncCount + (if s.awaiting then 1 else 0) <= s.accepted
  }

  lemma ReselectTracks(s: State, best: Option<PortIdentity>)
    requires best.Some? ==> best.value in s.table
    requires TrackingOk(s)
    ensures TrackingOk(Reselect(s, best))
  {
  }

  lemma {:induction false} DroppedTracks(s: State, drops: seq<PortIdentity>, bests: seq<Option<PortIdentity>>)
    requires TrackingOk(s) && CanDrop(s, drops, bests)
    ensures TrackingOk(Dropped(s, drops, bests))
    decreases |drops|
  {
    if drops != [] {
      var u := s.(table := s.table - {drops[0]});
      ReselectTracks(u, bests[0]);
      DroppedTracks(Reselect(u, bests[0]), drops[1..], bests[1..]);
    }
  }

  /** A measurement, for which the caller has already accounted an accepted Sync. */
  lemma MeasuredTracks(s: State, raw: int)
    requires ServoOk(s.servo, s.since) && s.selected.Some? && |s.since| <= s.syncCount
    requires s.syncCount + 1 + (if s.awaiting then 1 else 0) <= s.accepted
    ensures TrackingOk(Measured(s, raw))
  {
    var x := raw as real + Correction(s.servo);
    AddSampleKeeps(s.servo, s.since, x);
    assert Measured(s, raw).servo == AddSample(s.servo, x) && Measured(s, raw).since == s.since + [x];
  }

  lemma SyncTracks(s: State, step: Step)
    requires TrackingOk(s) && step.Sync?
    ensures TrackingOk(Apply(s, step))
  {
    if AcceptsSync(s, step.clock) && !step.twoStep {
      var raw := Difference(step.origin, step.rx);
      var t := s.(lastSync := step.now, syncSeq := step.seqNo, syncRx := step.rx, accepted := s.accepted + 1);
      MeasuredTracks(t, raw);
      assert Apply(s, step) == Measured(t, raw);
    }
  }

  lemma FollowUpTracks(s: State, step: Step)
    requires TrackingOk(s) && step.FollowUp?
    ensures TrackingOk(Apply(s, step))
  {
    if AcceptsFollowUp(s, step.clock, step.seqNo) {
      var raw := Difference(step.origin, s.syncRx);
      MeasuredTracks(s.(awaiting := false), raw);
      assert Apply(s, step) == Measured(s.(awaiting := false), raw);
    }
  }

  lemma DelayTracks(sv: Servo, since: seq<real>, raw: int)
    requires ServoOk(sv, since)
    ensures ServoOk(AddDelay(sv, raw as real), since)
  {
  }

  lemma TrackingStep(s: State, step: Step)
    requires TrackingOk(s) && Enabled(s, step)
    ensures TrackingOk(Apply(s, step))
  {
    match step
    case Announce(ds, net, now, best) =>
      ReselectTracks(s.(table := Heard(s.table, ds, net, now)), best);
    case Age(now, drops, bests) => DroppedTracks(s, drops, bests);
    case Sync(_, _, _, _, _, _) => SyncTracks(s, step);
    case FollowUp(_, _, _) => FollowUpTracks(s, step);
    case DelayResp(_, received) => DelayTracks(s.servo, s.since, Difference(received, s.delayTx));
    case _ =>
  }

  /** In every reachable state: synced implies a selected master; at most 16 samples; the smoothed
      offset lies in the hull of the samples since sync was last lost; a held path delay is below
      100 ms; and measurements never outnumber accepted Syncs, pending one included. */
  lemma {:induction false} TrackingAlways(r: Run, n: nat)
    requires IsRun(r) && n < |r.states|
    ensures TrackingOk(r.states[n])
  {
    if n > 0 {
      TrackingAlways(r, n - 1);
      assert StepAt(r, n - 1);
      TrackingStep(r.states[n - 1], r.steps[n - 1]);
    }
  }

  // ---------------------------------------------------------------- losing the master, losing sync

  lemma {:induction false} DroppedRestarts(s: State, drops: seq<PortIdentity>, bests: seq<Option<PortIdentity>>)
    requires CanDrop(s, drops, bests)
    ensures var t := Dropped(s, drops, bests);
            && t.epoch >= s.epoch
            && (t.epoch == s.epoch ==> t.selected == s.selected && t.servo == s.servo && t.awaiting == s.awaiting)
            && (t.epoch != s.epoch ==> t.servo.window == [] && !t.servo.haveDelay && !t.awaiting)
            && t.syncSeq == s.syncSeq && t.syncRx == s.syncRx && t.lastSync == s.lastSync
    decreases |drops|
  {
    if drops != [] {
      DroppedRestarts(Reselect(s.(table := s.table - {drops[0]}), bests[0]), drops[1..], bests[1..]);
    }
  }

  /** Whatever selects another master, or none, starts the window and the delay afresh and drops a
      pending Sync; only a domain change leaves that flag up. */
  lemma ChangeRestarts(r: Run, n: nat)
    requires IsRun(r) && n < |r.steps| && r.states[n + 1].selected != r.states[n].selected
    ensures var t := r.states[n + 1];
            t.servo.window == [] && !t.servo.haveDelay && (t.awaiting ==> r.steps[n].SetDomain?)
  {
    assert StepAt(r, n);
    if r.steps[n].Age? {
      DroppedRestarts(r.states[n], r.steps[n].drops, r.steps[n].bests);
    }
  }

  lemma ElectsNone(t: Table, best: Option<PortIdentity>)
    requires Elects(t, best)
    ensures best.None? <==> forall id :: id in t ==> !Qualified(t, id)
  {
    var order :| Enumerates(order, t.Keys) && Scan(t, order) == best;
    ScanQualified(t, order);
  }

  /** With no qualified master left, erasing more of them selects none. */
  lemma {:induction false} StaysNone(s: State, drops: seq<PortIdentity>, bests: seq<Option<PortIdentity>>)
    requires CanDrop(s, drops, bests) && s.selected.None? && forall id :: id in s.table ==> !Qualified(s.table, id)
    ensures Dropped(s, drops, bests).selected.None?
    decreases |drops|
  {
    if drops != [] {
      var u := s.(table := s.table - {drops[0]});
      ElectsNone(u.table, bests[0]);
      AnnotatedSame(u.table, bests[0]);
      StaysNone(Reselect(u, bests[0]), drops[1..], bests[1..]);
    }
  }

  lemma {:induction false} DroppedSync(s: State, drops: seq<PortIdentity>, bests: seq<Option<PortIdentity>>)
    requires CanDrop(s, drops, bests) && s.servo.synced && s.selected.Some?
    ensures var t := Dropped(s, drops, bests); t.servo.synced <==> t.selected.Some?
    decreases |drops|
  {
    if drops != [] {
      var u := s.(table := s.table - {drops[0]});
      var v := Reselect(u, bests[0]);
      if bests[0].Some? {
        DroppedSync(v, drops[1..], bests[1..]);
      } else {
        ElectsNone(u.table, bests[0]);
        AnnotatedSame(u.table, bests[0]);
        StaysNone(v, drops[1..], bests[1..]);
        DroppedNotSynced(v, drops[1..], bests[1..]);
      }
    }
  }

  lemma {:induction false} DroppedNotSynced(s: State, drops: seq<PortIdentity>, bests: seq<Option<PortIdentity>>)
    requires CanDrop(s, drops, bests) && !s.servo.synced
    ensures !Dropped(s, drops, bests).servo.synced
    decreases |drops|
  {
    if drops != [] {
      DroppedNotSynced(Reselect(s.(table := s.table - {drops[0]}), bests[0]), drops[1..], bests[1..]);
    }
  }

  /** Synchronisation ends if and only if the last master goes, or the timer finds that the latest
      accepted Sync is more than 5 s old. */
  lemma SyncLostIff(r: Run, n: nat)
    requires IsRun(r) && n < |r.steps| && r.states[n].servo.synced
    ensures !r.states[n + 1].servo.synced
            <==> || r.states[n + 1].selected.None?
                 || (r.steps[n].Age? && r.steps[n].now - r.states[n].lastSync > SYNC_TIMEOUT_MS)
  {
    assert StepAt(r, n);
    TrackingAlways(r, n);
    if r.steps[n].Age? {
      DroppedRestarts(r.states[n], r.steps[n].drops, r.steps[n].bests);
      DroppedSync(r.states[n], r.steps[n].drops, r.steps[n].bests);
    }
  }

  // ---------------------------------------------------------------- the coupled servo

  /** True offset and path delay are constant, the path is symmetric and nothing is noisy. */
  ghost predicate IdealStep(s: State, step: Step, offset: int, path: int) {
    match step
    case Sync(clock, twoStep, _, origin, rx, _) =>
      AcceptsSync(s, clock) && !twoStep ==> Difference(origin, rx) == offset - path
    case FollowUp(clock, seqNo, origin) =>
      AcceptsFollowUp(s, clock, seqNo) ==> Difference(origin, s.syncRx) == offset - path
    case DelayResp(seqNo, received) =>
      seqNo == s.delaySeq ==> Difference(received, s.delayTx) == offset + path
    case _ => true
  }

  ghost predicate NearState(s: State, offset: int, path: int, bound: real) {
    Near(s.servo, offset as real, path as real, bound)
  }

  lemma {:induction false} DroppedNear(s: State, drops: seq<PortIdentity>, bests: seq<Option<PortIdentity>>,
                                       offset: int, path: int, bound: real)
    requires NearState(s, offset, path, bound) && CanDrop(s, drops, bests)
    ensures NearState(Dropped(s, drops, bests), offset, path, bound)
    decreases |drops|
  {
    if drops != [] {
      DroppedNear(Reselect(s.(table := s.table - {drops[0]}), bests[0]), drops[1..], bests[1..], offset, path, bound);
    }
  }

  lemma MeasuredNear(s: State, raw: int, offset: int, path: int, bound: real)
    requires NearState(s, offset, path, bound) && 0.0 <= path as real <= bound
    requires raw == offset - path
    ensures NearState(Measured(s, raw), offset, path, bound)
  {
    var x := raw as real + Correction(s.servo);
    SampleStaysNear(s.servo, x, offset as real, path as real, bound);
    assert Measured(s, raw).servo == AddSample(s.servo, x);
  }

  lemma DelayNear(sv: Servo, offset: int, path: int, bound: real)
    requires Near(sv, offset as real, path as real, bound)
    ensures Near(AddDelay(sv, (offset + path) as real), offset as real, path as real, bound)
  {
    assert (offset + path) as real == offset as real + path as real;
    DelayStaysNear(sv, offset as real, path as real, bound);
  }

  lemma NearStep(s: State, step: Step, offset: int, path: int, bound: real)
    requires Enabled(s, step) && IdealStep(s, step, offset, path)
    requires NearState(s, offset, path, bound) && 0.0 <= path as real <= bound
    ensures NearState(Apply(s, step), offset, path, bound)
  {
    match step
    case Age(now, drops, bests) => DroppedNear(s, drops, bests, offset, path, bound);
    case Sync(_, _, _, _, _, _) => SyncNear(s, step, offset, path, bound);
    case FollowUp(_, _, _) => FollowUpNear(s, step, offset, path, bound);
    case DelayResp(_, _) => DelayNear(s.servo, offset, path, bound);
    case _ =>
  }

  lemma SyncNear(s: State, step: Step, offset: int, path: int, bound: real)
    requires step.Sync? && IdealStep(s, step, offset, path)
    requires NearState(s, offset, path, bound) && 0.0 <= path as real <= bound
    ensures NearState(Apply(s, step), offset, path, bound)
  {
    if AcceptsSync(s, step.clock) && !step.twoStep {
      var raw := Difference(step.origin, step.rx);
      var t := s.(lastSync := step.now, syncSeq := step.seqNo, syncRx := step.rx, accepted := s.accepted + 1);
      MeasuredNear(t, raw, offset, path, bound);
      assert Apply(s, step) == Measured(t, raw);
    }
  }

  lemma FollowUpNear(s: State, step: Step, offset: int, path: int, bound: real)
    requires step.FollowUp? && IdealStep(s, step, offset, path)
    requires NearState(s, offset, path, bound) && 0.0 <= path as real <= bound
    ensures NearState(Apply(s, step), offset, path, bound)
  {
    if AcceptsFollowUp(s, step.clock, step.seqNo) {
      var raw := Difference(step.origin, s.syncRx);
      MeasuredNear(s.(awaiting := false), raw, offset, path, bound);
      assert Apply(s, step) == Measured(s.(awaiting := false), raw);
    }
  }

  /** The coupled loop never diverges: once offset, held delay and window are within a bound that
      is at least the path delay, they stay within it under every interleaving of Sync, Follow_Up,
      Delay_Resp, announces, time-outs and domain changes. */
  lemma {:induction false} NeverDiverges(r: Run, i: nat, n: nat, offset: int, path: int, bound: real)
    requires IsRun(r) && i <= n < |r.states|
    requires forall k :: i <= k < n ==> IdealStep(r.states[k], r.steps[k], offset, path)
    requires NearState(r.states[i], offset, path, bound) && 0.0 <= path as real <= bound
    ensures NearState(r.states[n], offset, path, bound)
    decreases n - i
  {
    if i < n {
      NeverDiverges(r, i, n - 1, offset, path, bound);
      assert StepAt(r, n - 1);
      NearStep(r.states[n - 1], r.steps[n - 1], offset, path, bound);
    }
  }
}
