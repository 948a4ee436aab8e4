/**
  The PtpClient object of src/ptp/ptpclient.cpp: table, selection, pairing and servo updated in
  place by message handlers and a timer. The object carries the run of PtpState it has made so
  far; every handler extends it by one step and hands on what the theorems about runs say of it.
*/
module PtpClient {
  import opened Common
  import opened Bmca
  import opened Servo
  import opened PtpState
  import opened PtpRuns
  import opened PtpElection
  import opened PtpTable
  import opened PtpPairing

  /** What holds in every state of a run: the servo and counting invariants; that the selected
      master is the best one if the table has a best one; and that the notes are true as well if the
      announced attributes in the table are consistent. */
  ghost predicate Promises(r: Run) {
    && (forall n {:trigger TrackingOk(r.states[n])} :: 0 <= n < |r.states| ==> TrackingOk(r.states[n]))
    && (forall n, best {:trigger BestOf(r.states[n].table, best)} :: 0 <= n < |r.states| ==>
          (BestOf(r.states[n].table, best) ==> best == r.states[n].selected))
    && (forall n {:trigger MasterOk(r.states[n])} :: 0 <= n < |r.states| && ConsistentTable(r.states[n].table) ==>
          MasterOk(r.states[n]))
  }

  lemma RunPromises(r: Run)
    requires IsRun(r)
    ensures Promises(r)
  {
    forall n | 0 <= n < |r.states|
      ensures TrackingOk(r.states[n])
    {
      TrackingAlways(r, n);
    }
    forall n, best | 0 <= n < |r.states| && BestOf(r.states[n].table, best)
      ensures best == r.states[n].selected
    {
      SelectedIsElected(r, n);
      BestIsElected(r.states[n].table, best, r.states[n].selected);
    }
    forall n | 0 <= n < |r.states| && ConsistentTable(r.states[n].table)
      ensures MasterOk(r.states[n])
    {
      SelectedIsBest(r, n);
    }
  }

  lemma Selected(r: Run)
    requires IsRun(r)
    ensures forall other :: BestOf(Last(r).table, other) ==> other == Last(r).selected
    ensures ConsistentTable(Last(r).table) ==> MasterOk(Last(r))
  {
    var n := |r.states| - 1;
    forall other | BestOf(Last(r).table, other)
      ensures other == Last(r).selected
    {
      SelectedIsElected(r, n);
      BestIsElected(Last(r).table, other, Last(r).selected);
    }
    if ConsistentTable(Last(r).table) {
      SelectedIsBest(r, n);
    }
  }

  lemma Announced(r: Run, id: PortIdentity)
    requires IsRun(r) && |r.steps| > 0 && From(r.steps[|r.steps| - 1], id)
    ensures id in Last(r).table
    ensures var t := r.states[|r.steps| - 1].table;
            Last(r).table[id].announces
            == (if id in t then t[id].announces else 0) + (if r.steps[|r.steps| - 1].net == 0 then 1 else 0)
  {
    AnnouncedData(r, |r.steps| - 1, id);
  }

  lemma Counted(r: Run)
    requires IsRun(r)
    ensures var s := Last(r);
            && s.syncCount + (if s.awaiting then 1 else 0) <= s.accepted
            && (s.servo.haveDelay ==> 0.0 <= s.servo.delay < MAX_DELAY_NS)
  {
    TrackingAlways(r, |r.states| - 1);
  }

  lemma ScanMore(t: Table, order: seq<PortIdentity>, id: PortIdentity)
    requires id in t && forall x :: x in order ==> x in t
    ensures var best := Scan(t, order);
            Scan(t, order + [id]) ==
            if Qualified(t, id) && (best.None? || CompareDatasets(t[id].dataset, t[best.value].dataset).result < 0)
            then Some(id) else best
  {
    assert (order + [id])[..|order|] == order;
  }

  /** The ageing loop appends erasures; PtpState.Dropped consumes them from the front. */
  lemma {:induction false} DropOneMore(s: State, drops: seq<PortIdentity>, bests: seq<Option<PortIdentity>>,
                                       id: PortIdentity, best: Option<PortIdentity>)
    requires CanDrop(s, drops, bests)
    requires var t := Dropped(s, drops, bests).table - {id};
             id in Dropped(s, drops, bests).table && Elects(t, best) && (best.Some? ==> best.value in t)
    ensures CanDrop(s, drops + [id], bests + [best])
    ensures var u := Dropped(s, drops, bests);
            Dropped(s, drops + [id], bests + [best]) == Reselect(u.(table := u.table - {id}), best)
    decreases |drops|
  {
    if drops == [] {
      assert drops + [id] == [id] && bests + [best] == [best];
      DropOne(s, id, best);
    } else {
      DropFirst(s, drops, bests);
      DropOneMore(Reselect(s.(table := s.table - {drops[0]}), bests[0]), drops[1..], bests[1..], id, best);
      var more, bests' := drops + [id], bests + [best];
      assert more[0] == drops[0] && more[1..] == drops[1..] + [id];
      assert bests'[0] == bests[0] && bests'[1..] == bests[1..] + [best];
      DropFirst(s, more, bests');
    }
  }

  lemma DropFirst(s: State, drops: seq<PortIdentity>, bests: seq<Option<PortIdentity>>)
    requires |drops| == |bests| > 0 && drops[0] in s.table && Elects(s.table - {drops[0]}, bests[0])
    requires bests[0].Some? ==> bests[0].value in s.table - {drops[0]}
    ensures var t := Reselect(s.(table := s.table - {drops[0]}), bests[0]);
            && (CanDrop(s, drops, bests) <==> CanDrop(t, drops[1..], bests[1..]))
            && (CanDrop(s, drops, bests) ==> Dropped(s, drops, bests) == Dropped(t, drops[1..], bests[1..]))
  {
  }

  lemma DropOne(s: State, id: PortIdentity, best: Option<PortIdentity>)
    requires id in s.table && Elects(s.table - {id}, best) && (best.Some? ==> best.value in s.table - {id})
    ensures CanDrop(s, [id], [best])
    ensures Dropped(s, [id], [best]) == Reselect(s.(table := s.table - {id}), best)
  {
    assert [id][1..] == [] && [best][1..] == [];
    var t := Reselect(s.(table := s.table - {id}), best);
    assert CanDrop(t, [], []) && Dropped(t, [], []) == t;
  }

  class PtpClient {
    var table: Table
    var selected: Option<PortIdentity>
    var awaiting: bool
    var syncSeq: nat
    var syncRx: nat
    var lastSync: int
    var syncCount: nat
    var delaySeq: nat
    var delayTx: nat
    var servo: Servo                     // window, smoothed offset, synced flag, path delay
    ghost var epoch: nat
    ghost var accepted: nat
    ghost var since: seq<real>
    ghost var run: Run

    ghost function Model(): State
      reads this
    {
      State(table, selected, awaiting, syncSeq, syncRx, lastSync, syncCount, delaySeq, delayTx,
            servo, epoch, accepted, since)
    }

    ghost predicate Valid()
      reads this
    {
      IsRun(run) && Last(run) == Model()
    }

    /** The run has grown by one step, and keeps its promises. */
    twostate predicate Took(step: Step)
      reads this
    {
      && Valid() && Enabled(old(Model()), step)
      && run.steps == old(run).steps + [step] && run.states == old(run).states + [Model()]
      && Promises(run)
    }

    /** The fields have moved from `before` by one step: extend the run. */
    ghost method Record(before: State, step: Step)
      requires IsRun(run) && Last(run) == before && Enabled(before, step) && Model() == Apply(before, step)
      modifies this`run
      ensures Valid() && run.steps == old(run).steps + [step] && run.states == old(run).states + [Model()]
              && Promises(run)
    {
      run := Go(run, step);
      RunPromises(run);
    }

    constructor ()
      ensures Valid() && Init(Model()) && run.steps == []
    {
      table, selected, awaiting := map[], None, false;
      syncSeq, syncRx, lastSync, syncCount, delaySeq, delayTx := 0, 0, 0, 0, 0, 0;
      servo := Servo([], 0.0, false, 0.0, false);
      epoch, accepted, since := 0, 0, [];
      run := Run([State(map[], None, false, 0, 0, 0, 0, 0, 0, Servo([], 0.0, false, 0.0, false), 0, 0, [])], []);
    }

    /** RunBmca's first loop, over the table in whatever order it is iterated. */
    method FindBest() returns (best: Option<PortIdentity>)
      ensures Elects(table, best) && (best.Some? ==> best.value in table)
    {
      best := None;
      var todo := table.Keys;
      ghost var order: seq<PortIdentity> := [];
      while todo != {}
        invariant todo <= table.Keys
        invariant forall id :: id in table.Keys <==> id in todo || id in order
        invariant forall id :: id in order ==> id !in todo
        invariant forall i, j :: 0 <= i < j < |order| ==> order[i] != order[j]
        invariant best == Scan(table, order)
        decreases |todo|
      {
        var id :| id in todo;
        ScanMore(table, order, id);
        if table[id].announces >= 2
           && (best.None? || CompareDatasets(table[id].dataset, table[best.value].dataset).result < 0) {
          best := Some(id);
        }
        todo := todo - {id};
        order := order + [id];
      }
      assert Enumerates(order, table.Keys);
    }

    /** RunBmca's second loop. */
    method Annotate(best: Option<PortIdentity>)
      requires best.Some? ==> best.value in table
      modifies this`table
      ensures table == Annotated(old(table), best)
    {
      var todo := table.Keys;
      ghost var before := table;
      while todo != {}
        invariant todo <= table.Keys == before.Keys
        invariant forall id :: id in before ==>
                    table[id] == if id in todo then before[id] else Annotated(before, best)[id]
        decreases |todo|
      {
        var id :| id in todo;
        assert table[id] == before[id];
        assert best.Some? ==> table[best.value].dataset == before[best.value].dataset;
        table := table[id := table[id].(selected := best == Some(id), note := NoteFor(table, best, id))];
        todo := todo - {id};
      }
    }

    method SwitchMaster(best: Option<PortIdentity>)
      modifies this`selected, this`awaiting, this`servo, this`epoch, this`since
      ensures Model() == Switched(old(Model()), best)
    {
      if best != selected {
        selected := best;
        awaiting := false;
        servo := servo.(haveDelay := false, window := []);
        epoch := epoch + 1;
        if best.None? {
          servo := servo.(synced := false);
          since := [];
        }
      }
    }

    method RunBmca() returns (best: Option<PortIdentity>)
      modifies this`table, this`selected, this`awaiting, this`servo, this`epoch, this`since
      ensures Elects(old(table), best) && (best.Some? ==> best.value in old(table))
      ensures Model() == Reselect(old(Model()), best)
    {
      best := FindBest();
      Annotate(best);
      SwitchMaster(best);
    }

    method HandleAnnounce(ds: Dataset, net: nat, now: int) returns (best: Option<PortIdentity>)
      requires Valid() && net < 2
      modifies this
      ensures Took(Announce(ds, net, now, best)) && selected == best
      ensures ds.source in table
      ensures var was := if ds.source in old(table) then old(table)[ds.source].announces else 0;
              table[ds.source].announces == was + (if net == 0 then 1 else 0)
      ensures forall other :: BestOf(table, other) ==> other == selected
      ensures ConsistentTable(table) ==> MasterOk(Model())
    {
      ghost var before := Model();
      StoreAnnounce(ds, net, now);
      best := RunBmca();
      Record(before, Announce(ds, net, now, best));
      Announced(run, ds.source);
      Selected(run);
    }

    method StoreAnnounce(ds: Dataset, net: nat, now: int)
      modifies this`table
      ensures table == Heard(old(table), ds, net, now)
    {
      var f := if ds.source in table then table[ds.source] else Foreign(ds, 0, 0, now, false, NoNote);
      if net == 0 {
        f := f.(announces := f.announces + 1, dataset := ds);
      } else {
        f := f.(blue := f.blue + 1);
        if f.announces == 0 {
          f := f.(dataset := ds);
        }
      }
      f := f.(lastSeen := now);
      table := table[ds.source := f];
    }

    method Erase(id: PortIdentity) returns (best: Option<PortIdentity>)
      requires id in table
      modifies this`table, this`selected, this`awaiting, this`servo, this`epoch, this`since
      ensures var t := old(table) - {id};
              && Elects(t, best) && (best.Some? ==> best.value in t)
              && Model() == Reselect(old(Model()).(table := t), best)
              && table.Keys == t.Keys && forall x :: x in table ==> table[x].lastSeen == old(table)[x].lastSeen
    {
      table := table - {id};
      best := RunBmca();
    }

    method CheckSyncSilence(now: int)
      modifies this`servo, this`since
      ensures Model() == SyncSilence(old(Model()), now)
    {
      if servo.synced && now - lastSync > SYNC_TIMEOUT_MS {
        servo := servo.(synced := false, window := []);
        since := [];
      }
    }

    /** The ageing loop: erase silent masters one by one. */
    method EraseSilent(now: int) returns (ghost drops: seq<PortIdentity>, ghost bests: seq<Option<PortIdentity>>)
      modifies this`table, this`selected, this`awaiting, this`servo, this`epoch, this`since
      ensures CanDrop(old(Model()), drops, bests) && Model() == Dropped(old(Model()), drops, bests)
      ensures forall id :: id in drops <==> Expired(old(table), now, id)
    {
      drops, bests := [], [];
      var todo := table.Keys;
      ghost var start := Model();
      while todo != {}
        invariant CanDrop(start, drops, bests) && Model() == Dropped(start, drops, bests)
        invariant todo <= table.Keys <= start.table.Keys
        invariant forall id :: id in table ==> table[id].lastSeen == start.table[id].lastSeen
        invariant forall id :: id in drops <==> id in start.table && id !in todo && Expired(start.table, now, id)
        decreases |todo|
      {
        var id :| id in todo;
        todo := todo - {id};
        if now - table[id].lastSeen > ANNOUNCE_TIMEOUT_MS {
          var best := Erase(id);
          DropOneMore(start, drops, bests, id, best);
          drops, bests := drops + [id], bests + [best];
        }
      }
    }

    /** The timer section. Sync is lost exactly with the last master or after 5 s without Syncs. */
    method AgeOut(now: int) returns (ghost drops: seq<PortIdentity>, ghost bests: seq<Option<PortIdentity>>)
      requires Valid()
      modifies this
      ensures Took(Age(now, drops, bests))
      ensures old(servo.synced) ==> (!servo.synced <==> selected.None? || now - old(lastSync) > SYNC_TIMEOUT_MS)
    {
      ghost var before := Model();
      drops, bests := EraseSilent(now);
      CheckSyncSilence(now);
      Record(before, Age(now, drops, bests));
      if old(servo.synced) {
        SyncLostIff(run, |run.steps| - 1);
      }
    }

    /** SetDomain for another domain: nothing is accepted until a master is selected again, and a
        Sync that was pending stays pending but can no longer be completed. */
    method ChangeDomain()
      requires Valid()
      modifies this
      ensures Took(SetDomain)
      ensures forall clock :: !AcceptsSync(Model(), clock)
      ensures forall clock, seqNo :: !AcceptsFollowUp(Model(), clock, seqNo)
      ensures awaiting == old(awaiting) && table == map[]
    {
      ghost var before := Model();
      table := map[];
      selected := None;
      servo := servo.(synced := false, haveDelay := false, window := []);
      epoch, since := epoch + 1, [];
      Record(before, SetDomain);
    }

    method AddOffsetSample(x: real)
      modifies this`servo
      ensures servo == AddSample(old(servo), x)
    {
      var window := servo.window;
      if |window| >= SETTLED && Abs(x - servo.smoothed) > JUMP_NS {
        window := [];
      }
      window := window + [x];
      if |window| > MAX_WINDOW {
        window := window[1..];
      }
      servo := servo.(window := window);
      if |window| >= MIN_WINDOW {
        var sorted := Sort(window);
        var median := sorted[|sorted| / 2];
        servo := servo.(smoothed := if servo.synced then servo.smoothed * 0.9 + median * 0.1 else median,
                        synced := true);
      }
    }

    /** CompleteMeasurement, given the raw master-to-slave difference. */
    method CompleteMeasurement(raw: int)
      modifies this`servo, this`syncCount, this`since
      ensures Model() == Measured(old(Model()), raw)
    {
      ghost var before := Model();
      var x := raw as real + Correction(servo);
      AddOffsetSample(x);
      assert Measured(before, raw).servo == servo;
      syncCount := syncCount + 1;
      since := since + [x];
    }

    /** A Sync of another clock changes nothing; an accepted one is measured at once or awaits its
        Follow_Up, and measurements never outnumber accepted Syncs. */
    method HandleSync(clock: ClockIdentity, twoStep: bool, seqNo: nat, origin: nat, rx: nat, now: int)
      requires Valid()
      modifies this
      ensures Took(Sync(clock, twoStep, seqNo, origin, rx, now))
      ensures !AcceptsSync(old(Model()), clock) ==> Model() == old(Model())
      ensures syncCount + (if awaiting then 1 else 0) <= accepted
    {
      ghost var before := Model();
      if selected.Some? && clock == selected.value.clock {
        AcceptSync(twoStep, seqNo, origin, rx, now);
      }
      Record(before, Sync(clock, twoStep, seqNo, origin, rx, now));
      Counted(run);
    }

    method AcceptSync(twoStep: bool, seqNo: nat, origin: nat, rx: nat, now: int)
      requires selected.Some?
      modifies this`lastSync, this`syncSeq, this`syncRx, this`accepted, this`awaiting, this`servo, this`syncCount,
               this`since
      ensures Model() == SyncStep(old(Model()), selected.value.clock, twoStep, seqNo, origin, rx, now)
    {
      lastSync := now;
      syncSeq := seqNo;
      syncRx := rx;
      accepted := accepted + 1;
      if twoStep {
        awaiting := true;
      } else {
        CompleteMeasurement(Difference(origin, rx));
      }
    }

    /** If it completes a measurement, then of the latest accepted Sync, with its number and clock. */
    method HandleFollowUp(clock: ClockIdentity, seqNo: nat, origin: nat)
      requires Valid()
      modifies this
      ensures Took(FollowUp(clock, seqNo, origin))
      ensures syncCount != old(syncCount) ==>
                exists k :: Pairs(run, |run.steps| - 1, k) && run.steps[k].seqNo == seqNo && run.steps[k].clock == clock
    {
      ghost var before := Model();
      if awaiting && selected.Some? && clock == selected.value.clock && seqNo == syncSeq {
        awaiting := false;
        CompleteMeasurement(Difference(origin, syncRx));
      }
      Record(before, FollowUp(clock, seqNo, origin));
      if syncCount != old(syncCount) {
        var k := SyncPairing(run, |run.steps| - 1);
      }
    }

    /** The number sent is how many requests there have been, modulo 2^16. */
    method SendDelayReq(tx: nat) returns (seqNo: nat)
      requires Valid()
      modifies this
      ensures Took(DelayReq(tx)) && seqNo == delaySeq == Requests(run.steps) % SEQ_RANGE
    {
      ghost var before := Model();
      delaySeq := (delaySeq + 1) % SEQ_RANGE;
      delayTx := tx;
      Record(before, DelayReq(tx));
      assert run.steps[..|run.steps|] == run.steps;
      ghost var k := LatestRequest(run, |run.steps|);
      return delaySeq;
    }

    /** Only the answer to the latest request moves the delay, and a held delay is below 100 ms. */
    method HandleDelayResp(seqNo: nat, received: nat)
      requires Valid()
      modifies this
      ensures Took(DelayResp(seqNo, received))
      ensures servo != old(servo) ==> seqNo == Requests(old(run).steps) % SEQ_RANGE
      ensures servo.haveDelay ==> 0.0 <= servo.delay < MAX_DELAY_NS
    {
      ghost var before := Model();
      if seqNo == delaySeq {
        var d := Difference(received, delayTx) as real - servo.smoothed;
        if d >= 0.0 && d < MAX_DELAY_NS {
          servo := servo.(delay := if servo.haveDelay then servo.delay * 0.9 + d * 0.1 else d, haveDelay := true);
        }
      }
      Record(before, DelayResp(seqNo, received));
      Counted(run);
      assert run.steps[..|run.steps| - 1] == old(run).steps;
      ghost var k := DelayPairing(run, |run.steps| - 1);
    }
  }
}
