/** Which messages a measurement combines: Sync with Follow_Up, Delay_Req with Delay_Resp. */
module PtpPairing {
  import opened Common
  import opened Bmca
  import opened Servo
  import opened PtpState
  import opened PtpRuns
  import opened PtpElection

  // ---------------------------------------------------------------- Sync and Follow_Up

  ghost predicate AcceptsSyncAt(r: Run, i: int)
    requires IsRun(r) && 0 <= i < |r.steps|
  {
    r.steps[i].Sync? && AcceptsSync(r.states[i], r.steps[i].clock)
  }

  /** A step that leaves the flag up and accepts no Sync also leaves the recorded Sync and, unless
      it drops the master altogether, the selection alone. */
  lemma StillAwaiting(s: State, step: Step)
    requires Enabled(s, step) && Apply(s, step).awaiting && Apply(s, step).selected.Some?
    requires !(step.Sync? && AcceptsSync(s, step.clock))
    ensures var t := Apply(s, step);
            && s.awaiting && t.selected == s.selected && t.epoch == s.epoch
            && t.syncSeq == s.syncSeq && t.syncRx == s.syncRx
  {
    if step.Age? {
      DroppedRestarts(s, step.drops, step.bests);
    }
  }

  /** What a raised flag refers to: the latest accepted Sync, accepted under the present selection. */
  lemma {:induction false} AwaitingMeans(r: Run, n: nat) returns (k: nat)
    requires IsRun(r) && n < |r.states| && r.states[n].awaiting && r.states[n].selected.Some?
    ensures k < n && AcceptsSyncAt(r, k)
    ensures r.steps[k].seqNo == r.states[n].syncSeq && r.steps[k].rx == r.states[n].syncRx
    ensures r.steps[k].clock == r.states[n].selected.value.clock
    ensures forall i :: k < i < n ==> !AcceptsSyncAt(r, i)
    ensures forall i :: k <= i <= n ==>
              r.states[i].selected == r.states[n].selected && r.states[i].epoch == r.states[n].epoch
    ensures forall i :: k < i <= n ==> r.states[i].awaiting
  {
    assert n > 0;
    assert StepAt(r, n - 1);
    if AcceptsSyncAt(r, n - 1) {
      k := n - 1;
    } else {
      StillAwaiting(r.states[n - 1], r.steps[n - 1]);
      k := AwaitingMeans(r, n - 1);
    }
  }

  ghost predicate Completes(r: Run, n: int)
    requires IsRun(r) && 0 <= n < |r.steps|
  {
    r.steps[n].FollowUp? && r.states[n + 1].syncCount != r.states[n].syncCount
  }

  /** The Follow_Up at n completes a measurement of the Sync at k, the latest accepted one. */
  ghost predicate Pairs(r: Run, n: int, k: int)
    requires IsRun(r) && 0 <= n < |r.steps|
  {
    && Completes(r, n) && 0 <= k < n && AcceptsSyncAt(r, k)
    && forall i :: k < i < n ==> !AcceptsSyncAt(r, i)
  }

  /** Every Follow_Up that completes a measurement is combined with the receive time of the latest
      accepted Sync, which carries the same sequence number and clock identity and was accepted
      since the current master was selected. That Sync was measured before exactly if it was a
      one-step Sync, and then a two-step Sync was already pending when it came. */
  lemma SyncPairing(r: Run, n: nat) returns (k: nat)
    requires IsRun(r) && n < |r.steps| && Completes(r, n)
    ensures Pairs(r, n, k)
    ensures r.steps[k].seqNo == r.steps[n].seqNo && r.steps[k].clock == r.steps[n].clock
    ensures forall i :: k <= i <= n ==>
              r.states[i].selected == r.states[n].selected && r.states[i].epoch == r.states[n].epoch
    ensures var x := Difference(r.steps[n].origin, r.steps[k].rx) as real + Correction(r.states[n].servo);
            r.states[n + 1].since == r.states[n].since + [x]
    ensures r.states[k + 1].syncCount == r.states[k].syncCount + 1 <==> !r.steps[k].twoStep
    ensures !r.steps[k].twoStep ==> r.states[k].awaiting
  {
    CompletesMeans(r, n);
    k := AwaitingMeans(r, n);
    AcceptedSync(r, k);
  }

  lemma CompletesMeans(r: Run, n: nat)
    requires IsRun(r) && n < |r.steps| && Completes(r, n)
    ensures var s, step := r.states[n], r.steps[n];
            && AcceptsFollowUp(s, step.clock, step.seqNo)
            && r.states[n + 1].since == s.since + [Difference(step.origin, s.syncRx) as real + Correction(s.servo)]
  {
    assert StepAt(r, n);
    var s, step := r.states[n], r.steps[n];
    assert r.states[n + 1] == FollowUpStep(s, step.clock, step.seqNo, step.origin);
  }

  /** A one-step Sync is measured at once and leaves the flag as it is; a two-step one waits. */
  lemma AcceptedSync(r: Run, k: nat)
    requires IsRun(r) && k < |r.steps| && AcceptsSyncAt(r, k)
    ensures r.states[k + 1].syncCount == r.states[k].syncCount + (if r.steps[k].twoStep then 0 else 1)
    ensures r.states[k + 1].awaiting == (r.steps[k].twoStep || r.states[k].awaiting)
  {
    assert StepAt(r, k);
    var s, step := r.states[k], r.steps[k];
    assert r.states[k + 1] == SyncStep(s, step.clock, step.twoStep, step.seqNo, step.origin, step.rx, step.now);
  }

  ghost predicate Extends(r': Run, r: Run) {
    IsRun(r') && r.states <= r'.states && r.steps <= r'.steps
  }

  /** Step n of a continuation measures the Sync that r ends with. */
  ghost predicate MeasuresLast(r: Run, r': Run, n: int) {
    Extends(r', r) && |r.steps| > 0 && 0 <= n < |r'.steps| && Pairs(r', n, |r.steps| - 1)
  }

  lemma SameAcceptance(r: Run, r': Run, k: nat)
    requires IsRun(r) && Extends(r', r) && k < |r.steps|
    ensures r'.states[k] == r.states[k] && r'.steps[k] == r.steps[k]
    ensures AcceptsSyncAt(r', k) <==> AcceptsSyncAt(r, k)
  {
  }

  /** A one-step Sync is measured on acceptance. It can be measured a second time, by a Follow_Up
      in some continuation, if and only if a two-step Sync was pending when it was accepted. */
  lemma MeasuredTwiceIff(r: Run)
    requires IsRun(r) && |r.steps| > 0
    requires AcceptsSyncAt(r, |r.steps| - 1) && !r.steps[|r.steps| - 1].twoStep
    ensures (exists r', n :: MeasuresLast(r, r', n)) <==> r.states[|r.steps| - 1].awaiting
  {
    var k := |r.steps| - 1;
    if r', n :| MeasuresLast(r, r', n) {
      var k' := SyncPairing(r', n);
      SameAcceptance(r, r', k);
      assert k' == k;
    }
    if r.states[k].awaiting {
      var r' := FollowUpTo(r);
      assert MeasuresLast(r, r', k + 1);
    }
  }

  lemma FollowUpTo(r: Run) returns (r': Run)
    requires IsRun(r) && |r.steps| > 0
    requires var k := |r.steps| - 1; AcceptsSyncAt(r, k) && !r.steps[k].twoStep && r.states[k].awaiting
    ensures Extends(r', r) && |r'.steps| == |r.steps| + 1 && Pairs(r', |r.steps|, |r.steps| - 1)
  {
    var k := |r.steps| - 1;
    assert StepAt(r, k);
    var s := r.states[k];
    var step := r.steps[k];
    var t := s.(lastSync := step.now, syncSeq := step.seqNo, syncRx := step.rx, accepted := s.accepted + 1);
    assert Last(r) == Measured(t, Difference(step.origin, step.rx));
    r' := Go(r, FollowUp(step.clock, step.seqNo, step.origin));
    assert r'.states[k + 1] == Last(r);
    SameAcceptance(r, r', k);
  }

  /** A master known for long enough to be selected, at time 0. */
  lemma OneMaster(ds: Dataset) returns (r: Run)
    ensures IsRun(r) && |r.steps| == 2
    ensures var s := Last(r);
            && s.selected == Some(ds.source) && s.table.Keys == {ds.source} && s.table[ds.source].lastSeen == 0
            && s.servo.window == [] && !s.servo.synced && !s.servo.haveDelay && s.servo.smoothed == 0.0
            && s.delaySeq == 0
            && s.table[ds.source].announces == 2 && s.table[ds.source].dataset == ds
            && !s.awaiting && s.syncCount == 0
  {
    var r0 := Start();
    var r1 := Hear(r0, ds, 0);
    var t := Heard(Last(r1).table, ds, 0, 0);
    r := Hear(r1, ds, 0);
    assert Qualified(t, ds.source) && t.Keys == {ds.source};
    ElectsNone(t, Last(r).selected);
  }

  /** From the start: a two-step Sync, a one-step Sync, and a Follow_Up that repeats the latter's
      number. Two measurements are counted, both of the second Sync; the first is never measured. */
  lemma MeasuredTwice(ds: Dataset) returns (r: Run)
    ensures IsRun(r) && |r.steps| == 5 && Last(r).syncCount == 2
    ensures AcceptsSyncAt(r, 3) && !r.steps[3].twoStep && r.states[4].syncCount == 1
    ensures Pairs(r, 4, 3)
  {
    var r0 := OneMaster(ds);
    var r1 := Go(r0, Sync(ds.source.clock, true, 1, 0, 0, 0));
    var r2 := Go(r1, Sync(ds.source.clock, false, 2, 0, 0, 0));
    assert r2.states[3] == Last(r1);
    r := FollowUpTo(r2);
    SameAcceptance(r2, r, 3);
    assert StepAt(r, 4);
  }

  /** A Sync in plain words. One that is not the selected master's changes nothing; any other is
      remembered by its time, number and receive time, and either raises the flag or is measured. */
  lemma SyncMeans(r: Run, k: nat)
    requires IsRun(r) && k < |r.steps| && r.steps[k].Sync?
    ensures var s, t, step := r.states[k], r.states[k + 1], r.steps[k];
            if s.selected.None? || s.selected.value.clock != step.clock then t == s
            else
              var x := Difference(step.origin, step.rx) as real + (if s.servo.haveDelay then s.servo.delay else 0.0);
              && t.lastSync == step.now && t.syncSeq == step.seqNo && t.syncRx == step.rx
              && t.awaiting == (s.awaiting || step.twoStep)
              && t.syncCount == s.syncCount + (if step.twoStep then 0 else 1)
              && t.servo == (if step.twoStep then s.servo else AddSample(s.servo, x))
              && t.table == s.table && t.selected == s.selected && t.delaySeq == s.delaySeq && t.delayTx == s.delayTx
  {
    assert StepAt(r, k);
  }

  /** A Follow_Up in plain words: measured if a Sync is pending and clock and number are its own, and
      then nothing is pending any more; otherwise nothing changes. */
  lemma FollowUpMeans(r: Run, k: nat)
    requires IsRun(r) && k < |r.steps| && r.steps[k].FollowUp?
    ensures var s, t, step := r.states[k], r.states[k + 1], r.steps[k];
            if s.awaiting && s.selected.Some? && s.selected.value.clock == step.clock && s.syncSeq == step.seqNo
            then
              var x := Difference(step.origin, s.syncRx) as real + (if s.servo.haveDelay then s.servo.delay else 0.0);
              && !t.awaiting && t.syncCount == s.syncCount + 1 && t.servo == AddSample(s.servo, x)
              && t.lastSync == s.lastSync && t.syncSeq == s.syncSeq && t.syncRx == s.syncRx
              && t.table == s.table && t.selected == s.selected && t.delaySeq == s.delaySeq && t.delayTx == s.delayTx
            else t == s
  {
    assert StepAt(r, k);
  }

  /** The time difference is the signed 64-bit one: a - b, modulo 2^64, nearest to zero. */
  lemma DifferenceMeans(a: nat, b: nat)
    ensures -0x8000_0000_0000_0000 <= Difference(a, b) < 0x8000_0000_0000_0000
    ensures (a - b - Difference(a, b)) % 0x1_0000_0000_0000_0000 == 0
    ensures -0x8000_0000_0000_0000 <= a - b < 0x8000_0000_0000_0000 ==> Difference(a, b) == a - b
  {
  }

  lemma LastSyncKept(s: State, step: Step)
    requires Enabled(s, step) && !(step.Sync? && AcceptsSync(s, step.clock))
    ensures Apply(s, step).lastSync == s.lastSync && Apply(s, step).accepted == s.accepted
  {
    if step.Age? {
      DroppedRestarts(s, step.drops, step.bests);
      DroppedAccepted(s, step.drops, step.bests);
    }
  }

  lemma {:induction false} DroppedAccepted(s: State, drops: seq<PortIdentity>, bests: seq<Option<PortIdentity>>)
    requires CanDrop(s, drops, bests)
    ensures Dropped(s, drops, bests).accepted == s.accepted
    decreases |drops|
  {
    if drops != [] {
      DroppedAccepted(Reselect(s.(table := s.table - {drops[0]}), bests[0]), drops[1..], bests[1..]);
    }
  }

  /** One- or two-step, every accepted Sync is remembered by its time. */
  lemma SyncRemembered(r: Run, k: nat)
    requires IsRun(r) && k < |r.steps| && AcceptsSyncAt(r, k)
    ensures r.states[k + 1].lastSync == r.steps[k].now && r.states[k + 1].accepted == r.states[k].accepted + 1
  {
    assert StepAt(r, k);
  }

  /** The remembered time is that of the latest accepted Sync. */
  lemma {:induction false} LastSyncMeans(r: Run, n: nat) returns (k: nat)
    requires IsRun(r) && n < |r.states| && r.states[n].accepted > 0
    ensures k < n && AcceptsSyncAt(r, k) && r.states[n].lastSync == r.steps[k].now
    ensures forall i :: k < i < n ==> !AcceptsSyncAt(r, i)
  {
    assert n > 0;
    assert StepAt(r, n - 1);
    if AcceptsSyncAt(r, n - 1) {
      k := n - 1;
      SyncRemembered(r, k);
    } else {
      LastSyncKept(r.states[n - 1], r.steps[n - 1]);
      k := LastSyncMeans(r, n - 1);
    }
  }

  /** A synchronised client loses sync at a step if and only if it then has no master, or the step is
      the timer's and the latest accepted Sync, one- or two-step, is more than 5 s old. */
  lemma SyncLostAfterSilence(r: Run, n: nat) returns (k: nat)
    requires IsRun(r) && n < |r.steps| && r.states[n].servo.synced
    ensures k < n && AcceptsSyncAt(r, k) && forall i :: k < i < n ==> !AcceptsSyncAt(r, i)
    ensures !r.states[n + 1].servo.synced
            <==> r.states[n + 1].selected.None? || (r.steps[n].Age? && r.steps[n].now - r.steps[k].now > 5000)
  {
    TrackingAlways(r, n);
    SyncLostIff(r, n);
    assert |r.states[n].since| > 0;
    k := LastSyncMeans(r, n);
  }

  // ---------------------------------------------------------------- Delay_Req and Delay_Resp

  function Requests(steps: seq<Step>): nat {
    if steps == [] then 0
    else Requests(steps[..|steps| - 1]) + (if steps[|steps| - 1].DelayReq? then 1 else 0)
  }

  lemma {:induction false} DroppedDelay(s: State, drops: seq<PortIdentity>, bests: seq<Option<PortIdentity>>)
    requires CanDrop(s, drops, bests)
    ensures Dropped(s, drops, bests).delaySeq == s.delaySeq && Dropped(s, drops, bests).delayTx == s.delayTx
    decreases |drops|
  {
    if drops != [] {
      DroppedDelay(Reselect(s.(table := s.table - {drops[0]}), bests[0]), drops[1..], bests[1..]);
    }
  }

  lemma DelayKept(s: State, step: Step)
    requires Enabled(s, step) && !step.DelayReq?
    ensures Apply(s, step).delaySeq == s.delaySeq && Apply(s, step).delayTx == s.delayTx
  {
    if step.Age? {
      DroppedDelay(s, step.drops, step.bests);
    }
  }

  /** The client remembers the number and the transmit time of its latest request. */
  lemma {:induction false} LatestRequest(r: Run, n: nat) returns (k: int)
    requires IsRun(r) && n < |r.states|
    ensures -1 <= k < n && forall i :: k < i < n ==> !r.steps[i].DelayReq?
    ensures if k < 0 then r.states[n].delayTx == 0 else r.steps[k].DelayReq? && r.states[n].delayTx == r.steps[k].tx
    ensures r.states[n].delaySeq == Requests(r.steps[..n]) % SEQ_RANGE
  {
    if n == 0 {
      k := -1;
    } else {
      assert StepAt(r, n - 1);
      k := LatestRequest(r, n - 1);
      assert r.steps[..n][..n - 1] == r.steps[..n - 1];
      if r.steps[n - 1].DelayReq? {
        k := n - 1;
      } else {
        DelayKept(r.states[n - 1], r.steps[n - 1]);
      }
    }
  }

  /** A response counts if and only if it carries the number of the latest request, modulo 2^16;
      it is then measured against that request's transmit time and no other. */
  lemma DelayPairing(r: Run, n: nat) returns (k: int)
    requires IsRun(r) && n < |r.steps| && r.steps[n].DelayResp?
    ensures -1 <= k < n && forall i :: k < i < n ==> !r.steps[i].DelayReq?
    ensures k >= 0 ==> r.steps[k].DelayReq?
    ensures r.states[n + 1].servo ==
            if r.steps[n].seqNo == Requests(r.steps[..n]) % SEQ_RANGE
            then AddDelay(r.states[n].servo,
                          Difference(r.steps[n].received, if k < 0 then 0 else r.steps[k].tx) as real)
            else r.states[n].servo
  {
    assert StepAt(r, n);
    k := LatestRequest(r, n);
  }

  // ---------------------------------------------------------------- whose delay it is

  lemma EpochStep(s: State, step: Step)
    requires Enabled(s, step)
    ensures Apply(s, step).epoch >= s.epoch
    ensures Apply(s, step).epoch == s.epoch ==> Apply(s, step).selected == s.selected
  {
    if step.Age? {
      DroppedRestarts(s, step.drops, step.bests);
    }
  }

  /** From state b on the selection is the one of state n, and before it was made anew. */
  ghost predicate SelectedSince(r: Run, n: int, b: int)
    requires 0 <= b <= n < |r.states|
  {
    && (forall m :: b <= m <= n ==>
          r.states[m].epoch == r.states[n].epoch && r.states[m].selected == r.states[n].selected)
    && (forall m :: 0 <= m < b ==> r.states[m].epoch < r.states[n].epoch)
  }

  lemma {:induction false} SelectionStart(r: Run, n: nat) returns (b: nat)
    requires IsRun(r) && n < |r.states|
    ensures b <= n && SelectedSince(r, n, b)
  {
    if n == 0 {
      b := 0;
    } else {
      assert StepAt(r, n - 1);
      EpochStep(r.states[n - 1], r.steps[n - 1]);
      b := SelectionStart(r, n - 1);
      if r.states[n].epoch != r.states[n - 1].epoch {
        b := n;
      }
    }
  }

  /** The responder is not compared with the selected master, and a change of master keeps the
      number of the latest request: a response that counts was asked for under the present selection
      if and only if the latest request was sent since that selection was made. */
  lemma DelayOwnIff(r: Run, n: nat) returns (k: int, b: nat)
    requires IsRun(r) && n < |r.steps| && r.steps[n].DelayResp?
    requires r.steps[n].seqNo == Requests(r.steps[..n]) % SEQ_RANGE
    ensures -1 <= k < n && (forall i :: k < i < n ==> !r.steps[i].DelayReq?) && b <= n && SelectedSince(r, n, b)
    ensures k >= 0 ==> r.steps[k].DelayReq? && (r.states[k].epoch == r.states[n].epoch <==> k >= b)
    ensures r.states[n + 1].servo
            == AddDelay(r.states[n].servo, Difference(r.steps[n].received, if k < 0 then 0 else r.steps[k].tx) as real)
  {
    k := DelayPairing(r, n);
    b := SelectionStart(r, n);
  }

  lemma FirstDelay(r: Run) returns (r': Run)
    requires IsRun(r) && !Last(r).servo.haveDelay && Last(r).servo.smoothed == 0.0
    requires Last(r).delaySeq == 1 && Last(r).delayTx == 0
    ensures IsRun(r') && r.states <= r'.states && r'.steps == r.steps + [DelayResp(1, 5)]
    ensures Last(r').servo.haveDelay && Last(r').servo.delay == 5.0
  {
    assert Difference(5, 0) == 5;
    r' := Go(r, DelayResp(1, 5));
  }

  lemma BetterSelected(r: Run, first: Dataset, better: Dataset)
    requires IsRun(r) && first.source != better.source && CompareDatasets(better, first).result < 0
    requires var t := Last(r).table;
             && t.Keys == {first.source, better.source} && Qualified(t, first.source) && Qualified(t, better.source)
             && t[first.source].dataset == first && t[better.source].dataset == better
    ensures Last(r).selected == Some(better.source)
  {
    SelectedIsElected(r, |r.states| - 1);
    assert Beats(Last(r).table, better.source, first.source);
    BestIsElected(Last(r).table, Some(better.source), Last(r).selected);
  }

  /** And that does happen: a request to one master, a better master comes up and is selected, and
      the old master's answer becomes the first path delay held for the new one. */
  lemma OldMastersDelay(first: Dataset, better: Dataset) returns (r: Run)
    requires first.source != better.source && CompareDatasets(better, first).result < 0
    ensures IsRun(r) && |r.steps| == 6 && r.steps[2].DelayReq? && r.steps[5].DelayResp?
    ensures r.states[2].selected == Some(first.source) && r.states[5].selected == Some(better.source)
    ensures !r.states[5].servo.haveDelay && Last(r).servo.haveDelay && Last(r).servo.delay == 5.0
  {
    var r0 := OneMaster(first);
    var r1 := Go(r0, DelayReq(0));
    var r2 := HearTwice(r1, better, 0);
    BetterSelected(r2, first, better);
    r := FirstDelay(r2);
    assert r.states[2] == Last(r0) && r.states[5] == Last(r2);
  }
}
