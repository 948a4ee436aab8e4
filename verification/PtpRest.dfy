/** The servo's wrong rest points are reached by ordinary operation. */
module PtpRest {
  import opened Common
  import opened Bmca
  import opened Servo
  import opened PtpState
  import opened PtpElection
  import opened PtpPairing
  import ServoConverge

  /** m equal samples in the window, and the smoothed offset on them once there are enough. */
  ghost predicate Steady(sv: Servo, x: real, m: nat) {
    && |sv.window| == m && (forall i :: 0 <= i < m ==> sv.window[i] == x)
    && (m >= MIN_WINDOW ==> sv.synced && sv.smoothed == x)
    && (m < MIN_WINDOW ==> !sv.synced)
  }

  lemma SteadySample(sv: Servo, t: Servo, x: real, m: nat)
    requires Steady(sv, x, m) && m < MAX_WINDOW && SampleTo(sv, t, x)
    ensures Steady(t, x, m + 1) && t.delay == sv.delay && t.haveDelay == sv.haveDelay
  {
    var w := Pushed(sv, x);
    assert w == sv.window + [x];
    assert forall i :: 0 <= i < |w| ==> w[i] == x;
    MedianMember(w);
    assert Median(w) == x;
  }

  /** What a Sync at time 0 leaves alone. */
  ghost predicate SameButSamples(s: State, t: State) {
    && t.table == s.table && t.selected == s.selected && t.delaySeq == s.delaySeq && t.delayTx == s.delayTx
    && t.servo.delay == s.servo.delay && t.servo.haveDelay == s.servo.haveDelay
  }

  lemma SyncMeasured(s: State, rx: nat)
    requires s.selected.Some? && rx < 0x8000_0000_0000_0000
    ensures var t := SyncStep(s, s.selected.value.clock, false, 0, 0, rx, 0);
            && SampleTo(s.servo, t.servo, -(rx as real) + Correction(s.servo))
            && t == s.(servo := t.servo, lastSync := 0, syncSeq := 0, syncRx := rx, accepted := t.accepted,
                       syncCount := t.syncCount, since := t.since)
  {
    assert Difference(0, rx) == -(rx as int);
  }

  /** A one-step Sync over a path of `rx` ns between equal clocks. */
  lemma OneSync(r: Run, rx: nat, x: real, m: nat) returns (r': Run)
    requires IsRun(r) && Last(r).selected.Some? && rx < 0x8000_0000_0000_0000 && m < MAX_WINDOW
    requires Steady(Last(r).servo, x, m) && x == -(rx as real) + Correction(Last(r).servo)
    ensures IsRun(r') && SameButSamples(Last(r), Last(r')) && Steady(Last(r').servo, x, m + 1)
    ensures Last(r').lastSync == 0
  {
    var s := Last(r);
    r' := Go(r, Sync(s.selected.value.clock, false, 0, 0, rx, 0));
    SteadySync(s, Last(r'), rx, x, m);
  }

  lemma SteadySync(s: State, t: State, rx: nat, x: real, m: nat)
    requires s.selected.Some? && rx < 0x8000_0000_0000_0000 && m < MAX_WINDOW
    requires Steady(s.servo, x, m) && x == -(rx as real) + Correction(s.servo)
    requires t == SyncStep(s, s.selected.value.clock, false, 0, 0, rx, 0)
    ensures SameButSamples(s, t) && Steady(t.servo, x, m + 1) && t.lastSync == 0
  {
    SyncMeasured(s, rx);
    SteadySample(s.servo, t.servo, x, m);
  }

  lemma {:induction false} Syncs(r: Run, rx: nat, x: real, m: nat, n: nat) returns (r': Run)
    requires IsRun(r) && Last(r).selected.Some? && rx < 0x8000_0000_0000_0000 && m + n <= MAX_WINDOW
    requires Steady(Last(r).servo, x, m) && x == -(rx as real) + Correction(Last(r).servo)
    ensures IsRun(r') && SameButSamples(Last(r), Last(r')) && Steady(Last(r').servo, x, m + n)
    ensures n > 0 ==> Last(r').lastSync == 0
  {
    if n == 0 {
      r' := r;
    } else {
      var r1 := Syncs(r, rx, x, m, n - 1);
      r' := OneSync(r1, rx, x, m + n - 1);
    }
  }

  /** First over a path of 3 ms: the offset settles 3 ms low, and the first delay measured against
      it comes out as 6 ms. */
  lemma LongPath(ds: Dataset) returns (r: Run)
    ensures IsRun(r)
    ensures var s := Last(r);
            && s.selected == Some(ds.source) && s.table.Keys == {ds.source} && s.table[ds.source].lastSeen == 0
            && s.servo.synced && s.servo.haveDelay && s.servo.delay == 6000000.0 && s.lastSync == 0
  {
    var r0 := OneMaster(ds);
    var r1 := Syncs(r0, 3_000_000, -3000000.0, 0, 4);
    var r2 := Go(r1, DelayReq(0));
    assert Difference(3_000_000, 0) == 3_000_000;
    r := Go(r2, DelayResp(Last(r2).delaySeq, 3_000_000));
    assert Last(r).servo == AddDelay(Last(r2).servo, 3000000.0);
  }

  /** Then the Syncs pause for 5 s, which clears the window but keeps the delay. */
  lemma Paused(r: Run, ds: Dataset) returns (r': Run)
    requires IsRun(r)
    requires var s := Last(r);
             && s.selected == Some(ds.source) && s.table.Keys == {ds.source} && s.table[ds.source].lastSeen == 0
             && s.servo.synced && s.lastSync == 0
    ensures IsRun(r') && Last(r').selected == Last(r).selected && Steady(Last(r').servo, 5000000.0, 0)
    ensures Last(r').servo.delay == Last(r).servo.delay && Last(r').servo.haveDelay == Last(r).servo.haveDelay
  {
    var s := Last(r);
    assert forall id :: !Expired(s.table, 5001, id);
    assert CanDrop(s, [], []);
    r' := Go(r, Age(5001, [], []));
    assert Last(r') == SyncSilence(s, 5001);
  }

  /** And come back over a path of 1 ms: the servo rests 5 ms off, and every noise-free Sync and
      Delay_Resp from then on leaves it there. */
  lemma StuckRun(ds: Dataset) returns (r: Run)
    ensures IsRun(r)
    ensures Last(r).servo.haveDelay && AtRest(Last(r).servo, 0.0, 1000000.0)
    ensures Last(r).servo.smoothed == 5000000.0 && Last(r).servo.delay == 6000000.0
  {
    var r0 := LongPath(ds);
    var r1 := Paused(r0, ds);
    r := Syncs(r1, 1_000_000, 5000000.0, 0, 16);
    var sv := Last(r).servo;
    assert Constant(sv.window, sv.smoothed);
    assert RestPoint(sv, 0.0, 1000000.0);
    RestPoints(sv, 0.0, 1000000.0);
  }

  // ---------------------------------------------------------------- ideal steps are the servo's

  /** A Sync or Follow_Up that measures without noise is a noise-free Sync of ServoConverge. */
  lemma MeasuredIsNoiseFree(s: State, raw: int, offset: int, path: int)
    requires raw == offset - path && s.servo.haveDelay
    ensures ServoConverge.NoiseFreeSync(s.servo, Measured(s, raw).servo, offset as real, path as real)
  {
    assert raw as real == offset as real - path as real;
    assert raw as real + Correction(s.servo) == ServoConverge.Sample(s.servo, offset as real, path as real);
  }

  /** And a Delay_Resp that counts and measures without noise is the answer of its rounds. */
  lemma AnswerIsNoiseFree(s: State, seqNo: nat, received: nat, offset: int, path: int)
    requires seqNo == s.delaySeq && Difference(received, s.delayTx) == offset + path
    ensures DelayRespStep(s, seqNo, received).servo == AddDelay(s.servo, offset as real + path as real)
  {
    assert (offset + path) as real == offset as real + path as real;
  }
}
