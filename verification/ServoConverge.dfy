/**
  The noise-free servo does not only stay bounded, it converges: a round of Syncs, one Delay_Resp
  and Syncs again brings the offset, the path delay and the whole window closer to the truth by a
  tenth, starting anywhere within one path delay of it.
*/
module ServoConverge {
  import opened Servo

  /** Syncs that let the window fill with equal samples and the low-pass follow them. */
  const SETTLING: nat := 46

  /** What a noise-free Sync measures while the delay is held. */
  function Sample(sv: Servo, offset: real, path: real): real {
    offset - path + sv.delay
  }

  ghost predicate NoiseFreeSync(s: Servo, t: Servo, offset: real, path: real) {
    SampleTo(s, t, Sample(s, offset, path))
  }

  /** Successive servos with a noise-free Sync between each and the next. */
  ghost predicate Syncs(ss: seq<Servo>, offset: real, path: real) {
    |ss| > 0 && forall i, j :: 0 <= i && j == i + 1 < |ss| ==> NoiseFreeSync(ss[i], ss[j], offset, path)
  }

  /** A noise-free round: enough Syncs, a Delay_Resp, enough Syncs. */
  ghost predicate Round(s: Servo, t: Servo, offset: real, path: real) {
    exists before, after :: RoundOver(s, t, offset, path, before, after)
  }

  ghost predicate RoundOver(s: Servo, t: Servo, offset: real, path: real, before: seq<Servo>, after: seq<Servo>) {
    && Syncs(before, offset, path) && |before| > SETTLING && before[0] == s
    && Syncs(after, offset, path) && |after| > SETTLING && after[|after| - 1] == t
    && after[0] == AddDelay(before[|before| - 1], offset + path)
  }

  /** Where the argument starts: within `bound`, at most one path delay, of the truth. */
  ghost predicate Ready(sv: Servo, offset: real, path: real, bound: real) {
    && sv.haveDelay && |sv.window| <= MAX_WINDOW && Near(sv, offset, path, bound)
    && 0.0 <= bound <= path && 2.0 * path <= JUMP_NS
  }

  // ---------------------------------------------------------------- a tenth less, n times

  function Faded(bound: real, n: nat): real {
    if n == 0 then bound else 0.9 * Faded(bound, n - 1)
  }

  lemma {:induction false} FadedMore(bound: real, m: nat, n: nat)
    ensures Faded(bound, m + n) == Faded(Faded(bound, m), n)
  {
    if n > 0 {
      FadedMore(bound, m, n - 1);
    }
  }

  lemma {:induction false} FadedFalls(bound: real, n: nat)
    requires 0.0 <= bound
    ensures 0.0 <= Faded(bound, n) <= bound
  {
    if n > 0 {
      FadedFalls(bound, n - 1);
    }
  }

  lemma FadedFive(bound: real)
    ensures Faded(bound, 5) == 0.59049 * bound
  {
    assert Faded(bound, 1) == 0.9 * bound;
    assert Faded(bound, 2) == 0.81 * bound;
    assert Faded(bound, 3) == 0.729 * bound;
    assert Faded(bound, 4) == 0.6561 * bound;
  }

  lemma FadedTen(bound: real)
    requires 0.0 <= bound
    ensures 0.0 <= Faded(bound, 10) <= 0.3487 * bound
  {
    FadedFive(bound);
    FadedMore(bound, 5, 5);
    FadedFive(Faded(bound, 5));
  }

  /** 30 steps of a tenth leave less than a 22nd. */
  lemma FadedThirty(bound: real)
    requires 0.0 <= bound
    ensures 22.0 * Faded(bound, 30) <= bound
  {
    FadedTen(bound);
    FadedMore(bound, 10, 10);
    FadedTen(Faded(bound, 10));
    FadedMore(bound, 20, 10);
    FadedTen(Faded(bound, 20));
  }

  // ---------------------------------------------------------------- the window fills

  /** The last k samples, or all of them, are x; and there are k, or a full window. */
  ghost predicate Tail(w: seq<real>, x: real, k: nat) {
    && (k <= |w| || |w| == MAX_WINDOW)
    && forall i :: 0 <= i < |w| && |w| - k <= i ==> w[i] == x
  }

  lemma TailSync(s: Servo, t: Servo, x: real, k: nat)
    requires SampleTo(s, t, x) && |s.window| <= MAX_WINDOW && Tail(s.window, x, k) && Abs(x - s.smoothed) <= JUMP_NS
    ensures Tail(t.window, x, k + 1)
  {
    var w := s.window + [x];
    assert Pushed(s, x) == if |w| > MAX_WINDOW then w[1..] else w;
    assert t.window == Pushed(s, x);
  }

  /** Inside the bound no sample is taken for a jump. */
  lemma NoJump(x: real, y: real, offset: real, path: real, bound: real)
    requires Within(x, offset, bound) && Within(y, offset, bound) && bound <= path && 2.0 * path <= JUMP_NS
    ensures Abs(x - y) <= JUMP_NS && Abs(y - x) <= 2.0 * bound
  {
  }

  lemma SyncKeeps(s: Servo, t: Servo, x: real, offset: real, path: real, bound: real)
    requires SampleTo(s, t, x) && Ready(s, offset, path, bound) && Within(x, offset, bound)
    ensures Ready(t, offset, path, bound) && t.delay == s.delay
  {
    CloseSample(s, x, offset, path, bound);
  }

  lemma SampleClose(sv: Servo, offset: real, path: real, bound: real)
    requires Ready(sv, offset, path, bound)
    ensures Within(Sample(sv, offset, path), offset, bound)
  {
  }

  /** A noise-free Sync that measures what the batch before it measured. */
  lemma SyncMore(s: Servo, t: Servo, x: real, offset: real, path: real, bound: real, k: nat)
    requires NoiseFreeSync(s, t, offset, path) && Ready(s, offset, path, bound) && Tail(s.window, x, k)
    requires Sample(s, offset, path) == x
    ensures Ready(t, offset, path, bound) && Tail(t.window, x, k + 1) && Sample(t, offset, path) == x
  {
    SampleClose(s, offset, path, bound);
    SyncKeeps(s, t, x, offset, path, bound);
    NoJump(x, s.smoothed, offset, path, bound);
    TailSync(s, t, x, k);
  }

  /** What every batch of noise-free Syncs keeps. */
  lemma {:induction false} SyncsKeep(ss: seq<Servo>, offset: real, path: real, bound: real, n: nat)
    requires Syncs(ss, offset, path) && Ready(ss[0], offset, path, bound) && n < |ss|
    ensures Ready(ss[n], offset, path, bound) && Sample(ss[n], offset, path) == Sample(ss[0], offset, path)
    ensures Tail(ss[n].window, Sample(ss[0], offset, path), n)
  {
    if n > 0 {
      SyncsKeep(ss, offset, path, bound, n - 1);
      assert NoiseFreeSync(ss[n - 1], ss[n], offset, path);
      SyncMore(ss[n - 1], ss[n], Sample(ss[0], offset, path), offset, path, bound, n - 1);
    }
  }

  /** The window is full of x, and the offset is within `gap` of it. */
  ghost predicate Following(sv: Servo, x: real, gap: real) {
    Constant(sv.window, x) && sv.synced && Abs(sv.smoothed - x) <= gap
  }

  /** With the window full of x, the low-pass closes in on x by a tenth per Sync. */
  lemma FollowStep(s: Servo, t: Servo, x: real, gap: real)
    requires SampleTo(s, t, x) && Following(s, x, gap) && gap <= JUMP_NS
    ensures Following(t, x, 0.9 * gap)
  {
    var w := Pushed(s, x);
    assert w == s.window[1..] + [x];
    MedianMember(w);
    assert Median(w) == x;
  }

  lemma LongIsSynced(s: Servo, t: Servo, x: real)
    requires SampleTo(s, t, x) && |t.window| >= MIN_WINDOW
    ensures t.synced
  {
    assert t.window == Pushed(s, x);
  }

  lemma WindowFull(ss: seq<Servo>, offset: real, path: real, bound: real)
    requires Syncs(ss, offset, path) && Ready(ss[0], offset, path, bound) && |ss| > MAX_WINDOW
    ensures Following(ss[MAX_WINDOW], Sample(ss[0], offset, path), 2.0 * bound)
  {
    var n, x := MAX_WINDOW, Sample(ss[0], offset, path);
    SampleClose(ss[0], offset, path, bound);
    SyncsKeep(ss, offset, path, bound, n);
    SyncsKeep(ss, offset, path, bound, n - 1);
    assert NoiseFreeSync(ss[n - 1], ss[n], offset, path);
    LongIsSynced(ss[n - 1], ss[n], x);
    NoJump(x, ss[n].smoothed, offset, path, bound);
  }

  lemma {:induction false} Follows(ss: seq<Servo>, offset: real, path: real, bound: real, n: nat)
    requires Syncs(ss, offset, path) && Ready(ss[0], offset, path, bound) && MAX_WINDOW + n < |ss|
    ensures Following(ss[MAX_WINDOW + n], Sample(ss[0], offset, path), Faded(2.0 * bound, n))
  {
    if n == 0 {
      WindowFull(ss, offset, path, bound);
    } else {
      var k, x := MAX_WINDOW + n - 1, Sample(ss[0], offset, path);
      Follows(ss, offset, path, bound, n - 1);
      SyncsKeep(ss, offset, path, bound, k);
      assert NoiseFreeSync(ss[k], ss[k + 1], offset, path);
      FadedFalls(2.0 * bound, n - 1);
      FollowStep(ss[k], ss[k + 1], x, Faded(2.0 * bound, n - 1));
    }
  }

  lemma GapAfter(bound: real, m: nat)
    requires m >= 30 && 0.0 <= bound
    ensures 11.0 * Faded(2.0 * bound, m) <= bound
  {
    FadedThirty(2.0 * bound);
    FadedMore(2.0 * bound, 30, m - 30);
    FadedMore(2.0 * bound, 0, 30);
    FadedFalls(2.0 * bound, 30);
    FadedFalls(Faded(2.0 * bound, 30), m - 30);
  }

  lemma Wider(sv: Servo, x: real, gap: real, wider: real)
    requires Following(sv, x, gap) && gap <= wider
    ensures Following(sv, x, wider)
  {
  }

  /** After enough Syncs the offset lies within an eleventh of the bound of what they measure. */
  lemma Settles(ss: seq<Servo>, offset: real, path: real, bound: real)
    requires Syncs(ss, offset, path) && Ready(ss[0], offset, path, bound) && |ss| > SETTLING
    ensures var t := ss[|ss| - 1];
            && Ready(t, offset, path, bound) && Sample(t, offset, path) == Sample(ss[0], offset, path)
            && Following(t, Sample(ss[0], offset, path), bound / 11.0)
  {
    var n := |ss| - 1 - MAX_WINDOW;
    SyncsKeep(ss, offset, path, bound, |ss| - 1);
    Follows(ss, offset, path, bound, n);
    GapAfter(bound, n);
    Wider(ss[|ss| - 1], Sample(ss[0], offset, path), Faded(2.0 * bound, n), bound / 11.0);
  }

  // ---------------------------------------------------------------- one round

  /** The answer is accepted, and takes nearly a fifth off the error of the delay. */
  lemma Answered(s: Servo, t: Servo, offset: real, path: real, bound: real)
    requires Ready(s, offset, path, bound) && 11.0 * Abs(s.smoothed - Sample(s, offset, path)) <= bound
    requires t == AddDelay(s, offset + path)
    ensures Ready(t, offset, path, bound) && 110.0 * Abs(t.delay - path) <= 89.0 * bound
  {
    DelayStaysNear(s, offset, path, bound);
    var e, f := s.smoothed - offset, s.delay - path;
    assert t.delay - path == 0.9 * f - 0.1 * e;
    assert -bound <= 11.0 * (e - f) <= bound && -bound <= f <= bound;
  }

  /** A servo that follows its samples, with the delay within 89/110 of the bound, is within 9/10 of
      it altogether. */
  lemma Closed(t: Servo, y: real, offset: real, path: real, bound: real)
    requires Ready(t, offset, path, bound) && y == Sample(t, offset, path)
    requires Following(t, y, bound / 11.0) && 110.0 * Abs(t.delay - path) <= 89.0 * bound
    ensures Ready(t, offset, path, 0.9 * bound)
  {
    assert y - offset == t.delay - path;
    assert Within(y, offset, 0.9 * bound) && Within(t.smoothed, offset, 0.9 * bound);
  }

  /** One round brings everything closer to the truth by a tenth. */
  lemma RoundShrinks(s: Servo, t: Servo, offset: real, path: real, bound: real)
    requires Round(s, t, offset, path) && Ready(s, offset, path, bound)
    ensures Ready(t, offset, path, 0.9 * bound)
  {
    var before, after :| RoundOver(s, t, offset, path, before, after);
    Settles(before, offset, path, bound);
    Answered(before[|before| - 1], after[0], offset, path, bound);
    Settles(after, offset, path, bound);
    Closed(t, Sample(t, offset, path), offset, path, bound);
  }

  // ---------------------------------------------------------------- any number of rounds

  ghost predicate Rounds(ss: seq<Servo>, offset: real, path: real) {
    |ss| > 0 && forall i, j :: 0 <= i && j == i + 1 < |ss| ==> Round(ss[i], ss[j], offset, path)
  }

  /** After n rounds, however long each of them is, the bound has shrunk to (9/10)^n of itself. */
  lemma {:induction false} RoundsShrink(ss: seq<Servo>, offset: real, path: real, bound: real, n: nat)
    requires Rounds(ss, offset, path) && Ready(ss[0], offset, path, bound) && n < |ss|
    ensures Ready(ss[n], offset, path, Faded(bound, n))
  {
    if n > 0 {
      RoundsShrink(ss, offset, path, bound, n - 1);
      assert Round(ss[n - 1], ss[n], offset, path);
      RoundShrinks(ss[n - 1], ss[n], offset, path, Faded(bound, n - 1));
    }
  }

  /** Enough tenths take any bound below any tolerance: while it is above, each takes off at least
      a tenth of the tolerance. */
  lemma {:induction false} FadesBelow(bound: real, tolerance: real, k: nat) returns (n: nat)
    requires 0.0 <= bound && 0.0 < tolerance && bound <= tolerance + k as real * (0.1 * tolerance)
    ensures Faded(bound, n) <= tolerance
    decreases k
  {
    if bound <= tolerance {
      n := 0;
    } else {
      assert k > 0;
      assert k as real * (0.1 * tolerance) == (k - 1) as real * (0.1 * tolerance) + 0.1 * tolerance;
      var m := FadesBelow(0.9 * bound, tolerance, k - 1);
      n := 1 + m;
      FadedMore(bound, 1, m);
    }
  }

  lemma Enough(bound: real, tolerance: real) returns (n: nat)
    requires 0.0 <= bound && 0.0 < tolerance
    ensures Faded(bound, n) <= tolerance
  {
    var step := 0.1 * tolerance;
    var ratio := bound / step;
    assert ratio * step == bound;
    var k: nat := ratio.Floor + 1;
    assert k as real >= ratio;
    Product(k as real - ratio, step);
    assert k as real * step == ratio * step + (k as real - ratio) * step;
    n := FadesBelow(bound, tolerance, k);
  }

  lemma Product(a: real, b: real)
    requires a >= 0.0 && b >= 0.0
    ensures a * b >= 0.0
  {
  }

  /** Convergence: for every tolerance there is a number of rounds from which on the offset, the path
      delay and every sample are within it of the truth, however long the rounds are. */
  lemma Converges(offset: real, path: real, bound: real, tolerance: real) returns (n: nat)
    requires 0.0 <= bound && tolerance > 0.0
    ensures forall ss, m :: Rounds(ss, offset, path) && Ready(ss[0], offset, path, bound) && n <= m < |ss| ==>
              Near(ss[m], offset, path, tolerance)
  {
    n := Enough(bound, tolerance);
    forall ss: seq<Servo>, m: int | Rounds(ss, offset, path) && Ready(ss[0], offset, path, bound) && n <= m < |ss|
      ensures Near(ss[m], offset, path, tolerance)
    {
      RoundsShrink(ss, offset, path, bound, m);
      FadedFalls(bound, n);
      FadedMore(bound, n, m - n);
      FadedFalls(Faded(bound, n), m - n);
    }
  }
}
