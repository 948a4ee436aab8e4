/**
  The clock servo of src/ptp/ptpclient.cpp: a median over at most 16 offset samples, a low-pass
  over the medians, and a low-pass path-delay estimate that feeds back into the samples. Doubles
  are modelled as reals.
*/
module Servo {

  const MAX_WINDOW: nat := 16
  const SETTLED: nat := 8
  const MIN_WINDOW: nat := 4
  const JUMP_NS: real := 50000000.0
  const MAX_DELAY_NS: real := 100000000.0

  datatype Servo = Servo(window: seq<real>, smoothed: real, synced: bool, delay: real, haveDelay: bool)

  function Abs(x: real): real {
    if x < 0.0 then -x else x
  }

  // ---------------------------------------------------------------- median

  ghost predicate Sorted(s: seq<real>) {
    forall i, j :: 0 <= i < j < |s| ==> s[i] <= s[j]
  }

  function Insert(x: real, s: seq<real>): (r: seq<real>)
    ensures |r| == |s| + 1
  {
    if s == [] || x <= s[0] then [x] + s else [s[0]] + Insert(x, s[1..])
  }

  function Sort(s: seq<real>): (r: seq<real>)
    ensures |r| == |s|
  {
    if s == [] then [] else Insert(s[0], Sort(s[1..]))
  }

  lemma {:induction false} InsertMember(x: real, s: seq<real>, y: real)
    requires y in Insert(x, s)
    ensures y == x || y in s
  {
    if s != [] && x > s[0] && y != s[0] {
      InsertMember(x, s[1..], y);
    }
  }

  lemma {:induction false} SortMember(s: seq<real>, y: real)
    requires y in Sort(s)
    ensures y in s
  {
    if s != [] {
      InsertMember(s[0], Sort(s[1..]), y);
      if y != s[0] {
        SortMember(s[1..], y);
      }
    }
  }

  lemma {:induction false} InsertSorted(x: real, s: seq<real>)
    requires Sorted(s)
    ensures Sorted(Insert(x, s))
  {
    if s != [] && x > s[0] {
      InsertSorted(x, s[1..]);
      var r := Insert(x, s[1..]);
      forall j | 0 <= j < |r|
        ensures s[0] <= r[j]
      {
        InsertMember(x, s[1..], r[j]);
      }
    }
  }

  lemma {:induction false} SortSorted(s: seq<real>)
    ensures Sorted(Sort(s))
  {
    if s != [] {
      SortSorted(s[1..]);
      InsertSorted(s[0], Sort(s[1..]));
    }
  }

  function Median(w: seq<real>): real
    requires |w| > 0
  {
    Sort(w)[|w| / 2]
  }

  lemma MedianMember(w: seq<real>)
    requires |w| > 0
    ensures Median(w) in w
  {
    SortMember(w, Median(w));
  }

  /** How many samples are at most (`below`) or at least (`!below`) m. */
  function Count(s: seq<real>, m: real, below: bool): nat {
    if s == [] then 0
    else Count(s[1..], m, below) + (if (if below then s[0] <= m else s[0] >= m) then 1 else 0)
  }

  lemma {:induction false} InsertCount(x: real, s: seq<real>, m: real, below: bool)
    ensures Count(Insert(x, s), m, below) == Count([x] + s, m, below)
  {
    assert ([x] + s)[1..] == s;
    if s != [] && x > s[0] {
      InsertCount(x, s[1..], m, below);
      assert ([x] + s[1..])[1..] == s[1..];
      assert Insert(x, s)[1..] == Insert(x, s[1..]);
    }
  }

  /** Sorting rearranges: it changes no rank of any value. */
  lemma {:induction false} SortCount(s: seq<real>, m: real, below: bool)
    ensures Count(Sort(s), m, below) == Count(s, m, below)
  {
    if s != [] {
      SortCount(s[1..], m, below);
      InsertCount(s[0], Sort(s[1..]), m, below);
      assert ([s[0]] + Sort(s[1..]))[1..] == Sort(s[1..]);
    }
  }

  lemma {:induction false} CountConcat(s: seq<real>, t: seq<real>, m: real, below: bool)
    ensures Count(s + t, m, below) == Count(s, m, below) + Count(t, m, below)
  {
    if s == [] {
      assert s + t == t;
    } else {
      assert (s + t)[1..] == s[1..] + t;
      CountConcat(s[1..], t, m, below);
    }
  }

  lemma {:induction false} CountAll(s: seq<real>, m: real, below: bool)
    requires forall i :: 0 <= i < |s| ==> if below then s[i] <= m else s[i] >= m
    ensures Count(s, m, below) == |s|
  {
    if s != [] {
      CountAll(s[1..], m, below);
    }
  }

  /** The median has more than half the window at or below it and at least half at or above it. */
  lemma MedianRank(w: seq<real>)
    requires |w| > 0
    ensures 2 * Count(w, Median(w), true) > |w|
    ensures 2 * Count(w, Median(w), false) >= |w|
  {
    var r := Sort(w);
    var k := |r| / 2;
    SortSorted(w);
    SortCount(w, r[k], true);
    SortCount(w, r[k], false);
    SortedRank(r, k);
  }

  lemma SortedRank(r: seq<real>, k: nat)
    requires Sorted(r) && k < |r|
    ensures Count(r, r[k], true) >= k + 1
    ensures Count(r, r[k], false) >= |r| - k
  {
    var low, high := r[..k + 1], r[k..];
    SortedHalves(r, k, low, high);
    RankBelow(r, low, r[k + 1..], r[k]);
    RankAbove(r, r[..k], high, r[k]);
  }

  lemma SortedHalves(r: seq<real>, k: nat, low: seq<real>, high: seq<real>)
    requires Sorted(r) && k < |r| && low == r[..k + 1] && high == r[k..]
    ensures forall i :: 0 <= i < |low| ==> low[i] <= r[k]
    ensures forall i :: 0 <= i < |high| ==> high[i] >= r[k]
    ensures r == low + r[k + 1..] && r == r[..k] + high
  {
  }

  lemma RankBelow(r: seq<real>, s: seq<real>, t: seq<real>, m: real)
    requires r == s + t && forall i :: 0 <= i < |s| ==> s[i] <= m
    ensures Count(r, m, true) >= |s|
  {
    CountConcat(s, t, m, true);
    CountAll(s, m, true);
  }

  lemma RankAbove(r: seq<real>, s: seq<real>, t: seq<real>, m: real)
    requires r == s + t && forall i :: 0 <= i < |t| ==> t[i] >= m
    ensures Count(r, m, false) >= |t|
  {
    CountConcat(s, t, m, false);
    CountAll(t, m, false);
  }

  function Corrupted(good: seq<bool>): nat {
    if good == [] then 0 else Corrupted(good[1..]) + (if good[0] then 0 else 1)
  }

  lemma {:induction false} SomeGood(w: seq<real>, good: seq<bool>, m: real, below: bool)
    requires |good| == |w| && Count(w, m, below) > Corrupted(good)
    ensures exists i :: 0 <= i < |w| && good[i] && if below then w[i] <= m else w[i] >= m
  {
    if good[0] && (if below then w[0] <= m else w[0] >= m) {
    } else {
      SomeGood(w[1..], good[1..], m, below);
      var i :| 0 <= i < |w[1..]| && good[1..][i] && if below then w[1..][i] <= m else w[1..][i] >= m;
      assert good[i + 1] && if below then w[i + 1] <= m else w[i + 1] >= m;
    }
  }

  /** While fewer than half the samples are corrupted, the median lies between two good ones. */
  lemma MedianRobust(w: seq<real>, good: seq<bool>)
    requires |w| == |good| > 0 && 2 * Corrupted(good) < |w|
    ensures exists i, j :: 0 <= i < |w| && 0 <= j < |w| && good[i] && good[j] && w[i] <= Median(w) <= w[j]
  {
    MedianRank(w);
    SomeGood(w, good, Median(w), true);
    SomeGood(w, good, Median(w), false);
  }

  // ---------------------------------------------------------------- one sample

  function Pushed(sv: Servo, x: real): (w: seq<real>)
    ensures |w| >= 1 && w[|w| - 1] == x
    ensures |sv.window| <= MAX_WINDOW ==> |w| <= MAX_WINDOW
  {
    var kept := if |sv.window| >= SETTLED && Abs(x - sv.smoothed) > JUMP_NS then [] else sv.window;
    var w := kept + [x];
    if |w| > MAX_WINDOW then w[1..] else w
  }

  lemma PushedMember(sv: Servo, x: real, y: real)
    requires y in Pushed(sv, x)
    ensures y == x || y in sv.window
  {
  }

  function AddSample(sv: Servo, x: real): Servo {
    var w := Pushed(sv, x);
    if |w| >= MIN_WINDOW then Filtered(sv.(window := w), Median(w)) else sv.(window := w)
  }

  function Filtered(sv: Servo, median: real): Servo {
    sv.(smoothed := if sv.synced then sv.smoothed * 0.9 + median * 0.1 else median, synced := true)
  }

  /** What Delay_Resp does with the raw slave-to-master difference. */
  function AddDelay(sv: Servo, raw: real): Servo {
    var d := raw - sv.smoothed;
    if 0.0 <= d < MAX_DELAY_NS then
      sv.(delay := if sv.haveDelay then sv.delay * 0.9 + d * 0.1 else d, haveDelay := true)
    else sv
  }

  function Correction(sv: Servo): real {
    if sv.haveDelay then sv.delay else 0.0
  }

  /** More than 50 ms away. */
  predicate FarFrom(x: real, y: real) {
    x - y > 50000000.0 || y - x > 50000000.0
  }

  /** What a sample does to the window: with at least eight samples in it, one that is more than
      50 ms away from the smoothed offset restarts it; any other is appended, and of seventeen the
      oldest goes. */
  lemma WindowAfter(sv: Servo, x: real)
    requires |sv.window| <= 16
    ensures |sv.window| >= 8 && FarFrom(x, sv.smoothed) ==> AddSample(sv, x).window == [x]
    ensures !(|sv.window| >= 8 && FarFrom(x, sv.smoothed)) ==>
              AddSample(sv, x).window == (if |sv.window| == 16 then sv.window[1..] else sv.window) + [x]
    ensures AddSample(sv, x).window == [x] <==> sv.window == [] || (|sv.window| >= 8 && FarFrom(x, sv.smoothed))
  {
    assert AddSample(sv, x).window == Pushed(sv, x);
    assert Abs(x - sv.smoothed) > 50000000.0 <==> FarFrom(x, sv.smoothed);
  }

  /** What it does to the offset: with fewer than four samples nothing; the first four lock it on
      their median; from then on it moves a tenth of the way to the median. The delay is not touched. */
  lemma OffsetAfter(sv: Servo, x: real)
    ensures var t := AddSample(sv, x);
            && t.delay == sv.delay && t.haveDelay == sv.haveDelay
            && (|t.window| < 4 ==> t.synced == sv.synced && t.smoothed == sv.smoothed)
            && (|t.window| >= 4 ==>
                  var m := Median(t.window);
                  t.synced && t.smoothed == if sv.synced then 0.9 * sv.smoothed + 0.1 * m else m)
  {
    assert AddSample(sv, x).window == Pushed(sv, x);
  }

  /** A jump of more than 50 ms is followed from the fourth sample on, not outvoted by the past: the
      window restarts, three samples leave the offset where it was, and the fourth moves it. */
  lemma JumpRestarts(sv: Servo, t1: Servo, t2: Servo, t3: Servo, t4: Servo, x: real)
    requires sv.synced && 8 <= |sv.window| <= 16 && FarFrom(x, sv.smoothed)
    requires SampleTo(sv, t1, x) && SampleTo(t1, t2, x) && SampleTo(t2, t3, x) && SampleTo(t3, t4, x)
    ensures t1.window == [x] && t1.smoothed == t2.smoothed == t3.smoothed == sv.smoothed
    ensures t4.window == [x, x, x, x] && t4.synced && t4.smoothed == 0.9 * sv.smoothed + 0.1 * x
  {
    Restart(sv, t1, x);
    Refill(t1, t2, x);
    Refill(t2, t3, x);
    Refill(t3, t4, x);
    assert [x] + [x] + [x] + [x] == [x, x, x, x];
  }

  lemma Restart(s: Servo, t: Servo, x: real)
    requires SampleTo(s, t, x) && s.synced && 8 <= |s.window| <= 16 && FarFrom(x, s.smoothed)
    ensures t.synced && t.window == [x] && t.smoothed == s.smoothed
  {
    WindowAfter(s, x);
    OffsetAfter(s, x);
  }

  ghost predicate SampleTo(s: Servo, t: Servo, x: real) {
    t == AddSample(s, x)
  }

  /** Up to the fourth equal sample after a restart. */
  lemma Refill(s: Servo, t: Servo, x: real)
    requires SampleTo(s, t, x) && s.synced && |s.window| <= 3 && forall i :: 0 <= i < |s.window| ==> s.window[i] == x
    ensures t.synced && t.window == s.window + [x] && forall i :: 0 <= i < |t.window| ==> t.window[i] == x
    ensures t.smoothed == if |s.window| == 3 then 0.9 * s.smoothed + 0.1 * x else s.smoothed
  {
    WindowAfter(s, x);
    OffsetAfter(s, x);
    MedianMember(t.window);
  }

  /** What a delay measurement does: outside [0, 100 ms) nothing; the first is taken as it is; any
      other moves the held delay a tenth of the way. The window and the offset are not touched. */
  lemma DelayAfter(sv: Servo, raw: real)
    ensures var d, t := raw - sv.smoothed, AddDelay(sv, raw);
            && t.window == sv.window && t.smoothed == sv.smoothed && t.synced == sv.synced
            && (d < 0.0 || d >= 100000000.0 ==> t == sv)
            && (0.0 <= d < 100000000.0 ==>
                  t.haveDelay && t.delay == if sv.haveDelay then 0.9 * sv.delay + 0.1 * d else d)
  {
  }

  // ---------------------------------------------------------------- hull

  predicate InHull(x: real, samples: seq<real>) {
    exists i, j :: 0 <= i < |samples| && 0 <= j < |samples| && samples[i] <= x <= samples[j]
  }

  lemma HullGrows(x: real, samples: seq<real>, y: real)
    requires InHull(x, samples)
    ensures InHull(x, samples + [y])
  {
    var i, j :| 0 <= i < |samples| && 0 <= j < |samples| && samples[i] <= x <= samples[j];
    var s := samples + [y];
    assert s[i] <= x <= s[j];
  }

  lemma HullMember(x: real, samples: seq<real>)
    requires x in samples
    ensures InHull(x, samples)
  {
    var i :| 0 <= i < |samples| && samples[i] == x;
    assert samples[i] <= x <= samples[i];
  }

  lemma HullMix(x: real, y: real, samples: seq<real>)
    requires InHull(x, samples) && InHull(y, samples)
    ensures InHull(x * 0.9 + y * 0.1, samples)
  {
    var i, j :| 0 <= i < |samples| && 0 <= j < |samples| && samples[i] <= x <= samples[j];
    var k, l :| 0 <= k < |samples| && 0 <= l < |samples| && samples[k] <= y <= samples[l];
    var lo := if samples[i] <= samples[k] then i else k;
    var hi := if samples[j] >= samples[l] then j else l;
    assert samples[lo] <= x * 0.9 + y * 0.1 <= samples[hi];
  }

  /** What holds of a servo that has seen `since` since it last lost sync. */
  ghost predicate ServoOk(sv: Servo, since: seq<real>) {
    && |sv.window| <= MAX_WINDOW
    && (forall y :: y in sv.window ==> y in since)
    && (sv.synced ==> InHull(sv.smoothed, since))
    && (sv.haveDelay ==> 0.0 <= sv.delay < MAX_DELAY_NS)
  }

  lemma AddSampleKeeps(sv: Servo, since: seq<real>, x: real)
    requires ServoOk(sv, since)
    ensures ServoOk(AddSample(sv, x), since + [x])
  {
    var w := Pushed(sv, x);
    forall y | y in w
      ensures y in since + [x]
    {
      PushedMember(sv, x, y);
    }
    if |w| >= MIN_WINDOW {
      MedianMember(w);
      HullMember(Median(w), since + [x]);
      if sv.synced {
        HullGrows(sv.smoothed, since, x);
        HullMix(sv.smoothed, Median(w), since + [x]);
      }
    } else if sv.synced {
      HullGrows(sv.smoothed, since, x);
    }
  }

  // ---------------------------------------------------------------- the coupled loop

  predicate Within(x: real, centre: real, bound: real) {
    centre - bound <= x <= centre + bound
  }

  /** Offset, held delay and every sample are within `bound` of the true offset and path delay. */
  ghost predicate Near(sv: Servo, offset: real, path: real, bound: real) {
    && Within(sv.smoothed, offset, bound)
    && (sv.haveDelay ==> Within(sv.delay, path, bound))
    && forall y :: y in sv.window ==> Within(y, offset, bound)
  }

  /** A sample that is close enough keeps everything close, in every branch: growing window, jump
      restart, first lock. */
  lemma CloseSample(sv: Servo, x: real, offset: real, path: real, bound: real)
    requires Near(sv, offset, path, bound) && Within(x, offset, bound)
    ensures Near(AddSample(sv, x), offset, path, bound)
  {
    var w := Pushed(sv, x);
    MedianMember(w);
    forall y | y in w
      ensures Within(y, offset, bound)
    {
      PushedMember(sv, x, y);
    }
  }

  /** A noise-free Sync measurement. */
  lemma SampleStaysNear(sv: Servo, x: real, offset: real, path: real, bound: real)
    requires Near(sv, offset, path, bound) && 0.0 <= path <= bound
    requires x == offset - path + Correction(sv)
    ensures Near(AddSample(sv, x), offset, path, bound)
  {
    assert Within(x, offset, bound);
    CloseSample(sv, x, offset, path, bound);
  }

  /** A noise-free delay measurement, in every branch: first delay, low-pass, rejected delay. */
  lemma DelayStaysNear(sv: Servo, offset: real, path: real, bound: real)
    requires Near(sv, offset, path, bound)
    ensures Near(AddDelay(sv, offset + path), offset, path, bound)
  {
  }

  // ---------------------------------------------------------------- rest points

  /** Neither a noise-free Sync nor a noise-free Delay_Resp moves the servo. */
  ghost predicate AtRest(sv: Servo, offset: real, path: real)
    requires sv.haveDelay
  {
    AddSample(sv, offset - path + sv.delay) == sv && AddDelay(sv, offset + path) == sv
  }

  /** Delay_Resp can no longer move the estimate: the measured delay would be 2*path - delay,
      and that is outside the accepted range. */
  predicate Stuck(sv: Servo, path: real) {
    sv.delay > 2.0 * path || sv.delay <= 2.0 * path - MAX_DELAY_NS
  }

  ghost predicate Constant(w: seq<real>, x: real) {
    |w| == MAX_WINDOW && forall i :: 0 <= i < |w| ==> w[i] == x
  }

  lemma {:induction false} ShiftConstant(w: seq<real>, x: real, k: nat)
    requires |w| >= 1 && w == w[1..] + [x] && k < |w|
    ensures w[|w| - 1 - k] == x
  {
    if k > 0 {
      ShiftConstant(w, x, k - 1);
      var i := |w| - 1 - k;
      assert w[i] == (w[1..] + [x])[i] == w[i + 1];
    }
  }

  lemma SampleFixpoint(sv: Servo, x: real)
    requires |sv.window| <= MAX_WINDOW
    ensures AddSample(sv, x) == sv <==> Constant(sv.window, x) && sv.smoothed == x && sv.synced
  {
    var w := Pushed(sv, x);
    if AddSample(sv, x) == sv {
      assert w == sv.window && |w| == MAX_WINDOW;
      forall i | 0 <= i < |w|
        ensures w[i] == x
      {
        ShiftConstant(w, x, |w| - 1 - i);
      }
      MedianMember(w);
      assert Median(w) == x;
    }
    if Constant(sv.window, x) && sv.smoothed == x && sv.synced {
      assert w == sv.window;
      MedianMember(w);
      assert Median(w) == x;
    }
  }

  ghost predicate RestPoint(sv: Servo, offset: real, path: real) {
    && Constant(sv.window, sv.smoothed) && sv.synced
    && sv.smoothed - offset == sv.delay - path
    && (sv.delay == path || Stuck(sv, path))
  }

  lemma SampleRests(sv: Servo, offset: real, path: real)
    requires |sv.window| <= MAX_WINDOW
    ensures AddSample(sv, offset - path + sv.delay) == sv
            <==> Constant(sv.window, sv.smoothed) && sv.synced && sv.smoothed - offset == sv.delay - path
  {
    var x := offset - path + sv.delay;
    if AddSample(sv, x) == sv {
      SampleFixpoint(sv, x);
    } else if Constant(sv.window, sv.smoothed) && sv.synced && sv.smoothed - offset == sv.delay - path {
      assert x == sv.smoothed;
      SampleFixpoint(sv, sv.smoothed);
      assert false;
    }
  }

  lemma DelayRests(sv: Servo, offset: real, path: real)
    requires sv.haveDelay && sv.smoothed - offset == sv.delay - path
    ensures AddDelay(sv, offset + path) == sv <==> sv.delay == path || Stuck(sv, path)
  {
    assert offset + path - sv.smoothed == 2.0 * path - sv.delay;
  }

  /** Every rest point of the noise-free loop: the true offset and delay, and the stuck points in
      which a delay estimate beyond twice the path keeps the offset wrong by delay - path. */
  lemma RestPoints(sv: Servo, offset: real, path: real)
    requires sv.haveDelay && |sv.window| <= MAX_WINDOW
    ensures AtRest(sv, offset, path) <==> RestPoint(sv, offset, path)
  {
    if sv.smoothed - offset == sv.delay - path {
      SampleRests(sv, offset, path);
      DelayRests(sv, offset, path);
    } else if AtRest(sv, offset, path) {
      SampleRests(sv, offset, path);
      assert false;
    }
  }

  /** A servo that starts within one path delay of the truth has only the true rest point. */
  lemma TrueRestPoint(sv: Servo, offset: real, path: real)
    requires sv.haveDelay && |sv.window| <= MAX_WINDOW && 0.0 <= path && 2.0 * path < MAX_DELAY_NS
    requires Near(sv, offset, path, path) && AtRest(sv, offset, path)
    ensures sv.smoothed == offset && sv.delay == path
  {
    RestPoints(sv, offset, path);
  }
}
