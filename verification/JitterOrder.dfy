/**
  The order in which playout moves through the stream, for every run of the two threads and
  without any window: between two anchors it is gapless, and across anchors it is strictly
  increasing exactly as long as no packet that playout has already passed re-anchors it.
*/
module JitterOrder {
  import opened JitterRing

  // ---------------------------------------------------------------- between anchors

  /** Since the anchor every position from it to the cursor was handled, once each and in order. */
  ghost predicate Gapless(s: State) {
    && (!s.reader.Parked? ==> s.haveFirst)
    && s.epoch <= |s.log| && s.cursor - s.anchor == |s.log| - s.epoch
    && forall i :: s.epoch <= i < |s.log| ==> s.log[i].pos == s.anchor + i - s.epoch
  }

  lemma LogStep(s: State, c: Config, step: Step)
    requires Enabled(s, step)
    ensures var t := Apply(s, c, step);
            if Advances(s, c, step)
            then && |t.log| == |s.log| + 1 && t.log[..|s.log|] == s.log && t.log[|s.log|].pos == s.cursor
                 && !s.reader.Parked?
            else t.log == s.log
  {
  }

  lemma GaplessStep(s: State, c: Config, step: Step)
    requires Gapless(s) && Enabled(s, step)
    ensures Gapless(Apply(s, c, step))
  {
    LogStep(s, c, step);
  }

  /** For all runs: since the last anchor playout has handled every position from the anchor to
      the cursor, each exactly once and in order. */
  lemma {:induction false} EveryPositionOnce(r: Run, n: nat)
    requires IsRun(r) && n < |r.states|
    ensures Gapless(r.states[n])
  {
    if n > 0 {
      EveryPositionOnce(r, n - 1);
      assert StepAt(r, n - 1);
      GaplessStep(r.states[n - 1], r.config, r.steps[n - 1]);
    }
  }

  // ---------------------------------------------------------------- the log is the run

  ghost predicate AdvancesAt(r: Run, i: int)
    requires IsRun(r) && 0 <= i < |r.steps|
  {
    StepAt(r, i) && Advances(r.states[i], r.config, r.steps[i])
  }

  /** Playing, concealing and dropping are what advances playout. */
  lemma AdvancesMeans(r: Run, i: nat)
    requires IsRun(r) && i < |r.steps|
    ensures AdvancesAt(r, i)
            <==> var p := r.states[i].cursor; Plays(r, i, p) || Conceals(r, i, p) || Drops(r, i, p)
  {
    assert StepAt(r, i);
  }

  lemma {:induction false} LogGrows(r: Run, i: nat, j: nat)
    requires IsRun(r) && i <= j < |r.states|
    ensures r.states[i].log <= r.states[j].log
    decreases j - i
  {
    if i < j {
      LogGrows(r, i, j - 1);
      assert StepAt(r, j - 1);
      LogStep(r.states[j - 1], r.config, r.steps[j - 1]);
    }
  }

  /** Every entry of the log was written by the step that handled its position. */
  lemma {:induction false} LogMeans(r: Run, n: nat, x: nat) returns (i: nat)
    requires IsRun(r) && n < |r.states| && x < |r.states[n].log|
    ensures i < n && AdvancesAt(r, i) && |r.states[i].log| == x && r.states[i].cursor == r.states[n].log[x].pos
  {
    assert n > 0;
    assert StepAt(r, n - 1);
    LogStep(r.states[n - 1], r.config, r.steps[n - 1]);
    if x < |r.states[n - 1].log| {
      i := LogMeans(r, n - 1, x);
    } else {
      i := n - 1;
    }
  }

  /** And every step that handles a position is found in the log. */
  lemma Logged(r: Run, i: nat, n: nat)
    requires IsRun(r) && i < n < |r.states| && AdvancesAt(r, i)
    ensures var x := |r.states[i].log|; x < |r.states[n].log| && r.states[n].log[x].pos == r.states[i].cursor
  {
    LogStep(r.states[i], r.config, r.steps[i]);
    LogGrows(r, i + 1, n);
  }

  // ---------------------------------------------------------------- across anchors

  /** Positions are handled in strictly increasing order: none twice, none out of order. */
  ghost predicate Ordered(r: Run)
    requires IsRun(r)
  {
    forall i, j :: 0 <= i < j < |r.steps| && AdvancesAt(r, i) && AdvancesAt(r, j) ==>
      r.states[i].cursor < r.states[j].cursor
  }

  /** Step k publishes the packet that a parked playout will restart at. */
  ghost predicate Reanchors(r: Run, k: int)
    requires IsRun(r) && 0 <= k < |r.steps|
  {
    r.steps[k] == Publish && r.states[k].writer.Busy? && !r.states[k].haveFirst
  }

  /** Playout has handled position p or a later one. */
  ghost predicate Passed(s: State, p: int) {
    exists x :: 0 <= x < |s.log| && s.log[x].pos >= p
  }

  ghost predicate Rewinds(r: Run, k: int)
    requires IsRun(r) && 0 <= k < |r.steps|
  {
    Reanchors(r, k) && Passed(r.states[k], r.states[k].writer.pos)
  }

  /** Between k and j no other packet re-anchors playout. */
  ghost predicate SameAnchor(r: Run, k: int, j: int)
    requires IsRun(r) && 0 <= k <= j <= |r.steps|
  {
    forall m :: k < m < j ==> !Reanchors(r, m)
  }

  /** Playout takes up the anchor published at step k: it handles a position under it. */
  ghost predicate Pursued(r: Run, k: int)
    requires IsRun(r) && 0 <= k < |r.steps|
  {
    exists j :: k < j < |r.steps| && SameAnchor(r, k, j) && AdvancesAt(r, j)
  }

  /** Under the anchor of step k: restarting there, or already counting from there. */
  ghost predicate Under(s: State, at: State) {
    s.haveFirst ==>
      if s.reader.Parked? then at.writer.Busy? && s.first == at.writer.pos && s.log == at.log
      else at.writer.Busy? && s.anchor == at.writer.pos && s.epoch == |at.log| && at.log <= s.log
  }

  lemma UnderStep(s: State, c: Config, step: Step, at: State)
    requires Under(s, at) && Gapless(s) && Enabled(s, step)
    requires !(step == Publish && !s.haveFirst)
    ensures Under(Apply(s, c, step), at)
  {
    LogStep(s, c, step);
  }

  lemma {:induction false} UnderAnchor(r: Run, k: nat, n: nat)
    requires IsRun(r) && k < n < |r.states| && Reanchors(r, k) && SameAnchor(r, k, n)
    ensures Under(r.states[n], r.states[k])
  {
    EveryPositionOnce(r, n - 1);
    assert StepAt(r, n - 1);
    if n - 1 > k {
      assert SameAnchor(r, k, n - 1);
      UnderAnchor(r, k, n - 1);
      assert !Reanchors(r, n - 1);
      UnderStep(r.states[n - 1], r.config, r.steps[n - 1], r.states[k]);
    }
  }

  /** A playout that knows where to start was anchored by some packet, the latest such. */
  lemma {:induction false} AnchorOf(r: Run, n: nat) returns (k: nat)
    requires IsRun(r) && n < |r.states| && r.states[n].haveFirst
    ensures k < n && Reanchors(r, k) && SameAnchor(r, k, n)
  {
    assert n > 0;
    assert StepAt(r, n - 1);
    if Reanchors(r, n - 1) {
      k := n - 1;
    } else {
      k := AnchorOf(r, n - 1);
    }
  }

  lemma OrderedLog(r: Run, n: nat, x: nat, y: nat)
    requires IsRun(r) && Ordered(r) && n < |r.states| && x < y < |r.states[n].log|
    ensures r.states[n].log[x].pos < r.states[n].log[y].pos
  {
    var a := LogMeans(r, n, x);
    var b := LogMeans(r, n, y);
    if b <= a {
      LogGrows(r, b, a);
    }
  }

  /** The first position handled under an anchor is the anchoring packet's own. */
  lemma AnchorHandled(r: Run, k: nat, j: nat)
    requires IsRun(r) && k < j < |r.steps| && Reanchors(r, k) && SameAnchor(r, k, j) && AdvancesAt(r, j)
    ensures var log, y := r.states[j + 1].log, |r.states[k].log|;
            r.states[k].log <= log && y < |log| && log[y].pos == r.states[k].writer.pos
  {
    UnderAnchor(r, k, j);
    EveryPositionOnce(r, j);
    LogStep(r.states[j], r.config, r.steps[j]);
  }

  /** Taking up an anchor behind what was already handled repeats or goes back. */
  lemma PursuedRewind(r: Run, k: nat)
    requires IsRun(r) && k < |r.steps| && Rewinds(r, k) && Pursued(r, k)
    ensures !Ordered(r)
  {
    var j :| k < j < |r.steps| && SameAnchor(r, k, j) && AdvancesAt(r, j);
    AnchorHandled(r, k, j);
    var x :| 0 <= x < |r.states[k].log| && r.states[k].log[x].pos >= r.states[k].writer.pos;
    if Ordered(r) {
      OrderedLog(r, j + 1, x, |r.states[k].log|);
    }
  }

  /** What was handled before a step lies below it, unless a passed packet re-anchored playout. */
  lemma AheadOfLog(r: Run, j: nat, x: nat)
    requires IsRun(r) && j < |r.steps| && AdvancesAt(r, j) && x < |r.states[j].log|
    requires forall k :: 0 <= k < j && Rewinds(r, k) ==> !Pursued(r, k)
    ensures r.states[j].log[x].pos < r.states[j].cursor
  {
    EveryPositionOnce(r, j);
    LogStep(r.states[j], r.config, r.steps[j]);
    var k := AnchorOf(r, j);
    UnderAnchor(r, k, j);
    assert Pursued(r, k);
    assert !Rewinds(r, k);
    if x < |r.states[k].log| {
      assert r.states[k].log[x] == r.states[j].log[x];
    }
  }

  /** Whatever is played, concealed or dropped later in a run lies at a higher position, across
      re-anchors and 16-bit wraps, if no packet that playout has already passed re-anchors it. */
  lemma InOrderOnce(r: Run, i: nat, j: nat, p: int, q: int)
    requires IsRun(r) && i < j < |r.steps|
    requires forall k :: 0 <= k < j && Rewinds(r, k) ==> !Pursued(r, k)
    requires Plays(r, i, p) || Conceals(r, i, p) || Drops(r, i, p)
    requires Plays(r, j, q) || Conceals(r, j, q) || Drops(r, j, q)
    ensures p < q
  {
    AdvancesMeans(r, i);
    AdvancesMeans(r, j);
    Logged(r, i, j);
    AheadOfLog(r, j, |r.states[i].log|);
  }

  /** For all runs: positions are handled at most once and in increasing order if and only if
      playout never takes up an anchor at or behind a position it has already handled. */
  lemma OrderedIff(r: Run)
    requires IsRun(r)
    ensures Ordered(r) <==> forall k :: 0 <= k < |r.steps| && Rewinds(r, k) ==> !Pursued(r, k)
  {
    if Ordered(r) {
      forall k | 0 <= k < |r.steps| && Rewinds(r, k)
        ensures !Pursued(r, k)
      {
        if Pursued(r, k) {
          PursuedRewind(r, k);
        }
      }
    }
    if forall k :: 0 <= k < |r.steps| && Rewinds(r, k) ==> !Pursued(r, k) {
      forall i, j | 0 <= i < j < |r.steps| && AdvancesAt(r, i) && AdvancesAt(r, j)
        ensures r.states[i].cursor < r.states[j].cursor
      {
        AdvancesMeans(r, i);
        AdvancesMeans(r, j);
        InOrderOnce(r, i, j, r.states[i].cursor, r.states[j].cursor);
      }
    }
  }

  /** Once playout has handled anything under its present anchor, a packet rewinds it exactly if it
      lies below the cursor. (An anchor given up before its first packet leaves the cursor higher.) */
  lemma RewindsBelowCursor(r: Run, k: nat)
    requires IsRun(r) && Ordered(r) && k < |r.steps| && Reanchors(r, k) && r.states[k].epoch < |r.states[k].log|
    ensures Rewinds(r, k) <==> r.states[k].writer.pos < r.states[k].cursor
  {
    var s := r.states[k];
    EveryPositionOnce(r, k);
    var last := |s.log| - 1;
    assert s.log[last].pos == s.cursor - 1;
    forall x | 0 <= x < last
      ensures s.log[x].pos < s.cursor
    {
      OrderedLog(r, k, x, last);
    }
  }

  // ---------------------------------------------------------------- one re-anchoring packet

  /** r' goes on from r without another re-anchoring packet. */
  ghost predicate Continues(r': Run, r: Run)
    requires IsRun(r)
  {
    && IsRun(r') && r'.config == r.config && r.states <= r'.states && r.steps <= r'.steps
    && forall k :: |r.steps| <= k < |r'.steps| ==> !Reanchors(r', k)
  }

  lemma SamePast(r: Run, r': Run, k: nat)
    requires IsRun(r) && Continues(r', r) && k < |r.steps|
    ensures r'.states[k] == r.states[k] && r'.steps[k] == r.steps[k]
    ensures Reanchors(r', k) <==> Reanchors(r, k)
    ensures Rewinds(r', k) <==> Rewinds(r, k)
    ensures AdvancesAt(r', k) <==> AdvancesAt(r, k)
  {
    assert StepAt(r, k) && StepAt(r', k);
  }

  /** An anchor that a continuation takes up, other than the last one, was taken up before. */
  lemma PursuedBefore(r: Run, r': Run, k: nat)
    requires IsRun(r) && Continues(r', r) && k < |r.steps| - 1
    requires Reanchors(r, |r.steps| - 1) && Pursued(r', k)
    ensures Pursued(r, k)
  {
    var n := |r.steps| - 1;
    var j :| k < j < |r'.steps| && SameAnchor(r', k, j) && AdvancesAt(r', j);
    SamePast(r, r', n);
    assert j <= n;
    SamePast(r, r', j);
    forall m | k < m < j
      ensures !Reanchors(r, m)
    {
      SamePast(r, r', m);
    }
    assert SameAnchor(r, k, j) && AdvancesAt(r, j);
  }

  lemma ContinuationOrdered(r: Run, r': Run)
    requires IsRun(r) && Continues(r', r) && |r.steps| > 0
    requires var n := |r.steps| - 1; Reanchors(r, n) && !Rewinds(r, n) && Ordered(r)
    ensures Ordered(r')
  {
    OrderedIff(r);
    forall k | 0 <= k < |r'.steps| && Rewinds(r', k)
      ensures !Pursued(r', k)
    {
      assert k < |r.steps|;
      SamePast(r, r', k);
      if Pursued(r', k) {
        PursuedBefore(r, r', k);
      }
    }
    OrderedIff(r');
  }

  lemma GoOn(r: Run, r1: Run, step: Step) returns (r2: Run)
    requires IsRun(r) && Continues(r1, r) && Enabled(Last(r1), step) && step != Publish
    ensures Continues(r2, r) && Last(r2) == Apply(Last(r1), r.config, step)
    ensures |r2.steps| == |r1.steps| + 1 && r2.steps[|r1.steps|] == step && r2.states[|r1.steps|] == Last(r1)
  {
    r2 := Go(r1, step);
    forall k | |r.steps| <= k < |r2.steps|
      ensures !Reanchors(r2, k)
    {
      if k < |r1.steps| {
        assert !Reanchors(r1, k);
      }
    }
  }

  lemma JustAnchored(r: Run)
    requires IsRun(r) && |r.steps| > 0 && Reanchors(r, |r.steps| - 1)
    ensures var s := Last(r);
            |s.ring| == SLOTS && s.reader.Parked? && s.haveFirst && At(s, s.first).gen == Marker(s.first)
  {
    var n := |r.steps| - 1;
    assert StepAt(r, n);
    EveryPositionOnce(r, n);
    assert Last(r) == PublishStep(r.states[n]);
  }

  /** A packet that has just re-anchored playout can always be played. */
  lemma PlayAnchor(r: Run) returns (r': Run)
    requires IsRun(r) && |r.steps| > 0 && Reanchors(r, |r.steps| - 1)
    ensures Continues(r', r) && Pursued(r', |r.steps| - 1)
  {
    JustAnchored(r);
    r' := GoOn(r, r, Resume);
    r' := GoOn(r, r', Drift(r.config.targetFrames + 4 * r.config.framesPerPacket));
    r' := GoOn(r, r', Look);
    assert Last(r').reader == Matched;
    r' := GoOn(r, r', Feed);
    r' := GoOn(r, r', Write);
    r' := GoOn(r, r', Clear);
    ClearPursues(r, r');
  }

  lemma ClearPursues(r: Run, r': Run)
    requires IsRun(r) && |r.steps| > 0 && Continues(r', r)
    requires |r'.steps| > |r.steps| && r'.steps[|r'.steps| - 1] == Clear
    ensures Pursued(r', |r.steps| - 1)
  {
    var j := |r'.steps| - 1;
    assert StepAt(r', j);
    assert SameAnchor(r', |r.steps| - 1, j) && AdvancesAt(r', j);
  }

  /** What a receiver could check as the packet arrives: every continuation under this anchor stays
      in order if and only if playout has not yet handled its position or a later one. */
  lemma ReanchorIff(r: Run)
    requires IsRun(r) && Ordered(r) && |r.steps| > 0 && Reanchors(r, |r.steps| - 1)
    ensures (forall r' :: Continues(r', r) ==> Ordered(r')) <==> !Rewinds(r, |r.steps| - 1)
  {
    var n := |r.steps| - 1;
    if Rewinds(r, n) {
      var r' := PlayAnchor(r);
      SamePast(r, r', n);
      PursuedRewind(r', n);
    } else {
      forall r' | Continues(r', r)
        ensures Ordered(r')
      {
        ContinuationOrdered(r, r');
      }
    }
  }
}
