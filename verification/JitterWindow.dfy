/**
  How much of the window hypotheses is needed. The distance from the cursor that keeps slots from
  being torn is exact; so are, for the seamless merge of JitterMerge, the room that late and early
  packets share and the age of markers. Beyond each there is a run that plays a torn slot, conceals
  a packet that came in time, or discards one that never came before. (The seamless merge is stated
  for runs in which no packet behind the cursor re-anchors playout; JitterOrder and JitterSlot say
  what holds without that.)
*/
module JitterWindow {
  import opened Common
  import opened JitterRing
  import opened JitterSlot
  import opened JitterMerge

  // ---------------------------------------------------------------- what seamless means

  /** What plays is one complete published packet; what came in time is not concealed; what is
      discarded as a duplicate had been published. */
  ghost predicate Seamless(r: Run, lead: nat)
    requires IsRun(r)
  {
    && (forall i, p :: 0 <= i < |r.steps| && Plays(r, i, p) ==> PlaysPublished(r, i, p))
    && (forall k, i, p :: 0 <= k < |r.steps| && 0 <= i < |r.steps| && Publishes(r, k, p) && Conceals(r, i, p) ==>
          p <= Horizon(r.states[k]))
    && (forall n, p :: 0 <= n < |r.states| && TakesForDuplicate(r.states[n], lead, p) ==> WasPublished(r, n, p))
  }

  ghost predicate PlaysPublished(r: Run, i: int, p: int)
    requires IsRun(r) && 0 <= i < |r.steps|
  {
    exists k :: 0 <= k < i && Publishes(r, k, p)
                && r.states[i].reader == Written(r.states[k].writer.audio, r.states[k].writer.audio)
  }

  ghost predicate WasPublished(r: Run, n: int, p: int)
    requires IsRun(r) && 0 <= n < |r.states|
  {
    exists k :: 0 <= k < n && Publishes(r, k, p)
  }

  ghost predicate TakesForDuplicate(s: State, lead: nat, p: int) {
    && |s.ring| == SLOTS && s.writer.Idle? && Horizon(s) <= p < Horizon(s) + lead
    && ArriveStep(s, 0, p, []).writer.Idle?
  }

  lemma WindowedIsSeamless(r: Run, late: nat, lead: nat)
    requires WindowedRun(r, late, lead)
    ensures Seamless(r, lead)
  {
    forall i, p | 0 <= i < |r.steps| && Plays(r, i, p)
      ensures PlaysPublished(r, i, p)
    {
      var k := PlayedIsPublished(r, late, lead, i, p);
    }
    forall k, i, p | 0 <= k < |r.steps| && 0 <= i < |r.steps| && Publishes(r, k, p) && Conceals(r, i, p)
      ensures p <= Horizon(r.states[k])
    {
      if Horizon(r.states[k]) < p {
        WindowedInTime(r, late, lead, k, i, p);
      }
    }
    forall n, p | 0 <= n < |r.states| && TakesForDuplicate(r.states[n], lead, p)
      ensures WasPublished(r, n, p)
    {
      DuplicateIffPublished(r, late, lead, n, 0, p, []);
    }
  }

  // ---------------------------------------------------------------- building fitting runs

  ghost predicate From(ring: seq<Slot>, lo: int) {
    forall i :: 0 <= i < |ring| && ring[i].gen != 0 ==> ring[i].pos >= lo
  }

  ghost predicate Grows(r: Run, r': Run) {
    r.states <= r'.states && r.steps <= r'.steps && r.config == r'.config
  }

  datatype Bounds = Bounds(late: nat, lead: nat, age: int)

  ghost predicate Fitting(r: Run, b: Bounds) {
    FittingRun(r, b.late, b.lead, b.age)
  }

  /** A configuration in which an empty queue always conceals and never drops. */
  predicate Plain(c: Config) {
    c.targetFrames >= 0 && c.framesPerPacket >= 0
  }

  lemma Step1(r: Run, step: Step, b: Bounds, lo: int) returns (r': Run)
    requires Fitting(r, b) && Enabled(Last(r), step)
    requires var t := Apply(Last(r), r.config, step);
             && From(t.ring, lo) && Horizon(t) + Reach(b.lead) - b.age <= lo
             && (t.writer.Busy? ==> Horizon(t) - b.late <= t.writer.pos < Horizon(t) + b.lead)
             && (t.reader.Parked? && !t.haveFirst && t.writer.Busy? ==> t.writer.pos >= t.cursor)
    ensures Fitting(r', b) && Grows(r, r') && Last(r') == Apply(Last(r), r.config, step)
    ensures r'.steps == r.steps + [step] && r'.states == r.states + [Last(r')]
  {
    r' := Go(r, step);
    forall i | 0 <= i < |r'.states|
      ensures Fits(r'.states[i], b.late, b.lead, b.age)
    {
      if i < |r.states| {
        assert Fits(r.states[i], b.late, b.lead, b.age);
      }
    }
  }

  /** Where playout is committed once a packet at `pos` starts to be stored. */
  function HorizonWith(s: State, pos: int): int {
    if s.reader.Parked? && !s.haveFirst then pos else Horizon(s)
  }

  ghost predicate CanStore(s: State, pos: int, b: Bounds, lo: int) {
    && |s.ring| == SLOTS && s.writer.Idle? && At(s, pos).gen != Marker(pos)
    && From(s.ring, lo) && lo <= pos
    && HorizonWith(s, pos) + Reach(b.lead) - b.age <= lo
    && HorizonWith(s, pos) - b.late <= pos < HorizonWith(s, pos) + b.lead
    && (s.reader.Parked? && !s.haveFirst ==> pos >= s.cursor)
  }

  ghost predicate Stored(s: State, t: State, pos: int, sample: int)
    requires |s.ring| == SLOTS
  {
    && t.ring == s.ring[Index(pos) := Slot(Marker(pos), pos, [sample])]
    && t.reader == s.reader && t.writer == Idle && t.cursor == s.cursor && t.log == s.log
    && t.haveFirst && t.first == (if s.haveFirst then s.first else pos)
    && t.published.Keys == s.published.Keys + {pos}
  }

  ghost predicate Filled(s: State, t: State, leg: nat, pos: int, sample: int)
    requires |s.ring| == SLOTS
  {
    && t.ring == s.ring[Index(pos) := At(s, pos).(audio := [sample])]
    && t.writer == Busy(leg, pos, [sample], true, 1)
    && t == s.(ring := t.ring, writer := t.writer, count := t.count)
  }

  lemma FilledStates(s: State, c: Config, leg: nat, pos: int, sample: int)
    requires |s.ring| == SLOTS && s.writer.Idle? && At(s, pos).gen != Marker(pos)
    ensures var s1 := Apply(s, c, Arrive(leg, pos, [sample]));
            && s1.writer == Busy(leg, pos, [sample], false, 0) && s1 == s.(writer := s1.writer, count := s1.count)
            && Enabled(s1, Resize)
            && var s2 := Apply(s1, c, Resize);
               && s2.ring == s.ring[Index(pos) := At(s, pos).(audio := Resized(At(s, pos).audio, 1))]
               && s2.writer == Busy(leg, pos, [sample], true, 0)
               && s2 == s.(ring := s2.ring, writer := s2.writer, count := s2.count)
               && Enabled(s2, StoreSample) && Filled(s, Apply(s2, c, StoreSample), leg, pos, sample)
  {
    var s1 := Apply(s, c, Arrive(leg, pos, [sample]));
    var s2 := Apply(s1, c, Resize);
    var s3 := Apply(s2, c, StoreSample);
    assert At(s3, pos).audio == [sample];
    assert s3.ring == s.ring[Index(pos) := At(s, pos).(audio := [sample])];
  }

  /** From the duplicate check to the last sample. */
  lemma Fill(r: Run, leg: nat, pos: int, sample: int, b: Bounds, lo: int) returns (r': Run)
    requires Fitting(r, b) && CanStore(Last(r), pos, b, lo)
    ensures Fitting(r', b) && Grows(r, r') && Filled(Last(r), Last(r'), leg, pos, sample) && From(Last(r').ring, lo)
    ensures r'.steps == r.steps + [Arrive(leg, pos, [sample]), Resize, StoreSample]
  {
    FilledStates(Last(r), r.config, leg, pos, sample);
    var r1 := Step1(r, Arrive(leg, pos, [sample]), b, lo);
    var r2 := Step1(r1, Resize, b, lo);
    r' := Step1(r2, StoreSample, b, lo);
  }

  /** A whole packet, from the duplicate check to the publication. */
  lemma Store(r: Run, leg: nat, pos: int, sample: int, b: Bounds, lo: int) returns (r': Run)
    requires Fitting(r, b) && CanStore(Last(r), pos, b, lo)
    ensures Fitting(r', b) && Grows(r, r') && Stored(Last(r), Last(r'), pos, sample) && From(Last(r').ring, lo)
    ensures |r'.steps| == |r.steps| + 4
    ensures Publishes(r', |r.steps| + 3, pos) && r'.states[|r.steps| + 3].writer.audio == [sample]
    ensures Horizon(r'.states[|r.steps| + 3]) == HorizonWith(Last(r), pos)
    ensures r'.steps == r.steps + [Arrive(leg, pos, [sample]), Resize, StoreSample, Publish]
  {
    var r1 := Fill(r, leg, pos, sample, b, lo);
    r' := Step1(r1, Publish, b, lo);
    assert r'.states[|r.steps| + 3] == Last(r1);
  }

  /** Take up the anchor and come round to the top of the loop. */
  lemma Begin(r: Run, b: Bounds, lo: int) returns (r': Run)
    requires Fitting(r, b) && Plain(r.config) && Last(r).reader.Parked? && Last(r).haveFirst && Last(r).writer.Idle?
    requires From(Last(r).ring, lo) && Last(r).first + Reach(b.lead) - b.age <= lo
    ensures Fitting(r', b) && Grows(r, r') && |r'.steps| == |r.steps| + 2
    ensures var s, t := Last(r), Last(r');
            && t.reader == Top && t.writer == Idle && t.cursor == s.first && t.ring == s.ring
            && t.published == s.published && t.log == s.log && t.haveFirst
    ensures r'.steps == r.steps + [Resume, Drift(0)]
  {
    r' := Step1(r, Resume, b, lo);
    r' := Step1(r', Drift(0), b, lo);
  }

  /** Match and meter the packet at the cursor. */
  lemma MatchAndFeed(r: Run, b: Bounds, lo: int) returns (r': Run)
    requires Fitting(r, b) && Last(r).reader == Top && Last(r).writer.Idle? && Last(r).haveFirst
    requires |Last(r).ring| == SLOTS && At(Last(r), Last(r).cursor).gen == Marker(Last(r).cursor)
    requires From(Last(r).ring, lo) && Last(r).cursor + Reach(b.lead) - b.age <= lo
    ensures Fitting(r', b) && Grows(r, r') && |r'.steps| == |r.steps| + 2
    ensures Last(r') == Last(r).(reader := Fed(At(Last(r), Last(r).cursor).audio))
    ensures r'.steps == r.steps + [Look, Feed]
  {
    r' := Step1(r, Look, b, lo);
    r' := Step1(r', Feed, b, lo);
  }

  /** Write what the slot holds now, and clear it. */
  lemma WriteAndClear(r: Run, b: Bounds, lo: int) returns (r': Run)
    requires Fitting(r, b) && Plain(r.config) && Last(r).reader.Fed? && Last(r).writer.Idle? && Last(r).haveFirst
    requires |Last(r).ring| == SLOTS
    requires From(Last(r).ring, lo) && Last(r).cursor + 1 + Reach(b.lead) - b.age <= lo
    ensures Fitting(r', b) && Grows(r, r') && |r'.steps| == |r.steps| + 3
    ensures Plays(r', |r.steps| + 1, Last(r).cursor)
    ensures r'.states[|r.steps| + 1].reader == Written(Last(r).reader.fed, At(Last(r), Last(r).cursor).audio)
    ensures var s, t := Last(r), Last(r');
            && t.reader == Top && t.writer == Idle && t.cursor == s.cursor + 1 && t.haveFirst
            && t.ring == Emptied(s).ring && From(t.ring, lo) && t.published == s.published
            && t.log == s.log + [Played(s.cursor, s.reader.fed, At(s, s.cursor).audio)]
    ensures r'.steps == r.steps + [Write, Clear, Drift(0)]
  {
    r' := Step1(r, Write, b, lo);
    r' := Step1(r', Clear, b, lo);
    r' := Step1(r', Drift(0), b, lo);
  }

  /** Conceal the cursor's position, with or without a packet coming in between look and miss. */
  lemma LookAndMiss(r: Run, b: Bounds, lo: int) returns (r': Run)
    requires Fitting(r, b) && Plain(r.config) && Last(r).reader == Top && Last(r).writer.Idle? && Last(r).haveFirst
    requires |Last(r).ring| == SLOTS && At(Last(r), Last(r).cursor).gen != Marker(Last(r).cursor)
    requires From(Last(r).ring, lo) && Last(r).cursor + 1 + Reach(b.lead) - b.age <= lo
    ensures Fitting(r', b) && Grows(r, r') && |r'.steps| == |r.steps| + 3
    ensures Conceals(r', |r.steps| + 1, Last(r).cursor)
    ensures var s, t := Last(r), Last(r');
            && t.reader == Top && t.writer == Idle && t.cursor == s.cursor + 1 && t.haveFirst
            && t.ring == s.ring && t.published == s.published
  {
    r' := Step1(r, Look, b, lo);
    r' := Step1(r', Miss(true, 0, 0), b, lo);
    r' := Step1(r', Drift(0), b, lo);
  }

  /** While nothing in the ring carries the cursor's marker, playout can conceal on and on. */
  lemma {:induction false} ConcealOn(r: Run, n: nat, b: Bounds, lo: int) returns (r': Run)
    requires Fitting(r, b) && Plain(r.config) && Last(r).reader == Top && Last(r).writer.Idle? && Last(r).haveFirst
    requires |Last(r).ring| == SLOTS && From(Last(r).ring, lo) && Last(r).cursor + n + Reach(b.lead) - b.age <= lo
    requires forall p :: Last(r).cursor <= p < Last(r).cursor + n ==> At(Last(r), p).gen != Marker(p)
    ensures Fitting(r', b) && Grows(r, r')
    ensures var s, t := Last(r), Last(r');
            && t.reader == Top && t.writer == Idle && t.cursor == s.cursor + n && t.haveFirst
            && t.ring == s.ring && t.published == s.published
    decreases n
  {
    r' := r;
    if n > 0 {
      assert At(Last(r), Last(r).cursor).gen != Marker(Last(r).cursor);
      var r1 := LookAndMiss(r, b, lo);
      r' := ConcealOn(r1, n - 1, b, lo);
    }
  }

  /** Packet 0 anchors playout, which stands at the top of its loop. */
  lemma Anchored(config: Config, b: Bounds) returns (r: Run)
    requires Plain(config) && b.lead >= 1 && Reach(b.lead) <= b.age
    ensures Fitting(r, b) && r.config == config
    ensures r.steps == [Arrive(0, 0, [7]), Resize, StoreSample, Publish, Resume, Drift(0)]
    ensures var s := Last(r);
            && |s.ring| == SLOTS && s.ring[0] == Slot(Marker(0), 0, [7]) && s.log == []
            && (forall i :: 0 < i < SLOTS ==> s.ring[i].gen == 0)
            && s.cursor == 0 && s.reader == Top && s.writer == Idle && s.haveFirst && s.published.Keys == {0}
    ensures From(Last(r).ring, 0)
    ensures Publishes(r, 3, 0) && r.states[0].cursor == 0
  {
    var ring := seq(SLOTS, _ => Slot(0, 0, []));
    r := Run(config, [State(ring, Idle, Parked, 0, false, 0, 0, 0, map[], [],
                            Counters(0, 0, 0, 0, 0, 0, 0, 0, 0))], []);
    r := Store(r, 0, 0, 7, b, 0);
    r := Begin(r, b, 0);
  }

  // ---------------------------------------------------------------- beyond the bounds

  /** Packet 0 has been metered and is about to be written. */
  lemma HalfPlayed(config: Config, b: Bounds) returns (r: Run)
    requires Plain(config) && b.lead >= 1 && Reach(b.lead) <= b.age
    ensures Fitting(r, b) && r.config == config
    ensures r.steps == [Arrive(0, 0, [7]), Resize, StoreSample, Publish, Resume, Drift(0), Look, Feed]
    ensures var s := Last(r);
            && |s.ring| == SLOTS && s.ring[0] == Slot(Marker(0), 0, [7]) && From(s.ring, 0)
            && s.cursor == 0 && s.reader == Fed([7]) && s.writer == Idle && s.haveFirst
  {
    var r1 := Anchored(config, b);
    r := MatchAndFeed(r1, b, 0);
  }

  /** The other packet is stored over it. */
  lemma Overlaid(config: Config, b: Bounds, other: int) returns (r: Run)
    requires Plain(config) && b.lead >= 1 && b.age >= 4 * SLOTS
    requires (other == SLOTS && b.lead > SLOTS) || (other == -SLOTS && b.late >= SLOTS)
    ensures Fitting(r, b) && r.config == config
    ensures r.steps == [Arrive(0, 0, [7]), Resize, StoreSample, Publish, Resume, Drift(0), Look, Feed,
                        Arrive(0, other, [9]), Resize, StoreSample, Publish]
    ensures r.states[8].cursor == 0
    ensures var s := Last(r);
            && |s.ring| == SLOTS && s.ring[0].audio == [9] && From(s.ring, -SLOTS)
            && s.cursor == 0 && s.reader == Fed([7]) && s.writer == Idle && s.haveFirst
  {
    var r1 := HalfPlayed(config, b);
    assert Index(other) == 0 && Marker(other) != Marker(0);
    r := Store(r1, 0, other, 9, b, -SLOTS);
    assert r.states[8] == Last(r1);
  }

  /** A packet one whole ring away from the cursor tears the slot that is being played: the meters
      see packet 0, the sound card gets the other one. */
  lemma Torn(config: Config, b: Bounds, other: int) returns (r: Run)
    requires Plain(config) && b.lead >= 1 && b.age >= 4 * SLOTS
    requires (other == SLOTS && b.lead > SLOTS) || (other == -SLOTS && b.late >= SLOTS)
    ensures Fitting(r, b) && |r.steps| == 15 && Plays(r, 13, 0)
    ensures r.states[13].reader == Written([7], [9])
    ensures r.steps == [Arrive(0, 0, [7]), Resize, StoreSample, Publish, Resume, Drift(0), Look, Feed,
                        Arrive(0, other, [9]), Resize, StoreSample, Publish, Write, Clear, Drift(0)]
    ensures r.states[8].cursor == 0
  {
    var r1 := Overlaid(config, b, other);
    r := WriteAndClear(r1, b, -SLOTS);
    assert r.states[8] == r1.states[8];
  }

  lemma StoringKeeps(r: Run, m: nat)
    requires IsRun(r) && m + 4 <= |r.steps|
    requires r.steps[m].Arrive? && r.steps[m + 1].Resize? && r.steps[m + 2].StoreSample? && r.steps[m + 3].Publish?
    ensures forall n :: m <= n <= m + 4 ==>
              r.states[n].reader == r.states[m].reader && r.states[n].cursor == r.states[m].cursor
    ensures r.states[m + 4].writer.Idle?
  {
    assert StepAt(r, m) && StepAt(r, m + 1) && StepAt(r, m + 2) && StepAt(r, m + 3);
  }

  /** In that run, what is stored while playout is running is the other packet, at cursor 0. */
  lemma TornStores(config: Config, b: Bounds, other: int) returns (r: Run)
    requires Plain(config) && b.lead >= 1 && b.age >= 4 * SLOTS
    requires (other == SLOTS && b.lead > SLOTS) || (other == -SLOTS && b.late >= SLOTS)
    ensures IsRun(r) && 13 < |r.steps| && Plays(r, 13, 0) && r.states[13].reader == Written([7], [9])
    ensures forall n :: 0 <= n < |r.states| && r.states[n].writer.Busy? && !r.states[n].reader.Parked? ==>
              r.states[n].writer.pos == other && r.states[n].cursor == 0
  {
    r := Torn(config, b, other);
    TwoPackets(r);
    forall n | 0 <= n < |r.states| && r.states[n].writer.Busy? && !r.states[n].reader.Parked?
      ensures r.states[n].writer.pos == other && r.states[n].cursor == 0
    {
      StoredSecond(r, n);
    }
  }

  /** Two packets are stored in it: one while playout is parked, one at cursor 0. */
  lemma TwoPackets(r: Run)
    requires IsRun(r) && |r.steps| == 15 && r.states[8].cursor == 0
    requires var a, b := r.steps[0], r.steps[8];
             a.Arrive? && b.Arrive? && r.steps == [a, Resize, StoreSample, Publish, Resume, Drift(0), Look, Feed,
                                                   b, Resize, StoreSample, Publish, Write, Clear, Drift(0)]
    ensures forall j :: 0 <= j < |r.steps| && r.steps[j].Arrive? ==> j == 0 || j == 8
    ensures r.states[4].writer.Idle? && r.states[12].writer.Idle?
    ensures forall m :: 0 <= m <= 4 ==> r.states[m].reader.Parked?
    ensures forall m :: 8 <= m <= 12 ==> r.states[m].cursor == 0
  {
    StoringKeeps(r, 0);
    StoringKeeps(r, 8);
  }

  lemma StoredSecond(r: Run, n: nat)
    requires IsRun(r) && |r.steps| > 12 && n < |r.states| && r.states[n].writer.Busy? && !r.states[n].reader.Parked?
    requires forall j :: 0 <= j < |r.steps| && r.steps[j].Arrive? ==> j == 0 || j == 8
    requires r.states[4].writer.Idle? && r.states[12].writer.Idle? && r.steps[8].Arrive?
    requires forall m :: 0 <= m <= 4 ==> r.states[m].reader.Parked?
    ensures 8 < n < 12 && r.states[n].writer.pos == r.steps[8].pos
  {
    var j := WriterFrom(r, n);
  }

  lemma TornIsNotSeamless(r: Run, lead: nat, i: nat, a: Audio, w: Audio)
    requires IsRun(r) && i < |r.steps| && Plays(r, i, r.states[i].cursor)
    requires r.states[i].reader == Written(a, w) && a != w
    ensures !Seamless(r, lead)
  {
    assert !PlaysPublished(r, i, r.states[i].cursor);
  }

  /** Packet 0 anchors playout and is played. */
  lemma PlayedOnce(config: Config, b: Bounds) returns (r: Run)
    requires Plain(config) && b.lead >= 1 && Reach(b.lead) + 1 <= b.age
    ensures Fitting(r, b) && r.config == config && r.states[0].cursor == 0
    ensures r.steps == [Arrive(0, 0, [7]), Resize, StoreSample, Publish, Resume, Drift(0),
                        Look, Feed, Write, Clear, Drift(0)]
    ensures var s := Last(r);
            && |s.ring| == SLOTS && (forall i :: 0 <= i < SLOTS ==> s.ring[i].gen == 0)
            && s.log == [Played(0, [7], [7])] && s.published.Keys == {0}
            && s.cursor == 1 && s.reader == Top && s.writer == Idle && s.haveFirst
  {
    var r1 := Anchored(config, b);
    var r2 := MatchAndFeed(r1, b, 0);
    r := WriteAndClear(r2, b, 0);
  }

  /** A packet that came in time, and a late one that takes over its slot. */
  lemma SharedSlot(config: Config, b: Bounds, q: int) returns (r: Run, k: nat)
    requires Plain(config) && 2 <= b.lead <= SLOTS && b.late + b.lead > SLOTS && b.age >= 4 * SLOTS
    requires q == b.lead
    ensures Fitting(r, b) && r.config == config && k < |r.steps|
    ensures Publishes(r, k, q) && Horizon(r.states[k]) == 1
    ensures var s := Last(r);
            && |s.ring| == SLOTS && From(s.ring, -SLOTS) && s.ring[Index(q)].gen == Marker(q - SLOTS)
            && (forall i :: 0 <= i < SLOTS && i != Index(q) ==> s.ring[i].gen == 0)
            && s.cursor == 1 && s.reader == Top && s.writer == Idle && s.haveFirst
  {
    var r1 := PlayedOnce(config, b);
    var r2 := Store(r1, 0, q, 8, b, -SLOTS);
    k := |r1.steps| + 3;
    OneRingBack(q);
    r := Store(r2, 0, q - SLOTS, 9, b, -SLOTS);
    assert r.steps[k] == r2.steps[k] && r.states[k] == r2.states[k];
  }

  lemma OneRingBack(q: int)
    ensures Index(q) == Index(q - SLOTS) && Marker(q) != Marker(q - SLOTS)
  {
    IndexIsMod(q);
    IndexIsMod(q - SLOTS);
  }

  /** Playout then conceals the packet that came in time. */
  lemma Overwritten(config: Config, b: Bounds) returns (r: Run, k: nat, i: nat)
    requires Plain(config) && 2 <= b.lead <= SLOTS && b.late + b.lead > SLOTS && b.age >= 4 * SLOTS
    ensures Fitting(r, b) && k < |r.steps| && i < |r.steps|
    ensures Publishes(r, k, b.lead) && Horizon(r.states[k]) < b.lead && Conceals(r, i, b.lead)
  {
    var q := b.lead;
    var r1;
    r1, k := SharedSlot(config, b, q);
    forall p | 1 <= p < q + 1
      ensures At(Last(r1), p).gen != Marker(p)
    {
      OneRingBack(q);
      if Index(p) == Index(q) {
        SameIndex(p, q);
      }
    }
    var r2 := ConcealOn(r1, q - 1, b, -SLOTS);
    i := |r2.steps| + 1;
    r := LookAndMiss(r2, b, -SLOTS);
    assert r.steps[k] == r1.steps[k] && r.states[k] == r1.states[k];
  }

  lemma MissAnyway(r: Run, b: Bounds, lo: int) returns (r': Run)
    requires Fitting(r, b) && Plain(r.config) && Last(r).reader.Missed? && Last(r).writer.Idle? && Last(r).haveFirst
    requires |Last(r).ring| == SLOTS && From(Last(r).ring, lo) && Last(r).cursor + 1 + Reach(b.lead) - b.age <= lo
    ensures Fitting(r', b) && r'.config == r.config
    ensures var s, t := Last(r), Last(r');
            && t.reader == Top && t.writer == Idle && t.cursor == s.cursor + 1 && t.haveFirst
            && t.ring == s.ring && t.published == s.published
  {
    var r1 := Step1(r, Miss(true, 0, 0), b, lo);
    r' := Step1(r1, Drift(0), b, lo);
  }

  /** A packet that arrives between playout's look and its decision to conceal is left behind. */
  lemma LeftBehind(config: Config, b: Bounds) returns (r: Run)
    requires Plain(config) && 1 <= b.lead <= SLOTS && b.age > SEQ_RANGE
    ensures Fitting(r, b) && r.config == config
    ensures var s := Last(r);
            && |s.ring| == SLOTS && s.ring[1] == Slot(Marker(1), 1, [8])
            && (forall i :: 0 <= i < SLOTS && i != 1 ==> s.ring[i].gen == 0)
            && s.cursor == 2 && s.reader == Top && s.writer == Idle && s.haveFirst && s.published.Keys == {0, 1}
  {
    var r1 := PlayedOnce(config, b);
    var r2 := Step1(r1, Look, b, 0);
    var r3 := Store(r2, 0, 1, 8, b, 0);
    r := MissAnyway(r3, b, 0);
  }

  /** Nearly a full wrap later its marker is mistaken for a packet not yet sent. */
  lemma Mistaken(config: Config, b: Bounds) returns (r: Run, p: int)
    requires Plain(config) && 1 <= b.lead <= SLOTS && b.age > SEQ_RANGE
    ensures Fitting(r, b) && TakesForDuplicate(Last(r), b.lead, p) && !WasPublished(r, |r.states| - 1, p)
  {
    var r1 := LeftBehind(config, b);
    var s := Last(r1);
    assert From(s.ring, 1);
    forall x | 2 <= x < SEQ_RANGE + 2 - b.lead
      ensures At(s, x).gen != Marker(x)
    {
    }
    r := ConcealOn(r1, SEQ_RANGE - b.lead, b, 1);
    p := SEQ_RANGE + 1;
    assert Index(p) == 1 && Marker(p) == Marker(1);
    PublishedMeans(r, |r.states| - 1, p);
  }

  // ---------------------------------------------------------------- exactness

  /** While playout runs, packets are stored from `late` behind its cursor to `lead` ahead of it. */
  ghost predicate Within(r: Run, late: nat, lead: nat) {
    && IsRun(r)
    && forall n :: 0 <= n < |r.states| ==> StoresWithin(r.states[n], late, lead)
  }

  ghost predicate StoresWithin(s: State, late: nat, lead: nat) {
    s.writer.Busy? && !s.reader.Parked? ==> s.cursor - late <= s.writer.pos < s.cursor + lead
  }

  /** The sound card gets what the meters saw. */
  ghost predicate Untorn(r: Run)
    requires IsRun(r)
  {
    forall i, p :: 0 <= i < |r.steps| && Plays(r, i, p) ==>
      r.states[i].reader.Written? && r.states[i].reader.fed == r.states[i].reader.written
  }

  /** Whatever else the network does, no slot is torn in any run if and only if packets are stored
      less than one ring away from the cursor, on either side. */
  lemma TearIff(late: nat, lead: nat)
    ensures (forall r :: Within(r, late, lead) ==> Untorn(r)) <==> late < SLOTS && lead <= SLOTS
  {
    if late < SLOTS && lead <= SLOTS {
      forall r | Within(r, late, lead)
        ensures Untorn(r)
      {
        NearIsUntorn(r, late, lead);
      }
    } else {
      var other := if late >= SLOTS then -SLOTS else SLOTS;
      var r := TornStores(Config(0, 0), Bounds(late, if lead >= 1 then lead else 1, SEQ_RANGE), other);
      assert forall n :: 0 <= n < |r.states| ==> StoresWithin(r.states[n], late, lead);
      assert Plays(r, 13, 0) && !Untorn(r);
    }
  }

  lemma NearIsUntorn(r: Run, late: nat, lead: nat)
    requires Within(r, late, lead) && late < SLOTS && lead <= SLOTS
    ensures Untorn(r)
  {
    forall n | 0 <= n < |r.states|
      ensures Near(r.states[n])
    {
      assert StoresWithin(r.states[n], late, lead);
    }
    forall i, p | 0 <= i < |r.steps| && Plays(r, i, p)
      ensures r.states[i].reader.Written? && r.states[i].reader.fed == r.states[i].reader.written
    {
      var k, q := PlayedIsComplete(r, i, p);
    }
  }

  /** With markers younger than a full wrap, the merge is seamless in every run of the threads if
      and only if late and early packets together fit into the ring. */
  lemma WindowSizeExact(late: nat, lead: nat)
    requires lead >= 1
    ensures (forall r :: FittingRun(r, late, lead, SEQ_RANGE) ==> Seamless(r, lead)) <==> late + lead <= SLOTS
  {
    var b, config := Bounds(late, lead, SEQ_RANGE), Config(0, 0);
    if late + lead <= SLOTS {
      forall r | FittingRun(r, late, lead, SEQ_RANGE)
        ensures Seamless(r, lead)
      {
        WindowedIsSeamless(r, late, lead);
      }
    } else if lead > SLOTS || lead == 1 {
      var r := Torn(config, b, if lead > SLOTS then SLOTS else -SLOTS);
      TornIsNotSeamless(r, lead, 13, [7], [9]);
      assert FittingRun(r, late, lead, SEQ_RANGE);
    } else {
      var r, k, i := Overwritten(config, b);
      assert FittingRun(r, late, lead, SEQ_RANGE) && !Seamless(r, lead);
    }
  }

  /** In a window that fits the ring, the merge is seamless in every run of the threads if and only
      if no marker is left in the ring for more than a full wrap. */
  lemma MarkerAgeExact(late: nat, lead: nat, age: int)
    requires lead >= 1 && late + lead <= SLOTS
    ensures (forall r :: FittingRun(r, late, lead, age) ==> Seamless(r, lead)) <==> age <= SEQ_RANGE
  {
    if age <= SEQ_RANGE {
      forall r | FittingRun(r, late, lead, age)
        ensures Seamless(r, lead)
      {
        assert WindowedRun(r, late, lead) by {
          forall i | 0 <= i < |r.states|
            ensures Window(r.states[i], late, lead)
          {
            assert Fits(r.states[i], late, lead, age);
          }
        }
        WindowedIsSeamless(r, late, lead);
      }
    } else {
      var r, p := Mistaken(Config(0, 0), Bounds(late, lead, age));
      assert FittingRun(r, late, lead, age) && !Seamless(r, lead);
    }
  }

  // ---------------------------------------------------------------- two more runs

  /** A late second copy that is never overwritten comes back: 65536 positions later playout
      takes it for a packet that was never sent. */
  lemma LateCopyReplays(config: Config) returns (r: Run)
    requires Plain(config)
    ensures IsRun(r) && Last(r).reader == Matched && Last(r).cursor == SEQ_RANGE
    ensures Last(r).cursor !in Last(r).published
  {
    var b := Bounds(1, 1, 2 * SEQ_RANGE);
    var r1 := LateCopyStored(config, b);
    var r2 := ConcealOn(r1, SEQ_RANGE - 1, b, 0);
    r := Go(r2, Look);
  }

  lemma LateCopyStored(config: Config, b: Bounds) returns (r: Run)
    requires Plain(config) && b.late >= 1 && b.lead == 1 && b.age == 2 * SEQ_RANGE
    ensures Fitting(r, b) && r.config == config
    ensures var s := Last(r);
            && |s.ring| == SLOTS && s.ring[0] == Slot(Marker(0), 0, [7]) && From(s.ring, 0)
            && (forall i :: 0 < i < SLOTS ==> s.ring[i].gen == 0)
            && s.cursor == 1 && s.reader == Top && s.writer == Idle && s.haveFirst && s.published.Keys == {0}
  {
    var r1 := PlayedOnce(config, b);
    r := Store(r1, 1, 0, 7, b, 0);
  }

  /** The second leg's copy of the packet just played re-anchors a playout that has parked, and is
      played again. Every arrival is the packet at the cursor or the one before it. */
  lemma LateCopyReanchors(config: Config) returns (r: Run)
    requires Plain(config)
    ensures IsRun(r) && Last(r).log == [Played(0, [7], [7]), Played(0, [7], [7])]
    ensures forall i :: 0 <= i < |r.steps| && r.steps[i].Arrive? ==>
              r.states[i].cursor - 1 <= r.steps[i].pos <= r.states[i].cursor
  {
    var b := Bounds(1, 1, SEQ_RANGE);
    var r1 := PlayedOnce(config, b);
    var r2 := ParkedAgain(r1);
    r := PlayedAgain(r2);
    assert r.states[0] == r1.states[0] && r.states[13] == r2.states[13];
  }

  lemma ParkedAgain(r0: Run) returns (r: Run)
    requires IsRun(r0)
    requires var s := Last(r0);
             && |s.ring| == SLOTS && (forall i :: 0 <= i < SLOTS ==> s.ring[i].gen == 0)
             && s.cursor == 1 && s.reader == Top && s.writer == Idle
    ensures IsRun(r) && Grows(r0, r) && Last(r).log == Last(r0).log
    ensures r.steps == r0.steps + [Look, Miss(false, 0, 0), Arrive(1, 0, [7]), Resize, StoreSample, Publish]
    ensures var s := Last(r);
            && |s.ring| == SLOTS && At(s, 0) == Slot(Marker(0), 0, [7])
            && s.reader == Parked && s.haveFirst && s.first == 0
    ensures r.states[|r0.steps| + 2].cursor == 1
  {
    var r1 := Go(r0, Look);
    var r2 := Go(r1, Miss(false, 0, 0));
    r := StoredAgain(r2);
    assert r.states[|r0.steps| + 2] == Last(r2);
  }

  lemma StoredAgain(r0: Run) returns (r: Run)
    requires IsRun(r0)
    requires var s := Last(r0);
             |s.ring| == SLOTS && s.ring[0].gen == 0 && s.reader == Parked && !s.haveFirst && s.writer == Idle
    ensures IsRun(r) && Grows(r0, r) && Last(r).log == Last(r0).log
    ensures r.steps == r0.steps + [Arrive(1, 0, [7]), Resize, StoreSample, Publish]
    ensures var s := Last(r);
            && |s.ring| == SLOTS && At(s, 0) == Slot(Marker(0), 0, [7])
            && s.reader == Parked && s.haveFirst && s.first == 0
  {
    FilledStates(Last(r0), r0.config, 1, 0, 7);
    var r1 := Go(r0, Arrive(1, 0, [7]));
    var r2 := Go(r1, Resize);
    var r3 := Go(r2, StoreSample);
    r := Go(r3, Publish);
  }

  lemma PlayedAgain(r0: Run) returns (r: Run)
    requires IsRun(r0) && Plain(r0.config)
    requires var s := Last(r0);
             && |s.ring| == SLOTS && At(s, 0) == Slot(Marker(0), 0, [7])
             && s.reader == Parked && s.haveFirst && s.first == 0
    ensures IsRun(r) && Grows(r0, r) && Last(r).log == Last(r0).log + [Played(0, [7], [7])]
    ensures r.steps == r0.steps + [Resume, Drift(0), Look, Feed, Write, Clear]
  {
    var r1 := Go(r0, Resume);
    var r2 := Go(r1, Drift(0));
    var r3 := Go(r2, Look);
    var r4 := Go(r3, Feed);
    var r5 := Go(r4, Write);
    r := Go(r5, Clear);
  }
}
