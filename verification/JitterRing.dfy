/**
  The ST 2022-7 jitter ring of src/rtp/rtpreceiver.cpp as a two-thread step system.

  One receive thread (the writer) runs HandlePacket: it looks at a slot's generation marker,
  fills the slot sample by sample and publishes it by storing the marker. One playout thread
  (the reader) looks at the marker of its cursor, feeds and writes the samples, clears the
  marker, conceals, parks, re-anchors and drift-drops. Every constructor of `Step` is one
  atomic action of one thread; a run is any interleaving of them.

  Sequence numbers are kept unwrapped ("positions"). The 16-bit value the code works with is
  `position % 65536`, and every comparison below is made on that value alone. `published`,
  `log`, `Slot.pos`, `Missed.known`, `anchor` and `epoch` are history that no action reads.
*/
module JitterRing {
  import opened Common

  const SLOTS: int := 1024

  type Audio = seq<int>

  datatype Slot = Slot(gen: nat, pos: int, audio: Audio)

  datatype Writer = Idle | Busy(leg: nat, pos: int, audio: Audio, sized: bool, filled: nat)

  datatype Reader =
    | Top
    | Matched
    | Fed(fed: Audio)
    | Written(fed: Audio, written: Audio)
    | Missed(known: set<int>)
    | Parked
    | Steer
    | DropMatched

  datatype Event =
    | Played(pos: int, fed: Audio, written: Audio)
    | Concealed(pos: int, known: set<int>)
    | Dropped(pos: int)

  datatype Counters = Counters(
    received: nat, rejected: nat, duplicates: nat, stored: nat, overwritten: nat, secondary: nat,
    played: nat, concealed: nat, dropped: nat)

  datatype State = State(
    ring: seq<Slot>, writer: Writer, reader: Reader,
    cursor: int, haveFirst: bool, first: int,
    anchor: int, epoch: nat,
    published: map<int, Audio>, log: seq<Event>, count: Counters)

  datatype Config = Config(framesPerPacket: int, targetFrames: int)

  datatype Step =
    | Reject
    | Arrive(leg: nat, pos: int, audio: Audio)
    | Resize
    | StoreSample
    | Publish
    | Look
    | Feed
    | Write
    | Clear
    | Miss(receiving: bool, queued: int, queuedAfter: int)
    | Resume
    | Drift(queued: int)
    | DropClear

  /** The marker a published slot carries: the 16-bit sequence number plus one; 0 is "empty". */
  function Marker(pos: int): (m: nat)
    ensures 1 <= m <= SEQ_RANGE
  {
    pos % SEQ_RANGE + 1
  }

  function Index(pos: int): (i: nat)
    ensures i < SLOTS
  {
    (pos % SEQ_RANGE) % SLOTS
  }

  /** std::vector::resize: keep the common prefix, zero-fill the rest. */
  function Resized(a: Audio, n: nat): (r: Audio)
    ensures |r| == n
  {
    if n <= |a| then a[..n] else a + seq(n - |a|, _ => 0)
  }

  function At(s: State, pos: int): Slot
    requires |s.ring| == SLOTS
  {
    s.ring[Index(pos)]
  }

  /** The probe of the 16 positions after the cursor. */
  predicate NewerWaiting(s: State)
    requires |s.ring| == SLOTS
  {
    exists p :: s.cursor + 1 <= p <= s.cursor + 16 && At(s, p).gen == Marker(p)
  }

  predicate MustConceal(s: State, c: Config, queued: int, queuedAfter: int)
    requires |s.ring| == SLOTS
  {
    queued <= 2 * c.framesPerPacket || (NewerWaiting(s) && queuedAfter < c.targetFrames / 2)
  }

  predicate Enabled(s: State, step: Step) {
    && |s.ring| == SLOTS
    && match step
       case Reject => s.writer.Idle?
       case Arrive(_, _, audio) => s.writer.Idle?
       case Resize => s.writer.Busy? && !s.writer.sized
       case StoreSample =>
         && s.writer.Busy? && s.writer.sized && s.writer.filled < |s.writer.audio|
         && |At(s, s.writer.pos).audio| == |s.writer.audio|
       case Publish => s.writer.Busy? && s.writer.sized && s.writer.filled == |s.writer.audio|
       case Look => s.reader.Top?
       case Feed => s.reader.Matched?
       case Write => s.reader.Fed?
       case Clear => s.reader.Written?
       case Miss(_, _, _) => s.reader.Missed?
       case Resume => s.reader.Parked? && s.haveFirst
       case Drift(_) => s.reader.Steer?
       case DropClear => s.reader.DropMatched?
  }

  function Advance(s: State, e: Event): State {
    s.(cursor := s.cursor + 1, log := s.log + [e], reader := Steer)
  }

  function ArriveStep(s: State, leg: nat, pos: int, audio: Audio): State
    requires |s.ring| == SLOTS
  {
    var c := s.count.(received := s.count.received + 1);
    if At(s, pos).gen == Marker(pos) then
      s.(count := c.(duplicates := c.duplicates + 1))
    else
      s.(count := c, writer := Busy(leg, pos, audio, false, 0))
  }

  function PublishStep(s: State): State
    requires |s.ring| == SLOTS && s.writer.Busy?
  {
    var w := s.writer;
    var before := At(s, w.pos);
    var c := s.count.(
             stored := s.count.stored + 1,
             overwritten := s.count.overwritten + (if before.gen != 0 then 1 else 0),
             secondary := s.count.secondary + (if w.leg == 1 then 1 else 0));
    s.(ring := s.ring[Index(w.pos) := Slot(Marker(w.pos), w.pos, before.audio)],
       writer := Idle,
       haveFirst := true,
       first := if s.haveFirst then s.first else w.pos,
       published := if w.pos in s.published then s.published else s.published[w.pos := w.audio],
       count := c)
  }

  function WithAudio(s: State, pos: int, audio: Audio): State
    requires |s.ring| == SLOTS
  {
    s.(ring := s.ring[Index(pos) := At(s, pos).(audio := audio)])
  }

  function Emptied(s: State): State
    requires |s.ring| == SLOTS
  {
    s.(ring := s.ring[Index(s.cursor) := At(s, s.cursor).(gen := 0)])
  }

  function MissStep(s: State, c: Config, receiving: bool, queued: int, queuedAfter: int): State
    requires |s.ring| == SLOTS && s.reader.Missed?
  {
    if !receiving then
      s.(haveFirst := false, reader := Parked)
    else if MustConceal(s, c, queued, queuedAfter) then
      Advance(s, Concealed(s.cursor, s.reader.known))
      .(count := s.count.(concealed := s.count.concealed + 1))
    else
      s.(reader := Steer)
  }

  function Apply(s: State, c: Config, step: Step): State
    requires Enabled(s, step)
  {
    match step
    case Reject =>
      s.(count := s.count.(received := s.count.received + 1, rejected := s.count.rejected + 1))
    case Arrive(leg, pos, audio) => ArriveStep(s, leg, pos, audio)
    case Resize =>
      WithAudio(s, s.writer.pos, Resized(At(s, s.writer.pos).audio, |s.writer.audio|))
      .(writer := s.writer.(sized := true))
    case StoreSample =>
      var k := s.writer.filled;
      WithAudio(s, s.writer.pos, At(s, s.writer.pos).audio[k := s.writer.audio[k]])
      .(writer := s.writer.(filled := k + 1))
    case Publish => PublishStep(s)
    case Look =>
      if At(s, s.cursor).gen == Marker(s.cursor) then s.(reader := Matched)
      else s.(reader := Missed(s.published.Keys))
    case Feed => s.(reader := Fed(At(s, s.cursor).audio))
    case Write => s.(reader := Written(s.reader.fed, At(s, s.cursor).audio))
    case Clear =>
      Advance(Emptied(s), Played(s.cursor, s.reader.fed, s.reader.written))
      .(count := s.count.(played := s.count.played + 1))
    case Miss(receiving, queued, queuedAfter) => MissStep(s, c, receiving, queued, queuedAfter)
    case Resume =>
      s.(cursor := s.first, anchor := s.first, epoch := |s.log|, reader := Steer)
    case Drift(queued) =>
      if queued > c.targetFrames + 4 * c.framesPerPacket && At(s, s.cursor).gen == Marker(s.cursor)
      then s.(reader := DropMatched)
      else s.(reader := Top)
    case DropClear =>
      Advance(Emptied(s), Dropped(s.cursor))
      .(reader := Top, count := s.count.(dropped := s.count.dropped + 1))
  }

  /** Configure: an empty ring, both threads waiting for the first packet. */
  predicate Init(s: State) {
    && |s.ring| == SLOTS
    && (forall i :: 0 <= i < SLOTS ==> s.ring[i].gen == 0)
    && s.writer == Idle && s.reader == Parked && !s.haveFirst
    && s.anchor == s.cursor && s.epoch == 0
    && s.published == map[] && s.log == []
    && s.count == Counters(0, 0, 0, 0, 0, 0, 0, 0, 0)
  }

  datatype Run = Run(config: Config, states: seq<State>, steps: seq<Step>)

  ghost predicate StepAt(r: Run, i: int)
    requires 0 <= i < |r.steps| && |r.states| == |r.steps| + 1
  {
    Enabled(r.states[i], r.steps[i]) && r.states[i + 1] == Apply(r.states[i], r.config, r.steps[i])
  }

  ghost predicate IsRun(r: Run) {
    && |r.states| == |r.steps| + 1
    && Init(r.states[0])
    && forall i :: 0 <= i < |r.steps| ==> StepAt(r, i)
  }

  function Last(r: Run): State
    requires |r.states| > 0
  {
    r.states[|r.states| - 1]
  }

  lemma Go(r: Run, step: Step) returns (r': Run)
    requires IsRun(r) && Enabled(Last(r), step)
    ensures IsRun(r') && r'.config == r.config
    ensures r'.states == r.states + [Apply(Last(r), r.config, step)] && Last(r') == Apply(Last(r), r.config, step)
    ensures r'.steps == r.steps + [step]
  {
    r' := Run(r.config, r.states + [Apply(Last(r), r.config, step)], r.steps + [step]);
    forall i | 0 <= i < |r'.steps|
      ensures StepAt(r', i)
    {
      if i < |r.steps| {
        assert StepAt(r, i);
      }
    }
  }

  // ---------------------------------------------------------------- what a step does to the output

  /** The steps that move playout on by one position, the one at its cursor. */
  predicate Advances(s: State, c: Config, step: Step)
    requires Enabled(s, step)
  {
    || step.Clear? || step.DropClear?
    || (step.Miss? && step.receiving && MustConceal(s, c, step.queued, step.queuedAfter))
  }

  ghost predicate Plays(r: Run, i: int, p: int)
    requires IsRun(r) && 0 <= i < |r.steps|
  {
    r.steps[i] == Clear && r.states[i].cursor == p
  }

  ghost predicate Drops(r: Run, i: int, p: int)
    requires IsRun(r) && 0 <= i < |r.steps|
  {
    r.steps[i] == DropClear && r.states[i].cursor == p
  }

  ghost predicate Conceals(r: Run, i: int, p: int)
    requires IsRun(r) && 0 <= i < |r.steps|
  {
    && r.steps[i].Miss? && r.steps[i].receiving && r.states[i].cursor == p
    && |r.states[i].ring| == SLOTS
    && MustConceal(r.states[i], r.config, r.steps[i].queued, r.steps[i].queuedAfter)
  }

  ghost predicate Publishes(r: Run, k: int, p: int)
    requires IsRun(r) && 0 <= k < |r.steps|
  {
    r.steps[k] == Publish && r.states[k].writer.Busy? && r.states[k].writer.pos == p
  }

  // ---------------------------------------------------------------- window hypothesis

  /** The position playout is committed to: its cursor, or, while it is parked, the packet that
      re-anchors it (already published, or the one the writer is storing right now). */
  function Horizon(s: State): int {
    if !s.reader.Parked? then s.cursor
    else if s.haveFirst then s.first
    else if s.writer.Busy? then s.writer.pos
    else s.cursor
  }

  /** Packets further ahead than one ring are never in the ring at the same time as the cursor's. */
  function Reach(lead: nat): int {
    if lead <= SLOTS then lead else SLOTS
  }

  /** What the network has to guarantee. `late` and `lead` bound how far behind and ahead of
      playout a packet may be while it is being stored, a re-anchoring packet is not behind the
      cursor, and `age` bounds how old a marker left in the ring may get. */
  ghost predicate Fits(s: State, late: nat, lead: nat, age: int) {
    && |s.ring| == SLOTS
    && (s.writer.Busy? ==> Horizon(s) - late <= s.writer.pos < Horizon(s) + lead)
    && (s.reader.Parked? && !s.haveFirst && s.writer.Busy? ==> s.writer.pos >= s.cursor)
    && forall i :: 0 <= i < SLOTS && s.ring[i].gen != 0 ==>
         s.ring[i].pos >= Horizon(s) + Reach(lead) - age
  }

  ghost predicate FittingRun(r: Run, late: nat, lead: nat, age: int) {
    && IsRun(r)
    && forall i :: 0 <= i < |r.states| ==> Fits(r.states[i], late, lead, age)
  }

  /** The window under which the merge is seamless: late and early packets share one ring, and no
      marker survives a full 16-bit wrap. */
  ghost predicate Window(s: State, late: nat, lead: nat) {
    1 <= lead && late + lead <= SLOTS && Fits(s, late, lead, SEQ_RANGE)
  }
}
