/**
  The PTP slave of src/ptp/ptpclient.cpp as a state machine: every mutex section is one step.
  The foreign master table, the selected master, Sync/Follow_Up pairing and the delay
  request-response exchange (section 11.3 of IEEE 1588-2008) share one state.

  std::map iteration is modelled by an arbitrary enumeration of the table, so nothing below
  depends on the iteration order. `epoch`, `accepted` and `since` are history.
*/
module PtpState {
  import opened Common
  import opened Bmca
  import opened Servo


  datatype Note = NoNote | IsSelected | OnlyBlue | NotQualified | LosesTo(winner: ClockIdentity, field: Field)

  datatype Foreign = Foreign(dataset: Dataset, announces: nat, blue: nat, lastSeen: int, selected: bool, note: Note)

  type Table = map<PortIdentity, Foreign>

  datatype State = State(
    table: Table, selected: Option<PortIdentity>,
    awaiting: bool, syncSeq: nat, syncRx: nat, lastSync: int, syncCount: nat,
    delaySeq: nat, delayTx: nat, servo: Servo,
    epoch: nat, accepted: nat, since: seq<real>)

  datatype Step =
    | Announce(ds: Dataset, net: nat, now: int, best: Option<PortIdentity>)
    | Age(now: int, drops: seq<PortIdentity>, bests: seq<Option<PortIdentity>>)
    | SetDomain
    | Sync(clock: ClockIdentity, twoStep: bool, seqNo: nat, origin: nat, rx: nat, now: int)
    | FollowUp(clock: ClockIdentity, seqNo: nat, origin: nat)
    | DelayReq(tx: nat)
    | DelayResp(seqNo: nat, received: nat)

  const ANNOUNCE_TIMEOUT_MS: int := 6000
  const SYNC_TIMEOUT_MS: int := 5000

  /** double(int64_t(a - b)) on unsigned 64-bit times. */
  function Difference(a: nat, b: nat): int {
    var m := (a - b) % 0x1_0000_0000_0000_0000;
    if m >= 0x8000_0000_0000_0000 then m - 0x1_0000_0000_0000_0000 else m
  }

  // ---------------------------------------------------------------- master selection

  predicate Qualified(t: Table, id: PortIdentity) {
    id in t && t[id].announces >= 2
  }

  /** RunBmca's first loop: one pass, keeping the better of the current best and each entry. */
  function Scan(t: Table, order: seq<PortIdentity>): (best: Option<PortIdentity>)
    requires forall id :: id in order ==> id in t
    ensures best.Some? ==> best.value in t
  {
    if order == [] then None
    else
      var last := order[|order| - 1];
      var best := Scan(t, order[..|order| - 1]);
      if !Qualified(t, last) then best
      else if best.None? || CompareDatasets(t[last].dataset, t[best.value].dataset).result < 0 then Some(last)
      else best
  }

  /** `best` is what some pass over the table, in some order, comes up with. */
  ghost predicate Elects(t: Table, best: Option<PortIdentity>) {
    exists order :: Enumerates(order, t.Keys) && Scan(t, order) == best
  }

  ghost predicate Enumerates(order: seq<PortIdentity>, keys: set<PortIdentity>) {
    && (forall id :: id in order <==> id in keys)
    && forall i, j :: 0 <= i < j < |order| ==> order[i] != order[j]
  }

  function NoteFor(t: Table, best: Option<PortIdentity>, id: PortIdentity): Note
    requires id in t && (best.Some? ==> best.value in t)
  {
    var f := t[id];
    if best == Some(id) then IsSelected
    else if f.announces == 0 && f.blue > 0 then OnlyBlue
    else if f.announces < 2 then NotQualified
    else if best.Some? then
      LosesTo(best.value.clock, CompareDatasets(t[best.value].dataset, f.dataset).field)
    else f.note
  }

  /** RunBmca's second loop. */
  function Annotated(t: Table, best: Option<PortIdentity>): Table
    requires best.Some? ==> best.value in t
  {
    map id | id in t :: t[id].(selected := best == Some(id), note := NoteFor(t, best, id))
  }

  /** A change of master restarts pairing, delay and window; losing the last one loses sync. */
  function Switched(s: State, best: Option<PortIdentity>): State {
    if best == s.selected then s
    else
      s.(selected := best, awaiting := false, epoch := s.epoch + 1,
         servo := s.servo.(haveDelay := false, window := [], synced := s.servo.synced && best.Some?),
         since := if best.Some? then s.since else [])
  }

  /** RunBmca with the outcome of its scan. */
  function Reselect(s: State, best: Option<PortIdentity>): State
    requires best.Some? ==> best.value in s.table
  {
    Switched(s.(table := Annotated(s.table, best)), best)
  }

  function Heard(t: Table, ds: Dataset, net: nat, now: int): Table {
    var f := if ds.source in t then t[ds.source] else Foreign(ds, 0, 0, now, false, NoNote);
    t[ds.source :=
      if net == 0 then f.(dataset := ds, announces := f.announces + 1, lastSeen := now)
      else f.(dataset := if f.announces == 0 then ds else f.dataset, blue := f.blue + 1, lastSeen := now)]
  }

  predicate Expired(t: Table, now: int, id: PortIdentity) {
    id in t && now - t[id].lastSeen > ANNOUNCE_TIMEOUT_MS
  }

  /** The ageing loop: one erasure after another, each followed by RunBmca. */
  ghost predicate CanDrop(s: State, drops: seq<PortIdentity>, bests: seq<Option<PortIdentity>>)
    decreases |drops|
  {
    && |drops| == |bests|
    && (drops != [] ==>
          && drops[0] in s.table
          && Elects(s.table - {drops[0]}, bests[0])
          && (bests[0].Some? ==> bests[0].value in s.table - {drops[0]})
          && CanDrop(Reselect(s.(table := s.table - {drops[0]}), bests[0]), drops[1..], bests[1..]))
  }

  function Dropped(s: State, drops: seq<PortIdentity>, bests: seq<Option<PortIdentity>>): State
    requires CanDrop(s, drops, bests)
    decreases |drops|
  {
    if drops == [] then s
    else Dropped(Reselect(s.(table := s.table - {drops[0]}), bests[0]), drops[1..], bests[1..])
  }

  function SyncSilence(s: State, now: int): State {
    if s.servo.synced && now - s.lastSync > SYNC_TIMEOUT_MS then
      s.(servo := s.servo.(synced := false, window := []), since := [])
    else s
  }

  // ---------------------------------------------------------------- measurements

  /** CompleteMeasurement with the raw master-to-slave difference. */
  function Measured(s: State, raw: int): State {
    var x := raw as real + Correction(s.servo);
    s.(servo := AddSample(s.servo, x), syncCount := s.syncCount + 1, since := s.since + [x])
  }

  predicate AcceptsSync(s: State, clock: ClockIdentity) {
    s.selected.Some? && clock == s.selected.value.clock
  }

  predicate AcceptsFollowUp(s: State, clock: ClockIdentity, seqNo: nat) {
    s.awaiting && s.selected.Some? && clock == s.selected.value.clock && seqNo == s.syncSeq
  }

  function SyncStep(s: State, clock: ClockIdentity, twoStep: bool, seqNo: nat, origin: nat, rx: nat, now: int): State {
    if !AcceptsSync(s, clock) then s
    else
      var t := s.(lastSync := now, syncSeq := seqNo, syncRx := rx, accepted := s.accepted + 1);
      if twoStep then t.(awaiting := true) else Measured(t, Difference(origin, rx))
  }

  function FollowUpStep(s: State, clock: ClockIdentity, seqNo: nat, origin: nat): State {
    if AcceptsFollowUp(s, clock, seqNo) then Measured(s.(awaiting := false), Difference(origin, s.syncRx))
    else s
  }

  function DelayReqStep(s: State, tx: nat): State {
    s.(delaySeq := (s.delaySeq + 1) % SEQ_RANGE, delayTx := tx)
  }

  function DelayRespStep(s: State, seqNo: nat, received: nat): State {
    if seqNo != s.delaySeq then s
    else s.(servo := AddDelay(s.servo, Difference(received, s.delayTx) as real))
  }

  /** SetDomain: the pending-Follow_Up flag is not among the things it resets. */
  function DomainStep(s: State): State {
    s.(table := map[], selected := None, epoch := s.epoch + 1, since := [],
       servo := s.servo.(synced := false, haveDelay := false, window := []))
  }

  // ---------------------------------------------------------------- steps and runs

  ghost predicate Enabled(s: State, step: Step) {
    match step
    case Announce(ds, net, now, best) =>
      net < 2 && Elects(Heard(s.table, ds, net, now), best)
      && (best.Some? ==> best.value in Heard(s.table, ds, net, now))
    case Age(now, drops, bests) =>
      CanDrop(s, drops, bests) && forall id :: id in drops <==> Expired(s.table, now, id)
    case _ => true
  }

  function Apply(s: State, step: Step): State
    requires Enabled(s, step)
  {
    match step
    case Announce(ds, net, now, best) => Reselect(s.(table := Heard(s.table, ds, net, now)), best)
    case Age(now, drops, bests) => SyncSilence(Dropped(s, drops, bests), now)
    case SetDomain => DomainStep(s)
    case Sync(clock, twoStep, seqNo, origin, rx, now) => SyncStep(s, clock, twoStep, seqNo, origin, rx, now)
    case FollowUp(clock, seqNo, origin) => FollowUpStep(s, clock, seqNo, origin)
    case DelayReq(tx) => DelayReqStep(s, tx)
    case DelayResp(seqNo, received) => DelayRespStep(s, seqNo, received)
  }

  predicate Init(s: State) {
    && s.table == map[] && s.selected == None && !s.awaiting && s.syncCount == 0
    && s.delaySeq == 0 && s.delayTx == 0
    && s.servo.window == [] && !s.servo.synced && !s.servo.haveDelay
    && s.accepted == 0 && s.since == []
  }

  datatype Run = Run(states: seq<State>, steps: seq<Step>)

  ghost predicate StepAt(r: Run, i: int)
    requires 0 <= i < |r.steps| && |r.states| == |r.steps| + 1
  {
    Enabled(r.states[i], r.steps[i]) && r.states[i + 1] == Apply(r.states[i], r.steps[i])
  }

  ghost predicate IsRun(r: Run) {
    && |r.states| == |r.steps| + 1
    && Init(r.states[0])
    && forall i :: 0 <= i < |r.steps| ==> StepAt(r, i)
  }

  function Last(r: Run): State
    requires |r.states| > 0
  {
    r.states[|r.states| - 1]
  }

  lemma Go(r: Run, step: Step) returns (r': Run)
    requires IsRun(r) && Enabled(Last(r), step)
    ensures IsRun(r') && r'.steps == r.steps + [step]
    ensures r'.states == r.states + [Apply(Last(r), step)] && Last(r') == Apply(Last(r), step)
  {
    r' := Run(r.states + [Apply(Last(r), step)], r.steps + [step]);
    forall i | 0 <= i < |r'.steps|
      ensures StepAt(r', i)
    {
      if i < |r.steps| {
        assert StepAt(r, i);
      }
    }
  }
}
