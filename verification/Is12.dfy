/**
  BCP-008 status monitors behind the IS-12 control protocol (src/nmos/is12.cpp): four status
  domains with a 3 s reporting delay, an overall status, and the notifications that let a
  subscribed controller follow the object. Every public call is one mutex section, hence one step.
  `clock` and `Connection.received` are history; the code keeps neither.
*/
module Is12 {
  import opened Common

  /** BCP-008 defines 0 (inactive) to 3 (unhealthy); the code takes any int. */
  type Status = int


  const LINK: nat := 0
  const PATH: nat := 1
  const SYNC: nat := 2
  const STREAM: nat := 3

  const DELAY_MS: int := 3000
  const NOTHING: int := -1
  const COUNTER_RANGE: int := 0x1_0000_0000

  datatype Domain = Domain(status: Status, message: string, transitions: nat, pending: int, since: int)

  /** What never changes about a monitor. */
  datatype Identity = Identity(receiver: bool, role: string, caption: string, resourceType: string, resourceId: string)

  datatype Monitor = Monitor(
    oid: int, identity: Identity,
    domains: seq<Domain>, overall: Status, overallMessage: string, syncSource: Option<string>)

  datatype Value =
    | Number(n: int) | Text(t: string) | Truth(b: bool) | Null
    | ClassId(path: seq<int>) | Touchpoint(resourceType: string, resourceId: string)

  datatype Reply = Ok(value: Value) | Error(status: int)

  datatype Property = Property(oid: int, level: int, index: int)

  datatype Notification = Notification(property: Property, value: Value)

  /** First property index of a domain: status, then message, then transition counter. */
  function Base(d: nat): int
    requires d < 4
  {
    [1, 4, 7, 11][d]
  }

  predicate WellFormed(m: Monitor) {
    |m.domains| == 4
  }

  // ---------------------------------------------------------------- reading

  function SourceValue(source: Option<string>): Value {
    match source
    case None => Null
    case Some(id) => Text(id)
  }

  function GetDomainProperty(m: Monitor, index: int, d: nat): Option<Value>
    requires WellFormed(m) && d < 4
  {
    if index == Base(d) then Some(Number(m.domains[d].status))
    else if index == Base(d) + 1 then Some(Text(m.domains[d].message))
    else if index == Base(d) + 2 then Some(Number(m.domains[d].transitions))
    else None
  }

  /** NcObject: class, identity, owner, role, label, touchpoint. */
  function GetObjectProperty(m: Monitor, index: int): Reply {
    match index
    case 1 => Ok(ClassId(if m.identity.receiver then [1, 2, 2, 1] else [1, 2, 2, 2]))
    case 2 => Ok(Number(m.oid))
    case 3 => Ok(Truth(true))
    case 4 => Ok(Number(1))
    case 5 => Ok(Text(m.identity.role))
    case 6 => Ok(Text(m.identity.caption))
    case 7 => Ok(Touchpoint(m.identity.resourceType, m.identity.resourceId))
    case _ => Error(502)
  }

  /** The monitor part of GetProperty. */
  function GetProperty(m: Monitor, level: int, index: int): Reply
    requires WellFormed(m)
  {
    if level == 1 then GetObjectProperty(m, index)
    else if level == 2 && index == 1 then Ok(Truth(true))
    else if level == 3 then
      if index == 1 then Ok(Number(m.overall))
      else if index == 2 then Ok(Text(m.overallMessage))
      else if index == 3 then Ok(Number(3))
      else Error(502)
    else if level == 4 then
      if GetDomainProperty(m, index, 0).Some? then Ok(GetDomainProperty(m, index, 0).value)
      else if GetDomainProperty(m, index, 1).Some? then Ok(GetDomainProperty(m, index, 1).value)
      else if GetDomainProperty(m, index, 2).Some? then Ok(GetDomainProperty(m, index, 2).value)
      else if GetDomainProperty(m, index, 3).Some? then Ok(GetDomainProperty(m, index, 3).value)
      else if index == 10 then Ok(SourceValue(m.syncSource))
      else if index == 14 then Ok(Truth(true))
      else Error(502)
    else Error(502)
  }

  // ---------------------------------------------------------------- one monitor

  /** A monitor being changed and the notifications emitted so far. */
  datatype Change = Change(m: Monitor, notes: seq<Notification>)

  function Noted(c: Change, m: Monitor, level: int, index: int, v: Value): Change {
    Change(m, c.notes + [Notification(Property(m.oid, level, index), v)])
  }

  function WithDomain(m: Monitor, d: nat, domain: Domain): Monitor
    requires WellFormed(m) && d < 4
  {
    m.(domains := m.domains[d := domain])
  }

  function CountTransition(c: Change, d: nat): Change
    requires WellFormed(c.m) && d < 4
  {
    var n := (c.m.domains[d].transitions + 1) % COUNTER_RANGE;
    Noted(c, WithDomain(c.m, d, c.m.domains[d].(transitions := n)), 4, Base(d) + 2, Number(n))
  }

  function SetStatus(c: Change, d: nat, status: Status): Change
    requires WellFormed(c.m) && d < 4
  {
    if c.m.domains[d].status == status then c
    else
      var counted := if status > c.m.domains[d].status && c.m.domains[d].status != 0 then CountTransition(c, d) else c;
      Noted(counted, WithDomain(counted.m, d, counted.m.domains[d].(status := status)), 4, Base(d), Number(status))
  }

  function SetMessage(c: Change, d: nat, message: string): Change
    requires WellFormed(c.m) && d < 4
  {
    if c.m.domains[d].message == message then c
    else Noted(c, WithDomain(c.m, d, c.m.domains[d].(message := message)), 4, Base(d) + 1, Text(message))
  }

  /** The sync and stream domains do not count while they are unused. */
  predicate Unused(m: Monitor, d: nat)
    requires WellFormed(m) && d < 4
  {
    (d == SYNC || d == STREAM) && m.domains[d].status == 0
  }

  /** The loop over the remaining domains in RecomputeOverall: the first worst one wins. */
  function Worst(m: Monitor, order: seq<nat>): nat
    requires WellFormed(m) && |order| > 0 && forall i :: 0 <= i < |order| ==> order[i] < 4
    ensures exists i :: 0 <= i < |order| && Worst(m, order) == order[i]
  {
    if |order| == 1 then order[0]
    else
      var best := Worst(m, order[..|order| - 1]);
      var d := order[|order| - 1];
      if !Unused(m, d) && m.domains[d].status > m.domains[best].status then d else best
  }

  const ORDER: seq<nat> := [PATH, LINK, SYNC, STREAM]

  function OverallStatus(m: Monitor): Status
    requires WellFormed(m)
  {
    if m.domains[PATH].status == 0 then 0 else m.domains[Worst(m, ORDER)].status
  }

  function OverallMessage(m: Monitor): string
    requires WellFormed(m)
  {
    if m.domains[PATH].status == 0 then "" else m.domains[Worst(m, ORDER)].message
  }

  function Recomputed(c: Change): Change
    requires WellFormed(c.m)
  {
    var status, message := OverallStatus(c.m), OverallMessage(c.m);
    var c1 := if status == c.m.overall then c else Noted(c, c.m.(overall := status), 3, 1, Number(status));
    if message == c1.m.overallMessage then c1
    else Noted(c1, c1.m.(overallMessage := message), 3, 2, Text(message))
  }

  /** A request for a less healthy status is held back until it has persisted for the delay. */
  predicate HeldBack(domain: Domain, status: Status, now: int) {
    && status > 1 && status > domain.status
    && (domain.pending != status || now - domain.since < DELAY_MS)
  }

  function Pend(domain: Domain, status: Status, now: int): Domain {
    if domain.pending != status then domain.(pending := status, since := now) else domain
  }

  function UpdateDomain(m: Monitor, d: nat, status: Status, message: string, now: int): Change
    requires WellFormed(m) && d < 4
  {
    if HeldBack(m.domains[d], status, now) then
      Change(WithDomain(m, d, Pend(m.domains[d], status, now)), [])
    else
      var c := Change(WithDomain(m, d, m.domains[d].(pending := NOTHING)), []);
      Recomputed(SetMessage(SetStatus(c, d, status), d, message))
  }

  function SetSource(m: Monitor, source: Option<string>): Change {
    if m.syncSource == source then Change(m, [])
    else Noted(Change(m, []), m.(syncSource := source), 4, 10, SourceValue(source))
  }

  /** The reset methods: messages and counters, silently. */
  function ResetMonitor(m: Monitor): Monitor
    requires WellFormed(m)
  {
    m.(domains := seq(4, d requires 0 <= d < 4 => m.domains[d].(transitions := 0, message := "")))
  }

  // ---------------------------------------------------------------- the server

  datatype Connection = Connection(oids: set<int>, received: seq<Notification>)

  datatype Server = Server(monitors: seq<Monitor>, connections: map<nat, Connection>, clock: int)

  datatype Step =
    | Update(x: nat, d: nat, status: Status, message: string, now: int)
    | SyncSource(source: Option<string>, now: int)
    | Reset(x: nat, now: int)
    | Connect(conn: nat, now: int)
    | Subscribe(conn: nat, oids: seq<int>, now: int)
    | Disconnect(conn: nat, now: int)

  function For(notes: seq<Notification>, oids: set<int>): seq<Notification> {
    if notes == [] then []
    else
      var last := notes[|notes| - 1];
      For(notes[..|notes| - 1], oids) + (if last.property.oid in oids then [last] else [])
  }

  function Deliver(connections: map<nat, Connection>, notes: seq<Notification>): map<nat, Connection> {
    map c | c in connections :: connections[c].(received := connections[c].received + For(notes, connections[c].oids))
  }

  function Commit(s: Server, x: nat, c: Change): Server
    requires x < |s.monitors|
  {
    s.(monitors := s.monitors[x := c.m], connections := Deliver(s.connections, c.notes))
  }

  predicate ServerOk(s: Server) {
    && |s.monitors| == 2 && WellFormed(s.monitors[0]) && WellFormed(s.monitors[1])
    && s.monitors[0].oid == 10 && s.monitors[1].oid == 11
  }

  predicate Known(oid: int) {
    oid == 1 || oid == 10 || oid == 11
  }

  /** The clock is steady: it never goes backwards. */
  predicate Enabled(s: Server, step: Step) {
    && ServerOk(s) && s.clock <= step.now
    && match step
       case Update(x, d, _, _, _) => x < 2 && d < 4
       case Reset(x, _) => x < 2
       case _ => true
  }

  function Act(s: Server, step: Step): Server
    requires Enabled(s, step)
  {
    match step
    case Update(x, d, status, message, now) => Commit(s, x, UpdateDomain(s.monitors[x], d, status, message, now))
    case SyncSource(source, _) =>
      var t := Commit(s, 0, SetSource(s.monitors[0], source));
      Commit(t, 1, SetSource(t.monitors[1], source))
    case Reset(x, _) => s.(monitors := s.monitors[x := ResetMonitor(s.monitors[x])])
    case Connect(conn, _) => s.(connections := s.connections[conn := Connection({}, [])])
    case Subscribe(conn, oids, _) =>
      var accepted := set oid | oid in oids && Known(oid);
      var received := if conn in s.connections then s.connections[conn].received else [];
      s.(connections := s.connections[conn := Connection(accepted, received)])
    case Disconnect(conn, _) => s.(connections := s.connections - {conn})
  }

  function Apply(s: Server, step: Step): Server
    requires Enabled(s, step)
  {
    Act(s, step).(clock := step.now)
  }

  function NewMonitor(oid: int, identity: Identity): Monitor {
    var idle := Domain(0, "", 0, NOTHING, 0);
    Monitor(oid, identity, [idle.(status := 1), idle, idle, idle], 0, "", None)
  }

  function NewReceiverMonitor(id: string): Monitor {
    NewMonitor(10, Identity(true, "ReceiverMonitor", "receiver monitor", "receiver", id))
  }

  function NewSenderMonitor(id: string): Monitor {
    NewMonitor(11, Identity(false, "SenderMonitor", "sender monitor", "sender", id))
  }

  predicate Init(s: Server) {
    && |s.monitors| == 2 && s.connections == map[]
    && s.monitors[0] == NewReceiverMonitor(s.monitors[0].identity.resourceId)
    && s.monitors[1] == NewSenderMonitor(s.monitors[1].identity.resourceId)
  }

  /** A trace may start anywhere; a run starts at the constructor. */
  datatype Trace = Trace(states: seq<Server>, steps: seq<Step>)

  ghost predicate StepAt(r: Trace, i: int)
    requires 0 <= i < |r.steps| && |r.states| == |r.steps| + 1
  {
    Enabled(r.states[i], r.steps[i]) && r.states[i + 1] == Apply(r.states[i], r.steps[i])
  }

  ghost predicate IsTrace(r: Trace) {
    && |r.states| == |r.steps| + 1
    && ServerOk(r.states[0])
    && forall i :: 0 <= i < |r.steps| ==> StepAt(r, i)
  }

  ghost predicate IsRun(r: Trace) {
    IsTrace(r) && Init(r.states[0])
  }

  function Last(r: Trace): Server
    requires |r.states| > 0
  {
    r.states[|r.states| - 1]
  }

  lemma Go(r: Trace, step: Step) returns (r': Trace)
    requires IsRun(r) && Enabled(Last(r), step)
    ensures IsRun(r') && r'.steps == r.steps + [step]
    ensures r'.states == r.states + [Apply(Last(r), step)] && Last(r') == Apply(Last(r), step)
  {
    r' := Trace(r.states + [Apply(Last(r), step)], r.steps + [step]);
    forall i | 0 <= i < |r'.steps|
      ensures StepAt(r', i)
    {
      if i < |r.steps| {
        assert StepAt(r, i);
      }
    }
  }
}
