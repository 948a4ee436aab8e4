/**
  Session descriptions as src/rtp/sdp.cpp prints and parses them, and the sender's own
  description of itself (DescribeSession in src/rtp/rtpsender.cpp). Strings are real text, line by
  line and character by character; only the decimal notation of ptime is kept as an opaque token.
*/
module Sdp {
  import opened Common
  import opened SdpText

  type Port = p: int | 0 <= p < 65536

  datatype Leg = Leg(mid: string, multicast: string, source: string, port: Port)

  datatype Session = Session(
    name: string, legs: seq<Leg>, payloadType: int, rate: int, channels: int, bits: int,
    ptime: string, grandmaster: string, domain: int)

  const EMPTY: Session := Session("", [], 96, 48000, 2, 24, "1", "", 0)

  // ---------------------------------------------------------------- parsing

  /** The parser's variables: the session so far, the session-level address, the DUP group. The
      current leg is the last one; being inside a media section is having one. */
  datatype Reading = Reading(session: Session, connection: string, dupMids: seq<string>)

  function OnLeg(r: Reading, leg: Leg): Reading
    requires |r.session.legs| > 0
  {
    var n := |r.session.legs| - 1;
    r.(session := r.session.(legs := r.session.legs[n := leg]))
  }

  function CurrentLeg(r: Reading): Leg
    requires |r.session.legs| > 0
  {
    r.session.legs[|r.session.legs| - 1]
  }

  function Address(value: string, blank: nat): string
    requires blank < |value|
  {
    var addr := value[blank + 1..];
    addr[..Find(addr, '/', 0)]
  }

  function OnConnection(r: Reading, value: string): Reading {
    var blank := FindLast(value, ' ');
    if blank.None? then r
    else if |r.session.legs| > 0 then OnLeg(r, CurrentLeg(r).(multicast := Address(value, blank.value)))
    else r.(connection := Address(value, blank.value))
  }

  function MediaFormat(): seq<Directive> {
    Literals("audio") + ([Blank] + ([Int] + ([Blank] + (Literals("RTP/AVP") + ([Blank] + [Int])))))
  }

  function OnMedia(r: Reading, value: string): Reading {
    var v := Scan(MediaFormat(), value);
    if v == [] then r
    else
      var leg := Leg("", r.connection, "", v[0] % 65536);
      r.(session := r.session.(legs := r.session.legs + [leg], payloadType := if |v| > 1 then v[1] else 96))
  }

  function MapFormat(): seq<Directive> {
    Literals("rtpmap:")
    + ([Int] + ([Blank] + (Literals("L") + ([Int] + (Literals("/") + ([Int] + (Literals("/") + [Int])))))))
  }

  function OnMap(r: Reading, value: string): Reading {
    var v := Scan(MapFormat(), value);
    if |v| >= 3 && v[0] == r.session.payloadType then
      r.(session := r.session.(bits := v[1], rate := v[2], channels := if |v| > 3 && v[3] > 0 then v[3] else 1))
    else r
  }

  function OnClock(r: Reading, value: string): Reading
    requires |value| >= 14
  {
    var colon := Find(value, ':', 14);
    if colon == |value| then r
    else
      var rest := value[colon + 1..];
      var last := FindLast(rest, ':');
      if last.None? then r.(session := r.session.(grandmaster := rest))
      else r.(session := r.session.(grandmaster := rest[..last.value], domain := ParseInt(rest[last.value + 1..])))
  }

  function OnAttribute(r: Reading, value: string): Reading {
    if StartsWith(value, "group:DUP ") then r.(dupMids := r.dupMids + Words(value[10..]))
    else if StartsWith(value, "mid:") && |r.session.legs| > 0 then OnLeg(r, CurrentLeg(r).(mid := value[4..]))
    else if StartsWith(value, "rtpmap:") then OnMap(r, value)
    else if StartsWith(value, "ptime:") then r.(session := r.session.(ptime := value[6..]))
    else if StartsWith(value, "source-filter:") && |r.session.legs| > 0 then
      var blank := FindLast(value, ' ');
      if blank.None? then r else OnLeg(r, CurrentLeg(r).(source := value[blank.value + 1..]))
    else if StartsWith(value, "ts-refclk:ptp=") then OnClock(r, value)
    else r
  }

  /** One trimmed line. */
  function OnLine(r: Reading, line: string): Reading {
    if |line| < 2 || line[1] != '=' then r
    else
      var value := line[2..];
      if line[0] == 's' then r.(session := r.session.(name := value))
      else if line[0] == 'c' then OnConnection(r, value)
      else if line[0] == 'm' then OnMedia(r, value)
      else if line[0] == 'a' then OnAttribute(r, value)
      else r
  }

  function ReadLines(r: Reading, lines: seq<string>): Reading
    decreases |lines|
  {
    if lines == [] then r else ReadLines(OnLine(r, Trim(lines[0])), lines[1..])
  }

  function WithMid(legs: seq<Leg>, mid: string): seq<Leg> {
    if legs == [] then []
    else (if legs[0].mid == mid then [legs[0]] else []) + WithMid(legs[1..], mid)
  }

  function InGroupOrder(legs: seq<Leg>, mids: seq<string>): seq<Leg> {
    if mids == [] then [] else WithMid(legs, mids[0]) + InGroupOrder(legs, mids[1..])
  }

  function Finish(r: Reading): Option<Session> {
    if r.session.legs == [] then None
    else
      var ordered := if |r.dupMids| > 1 then InGroupOrder(r.session.legs, r.dupMids) else [];
      var legs := if ordered == [] then r.session.legs else ordered;
      Some(r.session.(legs := if |legs| > 2 then legs[..2] else legs))
  }

  function Start(): Reading {
    Reading(EMPTY, "", [])
  }

  function Parse(text: string): Option<Session> {
    Finish(ReadLines(Start(), Lines(text)))
  }

  lemma {:induction false} ReadAppend(r: Reading, lines: seq<string>, line: string)
    ensures ReadLines(r, lines + [line]) == OnLine(ReadLines(r, lines), Trim(line))
    decreases |lines|
  {
    if lines == [] {
      assert lines + [line] == [line];
      assert [line][1..] == [];
    } else {
      assert (lines + [line])[1..] == lines[1..] + [line];
      ReadAppend(OnLine(r, Trim(lines[0])), lines[1..], line);
    }
  }

  /** ParseSdp: the getline loop with its running variables, then the grouping. */
  method ParseSdp(text: string) returns (session: Option<Session>)
    ensures session == Parse(text)
  {
    var lines := Lines(text);
    var r := Start();
    var i := 0;
    while i < |lines|
      invariant 0 <= i <= |lines|
      invariant r == ReadLines(Start(), lines[..i])
    {
      assert lines[..i + 1] == lines[..i] + [lines[i]];
      ReadAppend(Start(), lines[..i], lines[i]);
      r := OnLine(r, Trim(lines[i]));
      i := i + 1;
    }
    assert lines[..i] == lines;
    session := Finish(r);
  }

  // ---------------------------------------------------------------- printing

  function SourceOf(s: Session, n: nat, origin: string, sources: seq<string>): string
    requires n < |s.legs|
  {
    if s.legs[n].source != [] then s.legs[n].source
    else if n < |sources| then sources[n]
    else origin
  }

  function Line(letter: char, value: string): string {
    [letter, '='] + value
  }

  function HeadLines(s: Session, sessionId: nat, origin: string): seq<string> {
    [Line('v', "0"),
     Line('o', "- " + Decimal(sessionId) + " " + Decimal(sessionId) + " IN IP4 " + origin),
     Line('s', s.name),
     Line('t', "0 0")]
  }

  function MidList(legs: seq<Leg>): string {
    if legs == [] then "" else " " + legs[0].mid + MidList(legs[1..])
  }

  function GroupLines(s: Session): seq<string> {
    if |s.legs| > 1 then [Line('a', "group:DUP" + MidList(s.legs))] else []
  }

  function MediaValue(port: int, payloadType: int): string {
    "audio" + (" " + (Printed(port) + (" " + ("RTP/AVP" + (" " + Printed(payloadType))))))
  }

  function Encoding(bits: int, rate: int, channels: int): string {
    Printed(bits) + ("/" + (Printed(rate) + ("/" + Printed(channels))))
  }

  function MapValue(s: Session): string {
    "rtpmap:" + (Printed(s.payloadType) + (" " + ("L" + Encoding(s.bits, s.rate, s.channels))))
  }

  function FilterValue(multicast: string, source: string): string {
    ("source-filter:" + (" incl IN IP4 " + multicast)) + " " + source
  }

  function ClockValue(grandmaster: string, domain: int): string {
    "ts-refclk:ptp=" + "IEEE1588-2008" + ":" + (grandmaster + ":" + Printed(domain))
  }

  function ClockLines(s: Session): seq<string> {
    if s.grandmaster != [] then [Line('a', ClockValue(s.grandmaster, s.domain))] else []
  }

  function MidLines(s: Session, leg: Leg): seq<string> {
    if |s.legs| > 1 then [Line('a', "mid:" + leg.mid)] else []
  }

  function LegLines(s: Session, n: nat, origin: string, sources: seq<string>): seq<string>
    requires n < |s.legs|
  {
    var leg := s.legs[n];
    [Line('m', MediaValue(leg.port, s.payloadType)),
     Line('c', "IN IP4" + " " + (leg.multicast + "/32")),
     Line('a', FilterValue(leg.multicast, SourceOf(s, n, origin, sources))),
     Line('a', MapValue(s)),
     Line('a', "ptime:" + s.ptime),
     Line('a', "recvonly")]
    + ClockLines(s)
    + [Line('a', "mediaclk:direct=0")]
    + MidLines(s, leg)
  }

  function LegsLines(s: Session, n: nat, origin: string, sources: seq<string>): seq<string>
    requires n <= |s.legs|
  {
    if n == 0 then [] else LegsLines(s, n - 1, origin, sources) + LegLines(s, n - 1, origin, sources)
  }

  lemma LegsStep(s: Session, n: nat, origin: string, sources: seq<string>)
    requires n < |s.legs|
    ensures LegsLines(s, n + 1, origin, sources) == LegsLines(s, n, origin, sources) + LegLines(s, n, origin, sources)
  {
  }

  function AllLines(s: Session, sessionId: nat, origin: string, sources: seq<string>): seq<string> {
    HeadLines(s, sessionId, origin) + GroupLines(s) + LegsLines(s, |s.legs|, origin, sources)
  }

  function Generate(s: Session, sessionId: nat, origin: string, sources: seq<string>): string {
    Join(AllLines(s, sessionId, origin, sources))
  }

  /** GenerateSdp: the loop over the legs; every line is ended by CR LF. */
  method GenerateSdp(s: Session, sessionId: nat, origin: string, sources: seq<string>) returns (text: string)
    ensures text == Generate(s, sessionId, origin, sources)
  {
    var head := HeadLines(s, sessionId, origin) + GroupLines(s);
    var legs: seq<string> := [];
    var n := 0;
    while n < |s.legs|
      invariant 0 <= n <= |s.legs|
      invariant legs == LegsLines(s, n, origin, sources)
    {
      legs := legs + LegLines(s, n, origin, sources);
      n := n + 1;
    }
    text := Join(head + legs);
  }

  // ---------------------------------------------------------------- the sender's description

  datatype SenderLeg = SenderLeg(multicast: string, source: string, enabled: bool)

  datatype SenderConfig = SenderConfig(
    title: string, sourceName: string, payloadType: int, ptime: string, grandmaster: string,
    port: Port, legs: seq<SenderLeg>)

  function EnabledLegs(legs: seq<SenderLeg>): nat {
    if legs == [] then 0 else EnabledLegs(legs[..|legs| - 1]) + (if legs[|legs| - 1].enabled then 1 else 0)
  }

  function DescribedLegs(c: SenderConfig, n: nat): seq<Leg>
    requires n <= |c.legs|
  {
    if n == 0 then []
    else
      var leg := c.legs[n - 1];
      var mid := if EnabledLegs(c.legs) > 1 then (if n - 1 == 0 then "PRI" else "SEC") else "";
      DescribedLegs(c, n - 1) + (if leg.enabled then [Leg(mid, leg.multicast, leg.source, c.port)] else [])
  }

  function Described(c: SenderConfig): Session {
    EMPTY.(name := if c.title == [] then "pi-audio-node " + c.sourceName else c.title,
           payloadType := c.payloadType, ptime := c.ptime, grandmaster := c.grandmaster,
           legs := DescribedLegs(c, |c.legs|))
  }

  /** DescribeSession: count the enabled legs, then list them. */
  method DescribeSession(c: SenderConfig) returns (s: Session)
    ensures s == Described(c)
  {
    s := EMPTY.(name := if c.title == [] then "pi-audio-node " + c.sourceName else c.title,
                payloadType := c.payloadType, ptime := c.ptime, grandmaster := c.grandmaster);
    var enabled, n := 0, 0;
    while n < |c.legs|
      invariant 0 <= n <= |c.legs| && enabled == EnabledLegs(c.legs[..n])
    {
      assert c.legs[..n + 1][..n] == c.legs[..n];
      if c.legs[n].enabled {
        enabled := enabled + 1;
      }
      n := n + 1;
    }
    assert c.legs[..n] == c.legs;
    var legs := [];
    n := 0;
    while n < |c.legs|
      invariant 0 <= n <= |c.legs| && legs == DescribedLegs(c, n)
    {
      if c.legs[n].enabled {
        var mid := if enabled > 1 then (if n == 0 then "PRI" else "SEC") else "";
        legs := legs + [Leg(mid, c.legs[n].multicast, c.legs[n].source, c.port)];
      }
      n := n + 1;
    }
    s := s.(legs := legs);
  }
}
