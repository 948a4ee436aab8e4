/** ParseSdp undoes GenerateSdp, on text, line by line and character by character. */
module SdpRoundTrip {
  import opened Common
  import opened SdpText
  import opened Sdp

  predicate OneLine(s: string) {
    '\n' !in s
  }

  /** What an address must be to survive: no line breaks, and nothing the parser cuts off or cuts at. */
  predicate GroupOk(multicast: string) {
    OneLine(multicast) && ' ' !in multicast && '/' !in multicast
  }

  predicate SourceOk(source: string) {
    OneLine(source) && ' ' !in source && Clean(source)
  }

  predicate LegOk(leg: Leg) {
    GroupOk(leg.multicast) && SourceOk(leg.source) && leg.source != []
  }

  /** One leg, or two with names; text that stays on its line. */
  predicate TextOk(s: Session) {
    && OneLine(s.name) && OneLine(s.ptime) && Clean(s.ptime) && OneLine(s.grandmaster)
    && (|s.legs| == 1 || |s.legs| == 2)
    && (|s.legs| == 2 ==> IsWord(s.legs[0].mid) && IsWord(s.legs[1].mid))
  }

  /** A session that comes back as it is. */
  predicate SessionOk(s: Session) {
    && TextOk(s) && Clean(s.name) && s.channels >= 1
    && (s.grandmaster == [] ==> s.domain == 0)
    && (forall i :: 0 <= i < |s.legs| ==> LegOk(s.legs[i]))
    && (|s.legs| == 1 ==> s.legs[0].mid == "")
  }

  // ---------------------------------------------------------------- lines without the line ends

  /** The parser on lines that need no trimming. */
  function Interpret(r: Reading, lines: seq<string>): Reading
    decreases |lines|
  {
    if lines == [] then r else Interpret(OnLine(r, lines[0]), lines[1..])
  }

  lemma {:induction false} InterpretConcat(r: Reading, a: seq<string>, b: seq<string>)
    ensures Interpret(r, a + b) == Interpret(Interpret(r, a), b)
    decreases |a|
  {
    if a == [] {
      assert a + b == b;
    } else {
      assert (a + b)[1..] == a[1..] + b;
      InterpretConcat(OnLine(r, a[0]), a[1..], b);
    }
  }

  lemma InterpretOne(r: Reading, line: string)
    ensures Interpret(r, [line]) == OnLine(r, line)
  {
    assert [line][1..] == [];
  }

  predicate OriginLine(line: string) {
    |line| >= 2 && line[0] == 'o' && line[1] == '='
  }

  lemma {:induction false} TrimKeeps(s: string, k: nat)
    requires k < |s| && !IsTrimmed(s[k])
    ensures |Trim(s)| > k && Trim(s)[..k + 1] == s[..k + 1]
  {
    if IsTrimmed(s[|s| - 1]) {
      TrimKeeps(s[..|s| - 1], k);
    }
  }

  lemma TrimmedAlike(r: Reading, line: string)
    requires Clean(line) || OriginLine(line)
    ensures OnLine(r, Trim(line + "\r")) == OnLine(r, line)
  {
    if Clean(line) {
      TrimCr(line);
    } else {
      var s := line + "\r";
      TrimKeeps(s, 1);
      assert Trim(s)[0] == s[..2][0] && Trim(s)[1] == s[..2][1];
    }
  }

  lemma {:induction false} ReadIsInterpret(r: Reading, lines: seq<string>)
    requires forall i :: 0 <= i < |lines| ==> Clean(lines[i]) || OriginLine(lines[i])
    ensures ReadLines(r, WithCr(lines)) == Interpret(r, lines)
    decreases |lines|
  {
    if lines != [] {
      TrimmedAlike(r, lines[0]);
      assert WithCr(lines)[1..] == WithCr(lines[1..]);
      ReadIsInterpret(OnLine(r, lines[0]), lines[1..]);
    }
  }

  // ---------------------------------------------------------------- line by line

  lemma LineRead(r: Reading, letter: char, value: string)
    ensures OnLine(r, Line(letter, value)) ==
            if letter == 's' then r.(session := r.session.(name := value))
            else if letter == 'c' then OnConnection(r, value)
            else if letter == 'm' then OnMedia(r, value)
            else if letter == 'a' then OnAttribute(r, value)
            else r
  {
    assert Line(letter, value)[2..] == value;
  }

  lemma DiffersAt(value: string, prefix: string, k: nat)
    requires k < |value| && k < |prefix| && value[k] != prefix[k]
    ensures !StartsWith(value, prefix)
  {
  }

  /** The last c of a text is the one before a tail without any. */
  lemma {:induction false} LastAt(front: string, c: char, tail: string)
    requires c !in tail
    ensures FindLast(front + [c] + tail, c) == Some(|front|)
    ensures (front + [c] + tail)[|front| + 1..] == tail && (front + [c] + tail)[..|front|] == front
  {
    var s := front + [c] + tail;
    if tail != [] {
      var n := |tail| - 1;
      LastAt(front, c, tail[..n]);
      assert s[..|s| - 1] == front + [c] + tail[..n];
      assert s[|s| - 1] == tail[n];
    }
  }

  /** The first c after a prefix is the one after a middle without any. */
  lemma FirstAfter(prefix: string, middle: string, c: char, tail: string)
    requires c !in middle
    ensures Find(prefix + middle + [c] + tail, c, |prefix|) == |prefix| + |middle|
    ensures (prefix + middle + [c] + tail)[|prefix| + |middle| + 1..] == tail
  {
    var s := prefix + middle + [c] + tail;
    assert s[|prefix| + |middle|] == c;
    assert forall k :: |prefix| <= k < |prefix| + |middle| ==> s[k] in middle;
  }

  lemma MediaScan(port: int, pt: int)
    ensures Scan(MediaFormat(), MediaValue(port, pt)) == [port, pt]
  {
    var p, q := Printed(port), Printed(pt);
    PrintedForm(port);
    PrintedForm(pt);
    var f4 := [Blank] + [Int];
    var f3 := Literals("RTP/AVP") + f4;
    var f1 := [Int] + ([Blank] + f3);
    var s3 := "RTP/AVP" + (" " + q);
    var s1 := p + (" " + s3);
    ScanLiterals("audio", [Blank] + f1, " " + s1);
    assert s1[0] == p[0];
    ScanBlank(f1, s1);
    ScanNumber(port, [Blank] + f3, " " + s3);
    ScanBlank(f3, s3);
    ScanLiterals("RTP/AVP", f4, " " + q);
    ScanBlank([Int], q);
    ScanLast(pt);
  }

  lemma MediaRead(r: Reading, port: Port, pt: int)
    ensures OnMedia(r, MediaValue(port, pt))
            == r.(session := r.session.(legs := r.session.legs + [Leg("", r.connection, "", port)], payloadType := pt))
  {
    MediaScan(port, pt);
  }

  function EncodingFormat(): seq<Directive> {
    [Int] + (Literals("/") + ([Int] + (Literals("/") + [Int])))
  }

  lemma EncodingScan(bits: int, rate: int, channels: int)
    ensures Scan(EncodingFormat(), Encoding(bits, rate, channels)) == [bits, rate, channels]
  {
    var f3: seq<Directive> := [Int];
    var f2 := [Int] + (Literals("/") + f3);
    var s3 := Printed(channels);
    var s2 := Printed(rate) + ("/" + s3);
    ScanNumber(bits, Literals("/") + f2, "/" + s2);
    ScanLiterals("/", f2, s2);
    ScanNumber(rate, Literals("/") + f3, "/" + s3);
    ScanLiterals("/", f3, s3);
    ScanLast(channels);
  }

  lemma MapScan(pt: int, encoding: string)
    ensures Scan(MapFormat(), "rtpmap:" + (Printed(pt) + (" " + ("L" + encoding))))
            == [pt] + Scan(EncodingFormat(), encoding)
  {
    var f3 := Literals("L") + EncodingFormat();
    var f1 := [Int] + ([Blank] + f3);
    var s3 := "L" + encoding;
    ScanLiterals("rtpmap:", f1, Printed(pt) + (" " + s3));
    ScanNumber(pt, [Blank] + f3, " " + s3);
    ScanBlank(f3, s3);
    ScanLiterals("L", EncodingFormat(), encoding);
  }

  /** A channel count that is not positive comes back as one. */
  function Counted(channels: int): int {
    if channels > 0 then channels else 1
  }

  lemma MapRead(r: Reading, s: Session)
    ensures OnMap(r, MapValue(s)) ==
            if r.session.payloadType == s.payloadType
            then r.(session := r.session.(bits := s.bits, rate := s.rate, channels := Counted(s.channels)))
            else r
  {
    MapScan(s.payloadType, Encoding(s.bits, s.rate, s.channels));
    EncodingScan(s.bits, s.rate, s.channels);
  }

  lemma MapAttribute(r: Reading, rest: string)
    ensures OnAttribute(r, "rtpmap:" + rest) == OnMap(r, "rtpmap:" + rest)
  {
    var value := "rtpmap:" + rest;
    DiffersAt(value, "group:DUP ", 0);
    DiffersAt(value, "mid:", 0);
    StartsWithSelf("rtpmap:", rest);
  }

  /** The address is what follows the last blank, up to the slash. */
  lemma AddressRead(address: string)
    requires ' ' !in address && '/' !in address
    ensures FindLast("IN IP4" + " " + (address + "/32"), ' ') == Some(6)
    ensures Address("IN IP4" + " " + (address + "/32"), 6) == address
  {
    var tail := address + "/32";
    NoBlank(address);
    LastAt("IN IP4", ' ', tail);
    SlashCut(address);
    assert ("IN IP4" + [' '] + tail)[7..] == tail;
  }

  lemma NoBlank(address: string)
    requires ' ' !in address
    ensures ' ' !in address + "/32"
  {
  }

  lemma SlashCut(address: string)
    requires '/' !in address
    ensures Find(address + "/32", '/', 0) == |address| && (address + "/32")[..|address|] == address
  {
    var s := address + "/32";
    assert s[|address|] == '/';
    assert forall k :: 0 <= k < |address| ==> s[k] == address[k];
  }

  lemma ConnectionRead(r: Reading, multicast: string)
    requires |r.session.legs| > 0 && ' ' !in multicast && '/' !in multicast
    ensures OnConnection(r, "IN IP4" + " " + (multicast + "/32")) == OnLeg(r, CurrentLeg(r).(multicast := multicast))
  {
    AddressRead(multicast);
  }

  lemma FilterRead(r: Reading, multicast: string, source: string)
    requires |r.session.legs| > 0 && ' ' !in source
    ensures OnAttribute(r, FilterValue(multicast, source)) == OnLeg(r, CurrentLeg(r).(source := source))
  {
    var front := "source-filter:" + (" incl IN IP4 " + multicast);
    var value := front + [' '] + source;
    assert value == FilterValue(multicast, source);
    DiffersAt(value, "group:DUP ", 0);
    DiffersAt(value, "mid:", 0);
    DiffersAt(value, "rtpmap:", 0);
    DiffersAt(value, "ptime:", 0);
    assert value[..14] == front[..14] == "source-filter:";
    LastAt(front, ' ', source);
  }

  lemma PtimeRead(r: Reading, ptime: string)
    ensures OnAttribute(r, "ptime:" + ptime) == r.(session := r.session.(ptime := ptime))
  {
    var value := "ptime:" + ptime;
    DiffersAt(value, "group:DUP ", 0);
    DiffersAt(value, "mid:", 0);
    DiffersAt(value, "rtpmap:", 0);
    StartsWithSelf("ptime:", ptime);
  }

  lemma MidRead(r: Reading, mid: string)
    requires |r.session.legs| > 0
    ensures OnAttribute(r, "mid:" + mid) == OnLeg(r, CurrentLeg(r).(mid := mid))
  {
    var value := "mid:" + mid;
    DiffersAt(value, "group:DUP ", 0);
    StartsWithSelf("mid:", mid);
  }

  lemma RecvOnly(r: Reading)
    ensures OnAttribute(r, "recvonly") == r
  {
    var a := "recvonly";
    DiffersAt(a, "group:DUP ", 0);
    DiffersAt(a, "mid:", 0);
    DiffersAt(a, "rtpmap:", 1);
    DiffersAt(a, "ptime:", 0);
  }

  lemma DirectClock(r: Reading)
    ensures OnAttribute(r, "mediaclk:direct=0") == r
  {
    var b := "mediaclk:direct=0";
    DiffersAt(b, "group:DUP ", 0);
    DiffersAt(b, "mid:", 1);
    DiffersAt(b, "rtpmap:", 0);
    DiffersAt(b, "ptime:", 0);
    DiffersAt(b, "source-filter:", 0);
    DiffersAt(b, "ts-refclk:ptp=", 0);
  }

  /** Colons inside the grandmaster identity survive: only the first one after the profile and the
      last one before the domain are separators. */
  lemma ClockRead(r: Reading, grandmaster: string, domain: int)
    ensures OnClock(r, ClockValue(grandmaster, domain))
            == r.(session := r.session.(grandmaster := grandmaster, domain := domain))
  {
    var d := Printed(domain);
    PrintedForm(domain);
    var rest := grandmaster + ":" + d;
    FirstAfter("ts-refclk:ptp=", "IEEE1588-2008", ':', rest);
    LastAt(grandmaster, ':', d);
    assert d + [] == d;
    ScanPrinted(domain, []);
  }

  lemma ClockAttribute(r: Reading, rest: string)
    ensures OnAttribute(r, "ts-refclk:ptp=" + rest) == OnClock(r, "ts-refclk:ptp=" + rest)
  {
    var value := "ts-refclk:ptp=" + rest;
    DiffersAt(value, "group:DUP ", 0);
    DiffersAt(value, "mid:", 0);
    DiffersAt(value, "rtpmap:", 0);
    DiffersAt(value, "ptime:", 0);
    DiffersAt(value, "source-filter:", 0);
    StartsWithSelf("ts-refclk:ptp=", rest);
  }

  lemma GroupRead(r: Reading, words: string)
    ensures OnAttribute(r, "group:DUP" + (" " + words)) == r.(dupMids := r.dupMids + Words(words))
  {
    assert "group:DUP" + (" " + words) == "group:DUP " + words;
    StartsWithSelf("group:DUP ", words);
  }

  // ---------------------------------------------------------------- one leg

  /** What has been read after the head and n complete legs. */
  function Progress(s: Session, n: nat): Session
    requires n <= |s.legs|
  {
    if n == 0 then EMPTY.(name := s.name) else s.(legs := s.legs[..n])
  }

  /** The four lines that fill in a leg, on a session whose other fields are `base`. */
  lemma LegFields(r: Reading, s: Session, leg: Leg)
    requires SessionOk(s) && LegOk(leg)
    ensures var lines := [Line('m', MediaValue(leg.port, s.payloadType)),
                          Line('c', "IN IP4" + " " + (leg.multicast + "/32")),
                          Line('a', FilterValue(leg.multicast, leg.source)),
                          Line('a', MapValue(s))];
            Interpret(r, lines)
            == r.(session := r.session.(
                    legs := r.session.legs + [Leg("", leg.multicast, leg.source, leg.port)],
                    payloadType := s.payloadType, bits := s.bits, rate := s.rate, channels := s.channels))
  {
    var l0, l1 := Line('m', MediaValue(leg.port, s.payloadType)), Line('c', "IN IP4" + " " + (leg.multicast + "/32"));
    var l2, l3 := Line('a', FilterValue(leg.multicast, leg.source)), Line('a', MapValue(s));
    LineRead(r, 'm', MediaValue(leg.port, s.payloadType));
    MediaRead(r, leg.port, s.payloadType);
    var r1 := OnLine(r, l0);
    LineRead(r1, 'c', "IN IP4" + " " + (leg.multicast + "/32"));
    ConnectionRead(r1, leg.multicast);
    var r2 := OnLine(r1, l1);
    LineRead(r2, 'a', FilterValue(leg.multicast, leg.source));
    FilterRead(r2, leg.multicast, leg.source);
    var r3 := OnLine(r2, l2);
    LineRead(r3, 'a', MapValue(s));
    MapAttribute(r3, Printed(s.payloadType) + (" " + ("L" + Encoding(s.bits, s.rate, s.channels))));
    MapRead(r3, s);
    FourLines(r, l0, l1, l2, l3);
  }

  lemma FourLines(r: Reading, a: string, b: string, c: string, d: string)
    ensures Interpret(r, [a, b, c, d]) == OnLine(OnLine(OnLine(OnLine(r, a), b), c), d)
  {
    InterpretConcat(r, [a], [b, c, d]);
    InterpretOne(r, a);
    ThreeLines(OnLine(r, a), b, c, d);
    assert [a] + [b, c, d] == [a, b, c, d];
  }

  lemma ThreeLines(r: Reading, b: string, c: string, d: string)
    ensures Interpret(r, [b, c, d]) == OnLine(OnLine(OnLine(r, b), c), d)
  {
    assert [b, c, d] == [b] + ([c] + [d]);
    InterpretConcat(r, [b], [c] + [d]);
    InterpretOne(r, b);
    InterpretConcat(OnLine(r, b), [c], [d]);
    InterpretOne(OnLine(r, b), c);
    InterpretOne(OnLine(OnLine(r, b), c), d);
  }

  lemma PtimeLines(r: Reading, s: Session)
    ensures Interpret(r, [Line('a', "ptime:" + s.ptime), Line('a', "recvonly")])
            == r.(session := r.session.(ptime := s.ptime))
  {
    var a, b := Line('a', "ptime:" + s.ptime), Line('a', "recvonly");
    LineRead(r, 'a', "ptime:" + s.ptime);
    PtimeRead(r, s.ptime);
    LineRead(OnLine(r, a), 'a', "recvonly");
    RecvOnly(OnLine(r, a));
    InterpretOne(r, a);
    InterpretOne(OnLine(r, a), b);
    InterpretConcat(r, [a], [b]);
    assert [a] + [b] == [a, b];
  }

  lemma ClockText(grandmaster: string, domain: int)
    ensures ClockValue(grandmaster, domain)
            == "ts-refclk:ptp=" + ("IEEE1588-2008" + ":" + (grandmaster + ":" + Printed(domain)))
  {
  }

  lemma ClockLinesRead(r: Reading, s: Session)
    ensures Interpret(r, ClockLines(s))
            == if s.grandmaster == [] then r
               else r.(session := r.session.(grandmaster := s.grandmaster, domain := s.domain))
  {
    if s.grandmaster != [] {
      var value := ClockValue(s.grandmaster, s.domain);
      var rest := "IEEE1588-2008" + ":" + (s.grandmaster + ":" + Printed(s.domain));
      InterpretOne(r, Line('a', value));
      LineRead(r, 'a', value);
      ClockText(s.grandmaster, s.domain);
      ClockAttribute(r, rest);
      ClockRead(r, s.grandmaster, s.domain);
    }
  }

  lemma TailLinesRead(r: Reading, s: Session, leg: Leg)
    requires |r.session.legs| > 0
    ensures Interpret(r, [Line('a', "mediaclk:direct=0")] + MidLines(s, leg))
            == if |s.legs| > 1 then OnLeg(r, CurrentLeg(r).(mid := leg.mid)) else r
  {
    var direct := [Line('a', "mediaclk:direct=0")];
    InterpretConcat(r, direct, MidLines(s, leg));
    InterpretOne(r, direct[0]);
    LineRead(r, 'a', "mediaclk:direct=0");
    DirectClock(r);
    if |s.legs| > 1 {
      InterpretOne(r, Line('a', "mid:" + leg.mid));
      LineRead(r, 'a', "mid:" + leg.mid);
      MidRead(r, leg.mid);
    }
  }

  /** Reading one printed leg adds exactly that leg. */
  lemma LegRead(r: Reading, s: Session, n: nat, origin: string, sources: seq<string>)
    requires SessionOk(s) && n < |s.legs| && r.session == Progress(s, n)
    ensures Interpret(r, LegLines(s, n, origin, sources)) == r.(session := Progress(s, n + 1))
  {
    var leg := s.legs[n];
    var fields := [Line('m', MediaValue(leg.port, s.payloadType)),
                   Line('c', "IN IP4" + " " + (leg.multicast + "/32")),
                   Line('a', FilterValue(leg.multicast, leg.source)),
                   Line('a', MapValue(s))];
    var ptime := [Line('a', "ptime:" + s.ptime), Line('a', "recvonly")];
    var clock := ClockLines(s);
    var tail := [Line('a', "mediaclk:direct=0")] + MidLines(s, leg);
    assert LegLines(s, n, origin, sources) == fields + (ptime + (clock + tail));
    InterpretConcat(r, fields, ptime + (clock + tail));
    LegFields(r, s, leg);
    var r1 := Interpret(r, fields);
    InterpretConcat(r1, ptime, clock + tail);
    PtimeLines(r1, s);
    var r2 := Interpret(r1, ptime);
    InterpretConcat(r2, clock, tail);
    ClockLinesRead(r2, s);
    var r3 := Interpret(r2, clock);
    TailLinesRead(r3, s, leg);
    LegAdded(r, r3, s, n);
  }

  lemma LegAdded(r: Reading, r3: Reading, s: Session, n: nat)
    requires SessionOk(s) && n < |s.legs| && r.session == Progress(s, n)
    requires r3.connection == r.connection && r3.dupMids == r.dupMids
    requires var leg := s.legs[n];
             var base := r.session.(legs := r.session.legs + [leg.(mid := "")],
                           payloadType := s.payloadType, bits := s.bits, rate := s.rate, channels := s.channels,
                           ptime := s.ptime);
             r3.session == if s.grandmaster == [] then base else base.(grandmaster := s.grandmaster, domain := s.domain)
    ensures |r3.session.legs| > 0
    ensures (if |s.legs| > 1 then OnLeg(r3, CurrentLeg(r3).(mid := s.legs[n].mid)) else r3)
            == r.(session := Progress(s, n + 1))
  {
    assert s.legs[..n + 1] == s.legs[..n] + [s.legs[n]];
    var t := (if |s.legs| > 1 then OnLeg(r3, CurrentLeg(r3).(mid := s.legs[n].mid)) else r3).session;
    assert r.session.legs == s.legs[..n];
    assert t.legs == s.legs[..n + 1];
    assert t == s.(legs := s.legs[..n + 1]);
  }

  lemma {:induction false} LegsRead(r: Reading, s: Session, n: nat, origin: string, sources: seq<string>)
    requires SessionOk(s) && n <= |s.legs| && r.session == Progress(s, 0)
    ensures Interpret(r, LegsLines(s, n, origin, sources)) == r.(session := Progress(s, n))
  {
    if n > 0 {
      LegsRead(r, s, n - 1, origin, sources);
      InterpretConcat(r, LegsLines(s, n - 1, origin, sources), LegLines(s, n - 1, origin, sources));
      LegRead(Interpret(r, LegsLines(s, n - 1, origin, sources)), s, n - 1, origin, sources);
    }
  }

  // ---------------------------------------------------------------- head and group

  lemma HeadRead(s: Session, sessionId: nat, origin: string)
    ensures Interpret(Start(), HeadLines(s, sessionId, origin)) == Reading(EMPTY.(name := s.name), "", [])
  {
    var r := Start();
    var o := "- " + Decimal(sessionId) + " " + Decimal(sessionId) + " IN IP4 " + origin;
    LineRead(r, 'v', "0");
    LineRead(r, 'o', o);
    LineRead(r, 's', s.name);
    LineRead(Reading(EMPTY.(name := s.name), "", []), 't', "0 0");
    FourLines(r, Line('v', "0"), Line('o', o), Line('s', s.name), Line('t', "0 0"));
  }

  lemma GroupLinesRead(r: Reading, s: Session)
    requires SessionOk(s)
    ensures Interpret(r, GroupLines(s))
            == if |s.legs| == 2 then r.(dupMids := r.dupMids + [s.legs[0].mid, s.legs[1].mid]) else r
  {
    if |s.legs| == 2 {
      var a, b := s.legs[0].mid, s.legs[1].mid;
      var words := a + " " + b;
      assert s.legs[1..] == [s.legs[1]] && [s.legs[1]][1..] == [];
      assert MidList([s.legs[1]]) == " " + b;
      assert MidList(s.legs) == " " + a + (" " + b) == " " + words;
      InterpretOne(r, Line('a', "group:DUP" + (" " + words)));
      LineRead(r, 'a', "group:DUP" + (" " + words));
      GroupRead(r, words);
      TwoWords(a, b);
    }
  }

  /** The DUP group lists both legs in order, so grouping changes nothing. */
  lemma FinishRead(s: Session)
    requires SessionOk(s)
    ensures var mids := if |s.legs| == 2 then [s.legs[0].mid, s.legs[1].mid] else [];
            Finish(Reading(s, "", mids)) == Some(s)
  {
    if |s.legs| == 2 {
      var a, b := s.legs[0], s.legs[1];
      PairWithMid(a, b, a.mid);
      PairWithMid(a, b, b.mid);
      assert s.legs == [a, b];
      var ordered := InGroupOrder(s.legs, [a.mid, b.mid]);
      TwoMids(s.legs, a.mid, b.mid);
      if a.mid == b.mid {
        assert ordered == [a, b] + [a, b];
        assert ordered[..2] == s.legs;
      } else {
        assert ordered == [a] + [b] == s.legs;
      }
    }
  }

  lemma TwoMids(legs: seq<Leg>, m: string, n: string)
    ensures InGroupOrder(legs, [m, n]) == WithMid(legs, m) + WithMid(legs, n)
  {
    assert [m, n][1..] == [n] && [n][1..] == [];
    assert InGroupOrder(legs, []) == [];
    assert InGroupOrder(legs, [n]) == WithMid(legs, n);
  }

  lemma PairWithMid(a: Leg, b: Leg, mid: string)
    ensures WithMid([a, b], mid) == (if a.mid == mid then [a] else []) + (if b.mid == mid then [b] else [])
  {
    assert [a, b][1..] == [b] && [b][1..] == [];
    assert WithMid([], mid) == [];
    assert WithMid([b], mid) == if b.mid == mid then [b] else [];
  }

  // ---------------------------------------------------------------- well-behaved lines

  predicate LineOk(line: string) {
    OneLine(line) && (Clean(line) || OriginLine(line))
  }

  predicate LinesOk(lines: seq<string>) {
    forall i :: 0 <= i < |lines| ==> LineOk(lines[i])
  }

  lemma ConcatFits(a: seq<string>, b: seq<string>)
    requires LinesOk(a) && LinesOk(b)
    ensures LinesOk(a + b)
  {
  }

  /** A printed line is one line, and untouched by trimming: the value ends in a visible character. */
  lemma LineFits(letter: char, front: string, last: string)
    requires letter != '\n' && OneLine(front) && OneLine(last) && Clean(last)
    requires last == [] ==> Clean(front)
    ensures LineOk(Line(letter, front + last))
  {
    var line := Line(letter, front + last);
    assert line == ([letter, '='] + front) + last;
    assert line[|line| - 1] == if last != [] then last[|last| - 1] else if front != [] then front[|front| - 1] else '=';
  }

  lemma PrintedFits(n: int)
    ensures OneLine(Printed(n)) && Clean(Printed(n))
  {
    PrintedForm(n);
  }

  lemma HeadFits(s: Session, sessionId: nat, origin: string)
    requires SessionOk(s) && OneLine(origin)
    ensures LinesOk(HeadLines(s, sessionId, origin))
  {
    DecimalDigits(sessionId);
    assert OneLine(Decimal(sessionId)) by {
      assert forall c :: c in Decimal(sessionId) ==> IsDigit(c);
    }
    var o := "- " + Decimal(sessionId) + " " + Decimal(sessionId) + " IN IP4 " + origin;
    assert OneLine(Line('o', o)) && OriginLine(Line('o', o));
    LineFits('v', "", "0");
    LineFits('s', "", s.name);
    LineFits('t', "", "0 0");
    assert "" + s.name == s.name && "" + "0" == "0" && "" + "0 0" == "0 0";
  }

  lemma WordFits(w: string)
    requires IsWord(w)
    ensures OneLine(w) && Clean(w)
  {
    assert forall c :: c in w ==> !IsSpace(c);
  }

  lemma GroupFits(s: Session)
    requires SessionOk(s)
    ensures LinesOk(GroupLines(s))
  {
    if |s.legs| == 2 {
      var a, b := s.legs[0].mid, s.legs[1].mid;
      WordFits(a);
      WordFits(b);
      assert s.legs[1..] == [s.legs[1]] && [s.legs[1]][1..] == [];
      assert MidList([s.legs[1]]) == " " + b;
      var front := "group:DUP" + (" " + a + " ");
      assert "group:DUP" + MidList(s.legs) == front + b;
      LineFits('a', front, b);
    }
  }

  lemma MediaFits(port: int, pt: int)
    ensures LineOk(Line('m', MediaValue(port, pt)))
  {
    PrintedFits(port);
    PrintedFits(pt);
    var front := "audio" + (" " + (Printed(port) + (" " + ("RTP/AVP" + " "))));
    assert front + Printed(pt) == MediaValue(port, pt);
    LineFits('m', front, Printed(pt));
  }

  lemma ConnectionFits(multicast: string)
    requires OneLine(multicast)
    ensures LineOk(Line('c', "IN IP4" + " " + (multicast + "/32")))
  {
    var front := "IN IP4" + " " + multicast;
    assert front + "/32" == "IN IP4" + " " + (multicast + "/32");
    LineFits('c', front, "/32");
  }

  lemma FilterFits(multicast: string, source: string)
    requires OneLine(multicast) && OneLine(source) && source != [] && Clean(source)
    ensures LineOk(Line('a', FilterValue(multicast, source)))
  {
    LineFits('a', ("source-filter:" + (" incl IN IP4 " + multicast)) + " ", source);
  }

  lemma MapFits(s: Session)
    ensures LineOk(Line('a', MapValue(s)))
  {
    PrintedFits(s.payloadType);
    PrintedFits(s.bits);
    PrintedFits(s.rate);
    PrintedFits(s.channels);
    var front := "rtpmap:"
                 + (Printed(s.payloadType) + (" " + ("L" + (Printed(s.bits) + ("/" + (Printed(s.rate) + "/"))))));
    assert front + Printed(s.channels) == MapValue(s);
    LineFits('a', front, Printed(s.channels));
  }

  lemma ClockFits(s: Session)
    requires SessionOk(s)
    ensures LinesOk(ClockLines(s))
  {
    PrintedFits(s.domain);
    var front := "ts-refclk:ptp=" + "IEEE1588-2008" + ":" + (s.grandmaster + ":");
    assert front + Printed(s.domain) == ClockValue(s.grandmaster, s.domain);
    LineFits('a', front, Printed(s.domain));
  }

  lemma MidFits(s: Session, n: nat)
    requires SessionOk(s) && n < |s.legs|
    ensures LinesOk(MidLines(s, s.legs[n]))
  {
    if |s.legs| == 2 {
      WordFits(s.legs[n].mid);
      LineFits('a', "mid:", s.legs[n].mid);
    }
  }

  lemma FixedFits()
    ensures LineOk(Line('a', "recvonly")) && LineOk(Line('a', "mediaclk:direct=0"))
  {
    LineFits('a', "", "recvonly");
    LineFits('a', "", "mediaclk:direct=0");
    assert "" + "recvonly" == "recvonly" && "" + "mediaclk:direct=0" == "mediaclk:direct=0";
  }

  function FieldLines(s: Session, leg: Leg): seq<string> {
    [Line('m', MediaValue(leg.port, s.payloadType)),
     Line('c', "IN IP4" + " " + (leg.multicast + "/32")),
     Line('a', FilterValue(leg.multicast, leg.source)),
     Line('a', MapValue(s)),
     Line('a', "ptime:" + s.ptime),
     Line('a', "recvonly")]
  }

  lemma FieldsFit(s: Session, leg: Leg)
    requires OneLine(s.ptime) && Clean(s.ptime) && LegOk(leg)
    ensures LinesOk(FieldLines(s, leg))
  {
    MediaFits(leg.port, s.payloadType);
    ConnectionFits(leg.multicast);
    FilterFits(leg.multicast, leg.source);
    MapFits(s);
    LineFits('a', "ptime:", s.ptime);
    FixedFits();
  }

  lemma LegFits(s: Session, n: nat, origin: string, sources: seq<string>)
    requires SessionOk(s) && n < |s.legs|
    ensures LinesOk(LegLines(s, n, origin, sources))
  {
    var leg := s.legs[n];
    var fields, direct := FieldLines(s, leg), [Line('a', "mediaclk:direct=0")];
    FieldsFit(s, leg);
    FixedFits();
    ClockFits(s);
    MidFits(s, n);
    assert LegLines(s, n, origin, sources) == fields + ClockLines(s) + direct + MidLines(s, leg);
    ConcatFits(fields, ClockLines(s));
    ConcatFits(fields + ClockLines(s), direct);
    ConcatFits(fields + ClockLines(s) + direct, MidLines(s, leg));
  }

  lemma {:induction false} LegsFit(s: Session, n: nat, origin: string, sources: seq<string>)
    requires SessionOk(s) && n <= |s.legs|
    ensures LinesOk(LegsLines(s, n, origin, sources))
  {
    if n > 0 {
      LegsFit(s, n - 1, origin, sources);
      LegFits(s, n - 1, origin, sources);
      ConcatFits(LegsLines(s, n - 1, origin, sources), LegLines(s, n - 1, origin, sources));
      LegsStep(s, n - 1, origin, sources);
    } else {
      assert LegsLines(s, 0, origin, sources) == [];
    }
  }

  // ---------------------------------------------------------------- the round trip

  lemma AllRead(s: Session, sessionId: nat, origin: string, sources: seq<string>)
    requires SessionOk(s)
    ensures Interpret(Start(), AllLines(s, sessionId, origin, sources))
            == Reading(s, "", if |s.legs| == 2 then [s.legs[0].mid, s.legs[1].mid] else [])
  {
    var head, group := HeadLines(s, sessionId, origin), GroupLines(s);
    var legs := LegsLines(s, |s.legs|, origin, sources);
    InterpretConcat(Start(), head + group, legs);
    InterpretConcat(Start(), head, group);
    HeadRead(s, sessionId, origin);
    var r1 := Interpret(Start(), head);
    GroupLinesRead(r1, s);
    var r2 := Interpret(r1, group);
    LegsRead(r2, s, |s.legs|, origin, sources);
    assert s.legs[..|s.legs|] == s.legs;
  }

  lemma AllFit(s: Session, sessionId: nat, origin: string, sources: seq<string>)
    requires SessionOk(s) && OneLine(origin)
    ensures LinesOk(AllLines(s, sessionId, origin, sources))
  {
    HeadFits(s, sessionId, origin);
    GroupFits(s);
    LegsFit(s, |s.legs|, origin, sources);
    ConcatFits(HeadLines(s, sessionId, origin), GroupLines(s));
    ConcatFits(HeadLines(s, sessionId, origin) + GroupLines(s), LegsLines(s, |s.legs|, origin, sources));
  }

  /** ParseSdp of GenerateSdp is the session itself, whatever the session number, the origin and the
      positional source list: every leg keeps its own group, source and place. */
  lemma RoundTrip(s: Session, sessionId: nat, origin: string, sources: seq<string>)
    requires SessionOk(s) && OneLine(origin)
    ensures Parse(Generate(s, sessionId, origin, sources)) == Some(s)
  {
    var lines := AllLines(s, sessionId, origin, sources);
    AllFit(s, sessionId, origin, sources);
    LinesOfJoin(lines);
    ReadIsInterpret(Start(), lines);
    AllRead(s, sessionId, origin, sources);
    FinishRead(s);
  }
}
