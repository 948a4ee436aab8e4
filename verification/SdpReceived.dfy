/**
  What ParseSdp makes of GenerateSdp when the session does not come back as it is: names with
  blanks, legs without a source, no channels, a domain without a grandmaster; and what that means
  for the session a sender describes.
*/
module SdpReceived {
  import opened Common
  import opened SdpText
  import opened Sdp
  import opened SdpRoundTrip

  // ---------------------------------------------------------------- sessions that do not come back as they are

  /** What the parser takes for the source: an empty one leaves a blank at the end of the line,
      which is trimmed, so that the last word is the group, or the address type before it. */
  function FilterSource(multicast: string, source: string): (r: string)
    ensures r != []
  {
    if source != [] then source else if Trim(multicast) != [] then Trim(multicast) else "IP4"
  }

  function ReceivedLeg(s: Session, n: nat, origin: string, sources: seq<string>): Leg
    requires n < |s.legs|
  {
    s.legs[n].(mid := if |s.legs| > 1 then s.legs[n].mid else "",
               source := FilterSource(s.legs[n].multicast, SourceOf(s, n, origin, sources)))
  }

  /** What a receiver makes of a session. */
  function Received(s: Session, origin: string, sources: seq<string>): (t: Session)
    ensures |t.legs| == |s.legs|
    ensures forall i :: 0 <= i < |s.legs| ==> t.legs[i] == ReceivedLeg(s, i, origin, sources)
  {
    s.(name := Trim(s.name), channels := Counted(s.channels), domain := if s.grandmaster == [] then 0 else s.domain,
       legs := seq(|s.legs|, i requires 0 <= i < |s.legs| => ReceivedLeg(s, i, origin, sources)))
  }

  lemma {:induction false} TrimAfter(front: string, s: string)
    requires front != [] && Clean(front)
    ensures Trim(front + s) == front + Trim(s)
    decreases |s|
  {
    var t := front + s;
    if s == [] {
      assert t == front;
    } else {
      assert t[|t| - 1] == s[|s| - 1] && t[..|t| - 1] == front + s[..|s| - 1];
      if IsTrimmed(s[|s| - 1]) {
        TrimAfter(front, s[..|s| - 1]);
      }
    }
  }

  lemma {:induction false} TrimIsClean(s: string)
    ensures Clean(Trim(s)) && (Trim(s) == s <==> Clean(s)) && Trim(s) <= s
  {
    if s != [] && IsTrimmed(s[|s| - 1]) {
      TrimIsClean(s[..|s| - 1]);
    }
  }

  lemma TrimTwice(s: string)
    ensures Trim(s + "\r") == Trim(s) == Trim(Trim(s) + "\r")
  {
    TrimIsClean(s);
    TrimCr(Trim(s));
    assert (s + "\r")[..|s|] == s;
  }

  /** The parser makes the same of two printed lines, whatever it has read before. */
  ghost predicate Alike(a: string, b: string) {
    forall r :: OnLine(r, Trim(a + "\r")) == OnLine(r, Trim(b + "\r"))
  }

  ghost predicate AllAlike(a: seq<string>, b: seq<string>) {
    |a| == |b| && forall i :: 0 <= i < |a| ==> Alike(a[i], b[i])
  }

  lemma {:induction false} ReadAlike(r: Reading, a: seq<string>, b: seq<string>)
    requires AllAlike(a, b)
    ensures ReadLines(r, WithCr(a)) == ReadLines(r, WithCr(b))
    decreases |a|
  {
    if a != [] {
      assert Alike(a[0], b[0]);
      assert WithCr(a)[1..] == WithCr(a[1..]) && WithCr(b)[1..] == WithCr(b[1..]);
      ReadAlike(OnLine(r, Trim(a[0] + "\r")), a[1..], b[1..]);
    }
  }

  lemma ConcatAlike(a: seq<string>, b: seq<string>, a': seq<string>, b': seq<string>)
    requires AllAlike(a, b) && AllAlike(a', b')
    ensures AllAlike(a + a', b + b')
  {
    forall i | 0 <= i < |a + a'|
      ensures Alike((a + a')[i], (b + b')[i])
    {
      if i < |a| {
        assert Alike(a[i], b[i]);
      } else {
        assert Alike(a'[i - |a|], b'[i - |a|]);
      }
    }
  }

  lemma SameAlike(a: seq<string>)
    ensures AllAlike(a, a)
  {
  }

  lemma OneAlike(a: string, b: string)
    requires Alike(a, b)
    ensures AllAlike([a], [b])
  {
  }

  /** Blanks at the end of a name are printed but never parsed. */
  lemma NameAlike(name: string)
    ensures Alike(Line('s', name), Line('s', Trim(name)))
  {
    var front := ['s', '='];
    assert Line('s', name) + "\r" == front + (name + "\r");
    assert Line('s', Trim(name)) + "\r" == front + (Trim(name) + "\r");
    TrimAfter(front, name + "\r");
    TrimAfter(front, Trim(name) + "\r");
    TrimTwice(name);
  }

  /** The rtpmap line of a session without channels reads like that of one with a single channel. */
  lemma MapAlike(s: Session, t: Session)
    requires t.payloadType == s.payloadType && t.bits == s.bits && t.rate == s.rate && t.channels == Counted(s.channels)
    ensures Alike(Line('a', MapValue(s)), Line('a', MapValue(t)))
  {
    forall r
      ensures OnLine(r, Trim(Line('a', MapValue(s)) + "\r")) == OnLine(r, Trim(Line('a', MapValue(t)) + "\r"))
    {
      MapLineRead(r, s);
      MapLineRead(r, t);
    }
  }

  lemma MapLineRead(r: Reading, s: Session)
    ensures OnLine(r, Trim(Line('a', MapValue(s)) + "\r")) == OnMap(r, MapValue(s))
    ensures OnMap(r, MapValue(s)) ==
            if r.session.payloadType == s.payloadType
            then r.(session := r.session.(bits := s.bits, rate := s.rate, channels := Counted(s.channels)))
            else r
  {
    MapFits(s);
    TrimmedAlike(r, Line('a', MapValue(s)));
    LineRead(r, 'a', MapValue(s));
    MapAttribute(r, Printed(s.payloadType) + (" " + ("L" + Encoding(s.bits, s.rate, s.channels))));
    MapRead(r, s);
  }

  function FilterFront(): string {
    "source-filter:" + " incl IN"
  }

  /** A source-filter line whose last word is w. */
  lemma FilterLast(r: Reading, middle: string, w: string)
    requires ' ' !in w
    ensures OnAttribute(r, FilterFront() + middle + " " + w)
            == if |r.session.legs| > 0 then OnLeg(r, CurrentLeg(r).(source := w)) else r
  {
    var front := FilterFront() + middle;
    var value := front + [' '] + w;
    DiffersAt(value, "group:DUP ", 0);
    DiffersAt(value, "mid:", 0);
    DiffersAt(value, "rtpmap:", 0);
    DiffersAt(value, "ptime:", 0);
    DiffersAt(value, "ts-refclk:ptp=", 0);
    assert value[..14] == "source-filter:";
    LastAt(front, ' ', w);
  }

  lemma FilterSplit(multicast: string, source: string)
    ensures FilterValue(multicast, source) == FilterFront() + (" IP4 " + multicast) + " " + source
  {
    var a := FilterValue(multicast, source);
    var b := FilterFront() + (" IP4 " + multicast) + " " + source;
    assert "source-filter:" + " incl IN IP4 " == FilterFront() + " IP4 ";
    assert a == ("source-filter:" + " incl IN IP4 ") + multicast + " " + source;
    assert b == (FilterFront() + " IP4 ") + multicast + " " + source;
  }

  lemma CutBack(front: string, s: string)
    requires front != [] && Clean(front)
    ensures Trim((front + (" " + s + " ")) + "\r") == front + (if Trim(s) != [] then " " + Trim(s) else [])
  {
    TrimTwice(front + (" " + s + " "));
    TrimAfter(front, " " + s + " ");
    TrimBlank(s);
  }

  lemma Regroup(a: string, s: string)
    ensures Line('a', a + (" IP4 " + s) + " " + "") == Line('a', a + " IP4") + (" " + s + " ")
    ensures Line('a', a + " IP4") + (" " + s) == Line('a', a + " IP4" + " " + s)
    ensures Line('a', a + " IP4") + [] == Line('a', a + "" + " " + "IP4")
    ensures Clean(Line('a', a + " IP4"))
  {
    var line := Line('a', a + " IP4");
    assert line[|line| - 1] == '4';
    assert " IP4 " + s == " IP4" + (" " + s);
  }

  /** Without a source the line ends in a blank, and the parser sees it cut back to its last word. */
  lemma FilterCut(multicast: string)
    ensures Trim(Line('a', FilterValue(multicast, "")) + "\r")
            == if Trim(multicast) != [] then Line('a', FilterFront() + " IP4" + " " + Trim(multicast))
               else Line('a', FilterFront() + "" + " " + "IP4")
  {
    FilterSplit(multicast, "");
    Regroup(FilterFront(), multicast);
    Regroup(FilterFront(), Trim(multicast));
    CutBack(Line('a', FilterFront() + " IP4"), multicast);
  }

  lemma TrimBlank(s: string)
    ensures Trim(" " + s + " ") == if Trim(s) != [] then " " + Trim(s) else []
  {
    var t := " " + s;
    assert (t + " ")[..|t|] == t;
    assert Trim(t + " ") == Trim(t);
    TrimPadded(s);
  }

  lemma {:induction false} TrimPadded(s: string)
    ensures Trim(" " + s) == if Trim(s) != [] then " " + Trim(s) else []
  {
    var t := " " + s;
    if s == [] {
      assert t[..0] == [];
    } else if IsTrimmed(s[|s| - 1]) {
      assert t[..|t| - 1] == " " + s[..|s| - 1];
      TrimPadded(s[..|s| - 1]);
    }
  }

  lemma NoBlankInside(s: string)
    requires ' ' !in s
    ensures ' ' !in Trim(s)
  {
    TrimIsClean(s);
  }

  lemma EmptyFilterRead(r: Reading, multicast: string)
    requires GroupOk(multicast)
    ensures OnLine(r, Trim(Line('a', FilterValue(multicast, "")) + "\r"))
            == if |r.session.legs| > 0 then OnLeg(r, CurrentLeg(r).(source := FilterSource(multicast, ""))) else r
  {
    FilterCut(multicast);
    NoBlankInside(multicast);
    if Trim(multicast) != [] {
      LineRead(r, 'a', FilterFront() + " IP4" + " " + Trim(multicast));
      FilterLast(r, " IP4", Trim(multicast));
    } else {
      LineRead(r, 'a', FilterFront() + "" + " " + "IP4");
      FilterLast(r, "", "IP4");
    }
  }

  lemma FullFilterRead(r: Reading, multicast: string, source: string)
    requires GroupOk(multicast) && SourceOk(source) && source != []
    ensures OnLine(r, Trim(Line('a', FilterValue(multicast, source)) + "\r"))
            == if |r.session.legs| > 0 then OnLeg(r, CurrentLeg(r).(source := source)) else r
  {
    FilterFits(multicast, source);
    TrimmedAlike(r, Line('a', FilterValue(multicast, source)));
    LineRead(r, 'a', FilterValue(multicast, source));
    FilterSplit(multicast, source);
    FilterLast(r, " IP4 " + multicast, source);
  }

  lemma FilterSourceFits(multicast: string, source: string)
    requires GroupOk(multicast) && SourceOk(source)
    ensures SourceOk(FilterSource(multicast, source))
  {
    TrimIsClean(multicast);
    NoBlankInside(multicast);
  }

  lemma FilterAlike(multicast: string, source: string)
    requires GroupOk(multicast) && SourceOk(source)
    ensures Alike(Line('a', FilterValue(multicast, source)),
                  Line('a', FilterValue(multicast, FilterSource(multicast, source))))
  {
    FilterSourceFits(multicast, source);
    if source == [] {
      forall r
        ensures OnLine(r, Trim(Line('a', FilterValue(multicast, source)) + "\r"))
                == OnLine(r, Trim(Line('a', FilterValue(multicast, FilterSource(multicast, source))) + "\r"))
      {
        EmptyFilterRead(r, multicast);
        FullFilterRead(r, multicast, FilterSource(multicast, source));
      }
    }
  }

  // ---------------------------------------------------------------- the general round trip

  /** Everything the printer is given stays on its line and holds no separator of the parser. */
  predicate Usable(s: Session, origin: string, sources: seq<string>) {
    && TextOk(s) && OneLine(origin)
    && forall n :: 0 <= n < |s.legs| ==> GroupOk(s.legs[n].multicast) && SourceOk(SourceOf(s, n, origin, sources))
  }

  lemma ReceivedFits(s: Session, origin: string, sources: seq<string>)
    requires Usable(s, origin, sources)
    ensures SessionOk(Received(s, origin, sources))
  {
    var t := Received(s, origin, sources);
    TrimIsClean(s.name);
    assert OneLine(t.name);
    forall i | 0 <= i < |t.legs|
      ensures LegOk(t.legs[i])
    {
      assert t.legs[i] == ReceivedLeg(s, i, origin, sources);
      FilterSourceFits(s.legs[i].multicast, SourceOf(s, i, origin, sources));
    }
  }

  /** The lines of a leg that do not depend on its source or on the channel count. */
  function RestLines(s: Session, leg: Leg): seq<string> {
    [Line('a', "ptime:" + s.ptime), Line('a', "recvonly")]
    + ClockLines(s) + [Line('a', "mediaclk:direct=0")] + MidLines(s, leg)
  }

  lemma LegLinesSplit(s: Session, n: nat, origin: string, sources: seq<string>)
    requires n < |s.legs|
    ensures LegLines(s, n, origin, sources)
            == [Line('m', MediaValue(s.legs[n].port, s.payloadType)),
                Line('c', "IN IP4" + " " + (s.legs[n].multicast + "/32"))]
               + [Line('a', FilterValue(s.legs[n].multicast, SourceOf(s, n, origin, sources)))]
               + [Line('a', MapValue(s))] + RestLines(s, s.legs[n])
  {
  }

  lemma LegAlike(s: Session, t: Session, n: nat, origin: string, sources: seq<string>)
    requires Usable(s, origin, sources) && t == Received(s, origin, sources) && n < |s.legs|
    ensures AllAlike(LegLines(s, n, origin, sources), LegLines(t, n, origin, sources))
  {
    var a, b := s.legs[n], t.legs[n];
    assert b == ReceivedLeg(s, n, origin, sources);
    LegLinesSplit(s, n, origin, sources);
    LegLinesSplit(t, n, origin, sources);
    var head := [Line('m', MediaValue(a.port, s.payloadType)), Line('c', "IN IP4" + " " + (a.multicast + "/32"))];
    var f := Line('a', FilterValue(a.multicast, SourceOf(s, n, origin, sources)));
    var g := Line('a', FilterValue(b.multicast, b.source));
    FilterAlike(a.multicast, SourceOf(s, n, origin, sources));
    MapAlike(s, t);
    SameAlike(head);
    OneAlike(f, g);
    OneAlike(Line('a', MapValue(s)), Line('a', MapValue(t)));
    ConcatAlike(head, head, [f], [g]);
    ConcatAlike(head + [f], head + [g], [Line('a', MapValue(s))], [Line('a', MapValue(t))]);
    SameRest(s, t, n, origin, sources);
    SameAlike(RestLines(s, a));
    ConcatAlike(head + [f] + [Line('a', MapValue(s))], head + [g] + [Line('a', MapValue(t))],
                RestLines(s, a), RestLines(t, b));
  }

  lemma {:induction false} LegsAlike(s: Session, t: Session, n: nat, origin: string, sources: seq<string>)
    requires Usable(s, origin, sources) && t == Received(s, origin, sources) && n <= |s.legs|
    ensures AllAlike(LegsLines(s, n, origin, sources), LegsLines(t, n, origin, sources))
  {
    if n > 0 {
      LegsAlike(s, t, n - 1, origin, sources);
      LegAlike(s, t, n - 1, origin, sources);
      ConcatAlike(LegsLines(s, n - 1, origin, sources), LegsLines(t, n - 1, origin, sources),
                  LegLines(s, n - 1, origin, sources), LegLines(t, n - 1, origin, sources));
      LegsStep(s, n - 1, origin, sources);
      LegsStep(t, n - 1, origin, sources);
    } else {
      assert LegsLines(s, 0, origin, sources) == LegsLines(t, 0, origin, sources) == [];
    }
  }

  lemma HeadAlike(s: Session, t: Session, sessionId: nat, origin: string)
    requires t.name == Trim(s.name)
    ensures AllAlike(HeadLines(s, sessionId, origin), HeadLines(t, sessionId, origin))
  {
    NameAlike(s.name);
    var a, b := HeadLines(s, sessionId, origin), HeadLines(t, sessionId, origin);
    forall i | 0 <= i < |a|
      ensures Alike(a[i], b[i])
    {
      if i == 2 {
        assert a[i] == Line('s', s.name) && b[i] == Line('s', t.name);
      } else {
        assert a[i] == b[i];
      }
    }
  }

  lemma {:induction false} SameMids(a: seq<Leg>, b: seq<Leg>)
    requires |a| == |b| && forall i :: 0 <= i < |a| ==> a[i].mid == b[i].mid
    ensures MidList(a) == MidList(b)
  {
    if a != [] {
      SameMids(a[1..], b[1..]);
    }
  }

  lemma SameGroup(s: Session, origin: string, sources: seq<string>)
    ensures GroupLines(s) == GroupLines(Received(s, origin, sources))
  {
    if |s.legs| > 1 {
      SameMids(s.legs, Received(s, origin, sources).legs);
    }
  }

  lemma LinesAlike(s: Session, t: Session, sessionId: nat, origin: string, sources: seq<string>)
    requires Usable(s, origin, sources) && t == Received(s, origin, sources)
    ensures AllAlike(AllLines(s, sessionId, origin, sources), AllLines(t, sessionId, origin, sources))
  {
    HeadAlike(s, t, sessionId, origin);
    SameGroup(s, origin, sources);
    SameAlike(GroupLines(s));
    ConcatAlike(HeadLines(s, sessionId, origin), HeadLines(t, sessionId, origin), GroupLines(s), GroupLines(t));
    LegsAlike(s, t, |s.legs|, origin, sources);
    ConcatAlike(HeadLines(s, sessionId, origin) + GroupLines(s), HeadLines(t, sessionId, origin) + GroupLines(t),
                LegsLines(s, |s.legs|, origin, sources), LegsLines(t, |t.legs|, origin, sources));
  }

  predicate OneLines(lines: seq<string>) {
    forall i :: 0 <= i < |lines| ==> OneLine(lines[i])
  }

  lemma ConcatOneLines(a: seq<string>, b: seq<string>)
    requires OneLines(a) && OneLines(b)
    ensures OneLines(a + b)
  {
  }

  lemma RestOneLines(t: Session, n: nat)
    requires SessionOk(t) && n < |t.legs|
    ensures OneLines(RestLines(t, t.legs[n]))
  {
    LineFits('a', "ptime:", t.ptime);
    FixedFits();
    ClockFits(t);
    MidFits(t, n);
    var direct := [Line('a', "mediaclk:direct=0")];
    var ptime := [Line('a', "ptime:" + t.ptime), Line('a', "recvonly")];
    ConcatOneLines(ptime, ClockLines(t));
    ConcatOneLines(ptime + ClockLines(t), direct);
    ConcatOneLines(ptime + ClockLines(t) + direct, MidLines(t, t.legs[n]));
  }

  lemma FilterOneLine(multicast: string, source: string)
    requires OneLine(multicast) && OneLine(source)
    ensures OneLine(Line('a', FilterValue(multicast, source)))
  {
  }

  lemma LegOneLines(s: Session, t: Session, n: nat, origin: string, sources: seq<string>)
    requires Usable(s, origin, sources) && t == Received(s, origin, sources) && n < |s.legs|
    ensures OneLines(LegLines(s, n, origin, sources))
  {
    var leg := s.legs[n];
    var head := [Line('m', MediaValue(leg.port, s.payloadType)), Line('c', "IN IP4" + " " + (leg.multicast + "/32"))];
    var filter := [Line('a', FilterValue(leg.multicast, SourceOf(s, n, origin, sources)))];
    MediaFits(leg.port, s.payloadType);
    ConnectionFits(leg.multicast);
    FilterOneLine(leg.multicast, SourceOf(s, n, origin, sources));
    MapFits(s);
    ReceivedFits(s, origin, sources);
    RestOneLines(t, n);
    SameRest(s, t, n, origin, sources);
    LegLinesSplit(s, n, origin, sources);
    ConcatOneLines(head, filter);
    ConcatOneLines(head + filter, [Line('a', MapValue(s))]);
    ConcatOneLines(head + filter + [Line('a', MapValue(s))], RestLines(s, leg));
  }

  lemma SameRest(s: Session, t: Session, n: nat, origin: string, sources: seq<string>)
    requires t == Received(s, origin, sources) && n < |s.legs|
    ensures RestLines(s, s.legs[n]) == RestLines(t, t.legs[n])
  {
    assert t.legs[n] == ReceivedLeg(s, n, origin, sources);
    assert ClockLines(s) == ClockLines(t) && MidLines(s, s.legs[n]) == MidLines(t, t.legs[n]);
  }

  lemma {:induction false} LegsOneLines(s: Session, t: Session, n: nat, origin: string, sources: seq<string>)
    requires Usable(s, origin, sources) && t == Received(s, origin, sources) && n <= |s.legs|
    ensures OneLines(LegsLines(s, n, origin, sources))
  {
    if n > 0 {
      LegsOneLines(s, t, n - 1, origin, sources);
      LegOneLines(s, t, n - 1, origin, sources);
      ConcatOneLines(LegsLines(s, n - 1, origin, sources), LegLines(s, n - 1, origin, sources));
    }
  }

  lemma AllOneLines(s: Session, t: Session, sessionId: nat, origin: string, sources: seq<string>)
    requires Usable(s, origin, sources) && t == Received(s, origin, sources)
    ensures OneLines(AllLines(s, sessionId, origin, sources))
  {
    ReceivedFits(s, origin, sources);
    HeadFits(t, sessionId, origin);
    GroupFits(t);
    SameGroup(s, origin, sources);
    var a, b := HeadLines(s, sessionId, origin), HeadLines(t, sessionId, origin);
    forall i | 0 <= i < |a|
      ensures OneLine(a[i])
    {
      if i != 2 {
        assert a[i] == b[i] && LineOk(b[i]);
      }
    }
    LegsOneLines(s, t, |s.legs|, origin, sources);
    ConcatOneLines(a, GroupLines(s));
    ConcatOneLines(a + GroupLines(s), LegsLines(s, |s.legs|, origin, sources));
  }

  /** When a session comes back as it is. */
  predicate Faithful(s: Session) {
    && Clean(s.name) && s.channels > 0 && (s.grandmaster == [] ==> s.domain == 0)
    && (|s.legs| == 1 ==> s.legs[0].mid == "")
    && forall n :: 0 <= n < |s.legs| ==> s.legs[n].source != []
  }

  lemma ReceivedIsSent(s: Session, origin: string, sources: seq<string>)
    requires |s.legs| >= 1
    ensures Received(s, origin, sources) == s <==> Faithful(s)
  {
    TrimIsClean(s.name);
    var t := Received(s, origin, sources);
    if Faithful(s) {
      assert t.legs == s.legs;
    }
    if t == s {
      forall n | 0 <= n < |s.legs|
        ensures s.legs[n].source != []
      {
        assert t.legs[n] == ReceivedLeg(s, n, origin, sources);
      }
      assert t.legs[0] == ReceivedLeg(s, 0, origin, sources);
    }
  }

  /** ParseSdp of GenerateSdp for every session of one or two legs whose text holds no separators:
      what comes back, and that it is the session itself if and only if the name has no trailing
      blanks, there is a channel, a domain only with a grandmaster, a leg name only with a second
      leg, and every leg names its own source. */
  lemma RoundTripIff(s: Session, sessionId: nat, origin: string, sources: seq<string>)
    requires Usable(s, origin, sources)
    ensures Parse(Generate(s, sessionId, origin, sources)) == Some(Received(s, origin, sources))
    ensures Parse(Generate(s, sessionId, origin, sources)) == Some(s) <==> Faithful(s)
  {
    var t := Received(s, origin, sources);
    var a, b := AllLines(s, sessionId, origin, sources), AllLines(t, sessionId, origin, sources);
    ReceivedFits(s, origin, sources);
    SameText(s, t, sessionId, origin, sources);
    RoundTrip(t, sessionId, origin, sources);
    ReceivedIsSent(s, origin, sources);
  }

  lemma SameText(s: Session, t: Session, sessionId: nat, origin: string, sources: seq<string>)
    requires Usable(s, origin, sources) && t == Received(s, origin, sources) && SessionOk(t)
    ensures Parse(Generate(s, sessionId, origin, sources)) == Parse(Generate(t, sessionId, origin, sources))
  {
    var a, b := AllLines(s, sessionId, origin, sources), AllLines(t, sessionId, origin, sources);
    AllOneLines(s, t, sessionId, origin, sources);
    AllFit(t, sessionId, origin, sources);
    LinesOfJoin(a);
    LinesOfJoin(b);
    LinesAlike(s, t, sessionId, origin, sources);
    ReadAlike(Start(), a, b);
  }

  // ---------------------------------------------------------------- the sender's own description

  /** One or two legs, at least one of them enabled; one-line names and addresses without separators. */
  predicate SenderOk(c: SenderConfig) {
    && 1 <= |c.legs| <= 2 && (exists i :: 0 <= i < |c.legs| && c.legs[i].enabled)
    && (forall i :: 0 <= i < |c.legs| ==> GroupOk(c.legs[i].multicast) && SourceOk(c.legs[i].source))
    && OneLine(c.title) && OneLine(c.sourceName)
    && OneLine(c.ptime) && Clean(c.ptime) && OneLine(c.grandmaster)
  }

  lemma EnabledCount(c: SenderConfig)
    requires SenderOk(c)
    ensures EnabledLegs(c.legs) == if |c.legs| == 2 && c.legs[0].enabled && c.legs[1].enabled then 2 else 1
  {
    assert c.legs[..1] == [c.legs[0]];
    assert [c.legs[0]][..0] == [];
    assert EnabledLegs([]) == 0;
    assert EnabledLegs(c.legs[..1]) == if c.legs[0].enabled then 1 else 0;
    if |c.legs| == 1 {
      assert c.legs[..1] == c.legs;
    }
  }

  predicate BothEnabled(c: SenderConfig) {
    |c.legs| == 2 && c.legs[0].enabled && c.legs[1].enabled
  }

  /** The only enabled leg. */
  function OnlyLeg(c: SenderConfig): SenderLeg
    requires |c.legs| > 0
  {
    if c.legs[0].enabled then c.legs[0] else c.legs[|c.legs| - 1]
  }

  /** What a sender lists: its enabled legs in order, PRI and SEC exactly when both are. */
  lemma DescribedMeans(c: SenderConfig)
    requires SenderOk(c)
    ensures Described(c).legs ==
            if BothEnabled(c)
            then [Leg("PRI", c.legs[0].multicast, c.legs[0].source, c.port),
                  Leg("SEC", c.legs[1].multicast, c.legs[1].source, c.port)]
            else [Leg("", OnlyLeg(c).multicast, OnlyLeg(c).source, c.port)]
  {
    EnabledCount(c);
    assert DescribedLegs(c, 0) == [];
    assert DescribedLegs(c, 1) ==
           if c.legs[0].enabled
           then [Leg(if EnabledLegs(c.legs) > 1 then "PRI" else "", c.legs[0].multicast, c.legs[0].source, c.port)]
           else [];
  }

  /** The positional list and the origin that both callers of the printer pass. */
  function SourceIps(c: SenderConfig): (ips: seq<string>)
    ensures |ips| == |c.legs| && forall i :: 0 <= i < |ips| ==> ips[i] == c.legs[i].source
  {
    seq(|c.legs|, i requires 0 <= i < |c.legs| => c.legs[i].source)
  }

  function Origin(c: SenderConfig): string {
    if c.legs == [] then "0.0.0.0" else c.legs[0].source
  }

  lemma DescribedUsable(c: SenderConfig)
    requires SenderOk(c)
    ensures Usable(Described(c), Origin(c), SourceIps(c))
  {
    DescribedMeans(c);
    var s := Described(c);
    assert IsWord("PRI") && IsWord("SEC");
    assert OneLine(s.name);
    forall n | 0 <= n < |s.legs|
      ensures GroupOk(s.legs[n].multicast) && SourceOk(SourceOf(s, n, Origin(c), SourceIps(c)))
    {
    }
  }

  /** The source a receiver finds on the n-th described leg: the leg's own address if it has one.
      Otherwise, with both legs enabled, the leg's group; with one, the first leg's address, be that
      leg enabled or not, and only if there is none the group. */
  function HeardSource(c: SenderConfig, n: nat): string
    requires SenderOk(c) && (BothEnabled(c) ==> n < 2)
  {
    if BothEnabled(c) then FilterSource(c.legs[n].multicast, c.legs[n].source)
    else FilterSource(OnlyLeg(c).multicast, if OnlyLeg(c).source != [] then OnlyLeg(c).source else c.legs[0].source)
  }

  lemma HeardLegs(c: SenderConfig)
    requires SenderOk(c)
    ensures Received(Described(c), Origin(c), SourceIps(c)).legs ==
            if BothEnabled(c)
            then [Leg("PRI", c.legs[0].multicast, HeardSource(c, 0), c.port),
                  Leg("SEC", c.legs[1].multicast, HeardSource(c, 1), c.port)]
            else [Leg("", OnlyLeg(c).multicast, HeardSource(c, 0), c.port)]
  {
    DescribedMeans(c);
    var s := Described(c);
    var t := Received(s, Origin(c), SourceIps(c));
    assert t.legs[0] == ReceivedLeg(s, 0, Origin(c), SourceIps(c));
    if BothEnabled(c) {
      assert t.legs[1] == ReceivedLeg(s, 1, Origin(c), SourceIps(c));
    }
  }

  /** For every leg-enable mask that leaves a leg: a receiver parses exactly the legs, mids, order,
      format and clock the sender described. It parses the very same session if and only if the
      name does not end in blanks and every enabled leg has an address of its own. */
  lemma DescribedRoundTrip(c: SenderConfig, sessionId: nat)
    requires SenderOk(c)
    ensures var s := Described(c);
            var parsed := Parse(Generate(s, sessionId, Origin(c), SourceIps(c)));
            && parsed == Some(Received(s, Origin(c), SourceIps(c)))
            && (parsed == Some(s) <==> NameKept(c) && SourcesKnown(c))
  {
    DescribedUsable(c);
    RoundTripIff(Described(c), sessionId, Origin(c), SourceIps(c));
    DescribedName(c);
    DescribedMeans(c);
    KnownSources(c);
  }

  predicate NameKept(c: SenderConfig) {
    Clean(if c.title != [] then c.title else c.sourceName) && (c.title == [] ==> c.sourceName != [])
  }

  predicate SourcesKnown(c: SenderConfig) {
    forall i :: 0 <= i < |c.legs| && c.legs[i].enabled ==> c.legs[i].source != []
  }

  lemma KnownSources(c: SenderConfig)
    requires SenderOk(c)
    ensures SourcesKnown(c) <==> forall n :: 0 <= n < |Described(c).legs| ==> Described(c).legs[n].source != []
  {
    DescribedMeans(c);
    var legs := Described(c).legs;
    if BothEnabled(c) {
      assert legs[0].source == c.legs[0].source && legs[1].source == c.legs[1].source;
    } else {
      assert legs[0].source == OnlyLeg(c).source && OnlyLeg(c).enabled;
    }
  }

  lemma DescribedName(c: SenderConfig)
    ensures Clean(Described(c).name) <==> NameKept(c)
  {
    var name := "pi-audio-node " + c.sourceName;
    if c.sourceName != [] {
      assert name[|name| - 1] == c.sourceName[|c.sourceName| - 1];
    } else {
      assert name[|name| - 1] == ' ';
    }
  }

  /** A second leg that is alone enabled and has no address is advertised with the first leg's. */
  lemma OtherLegsSource(c: SenderConfig, sessionId: nat)
    requires SenderOk(c) && |c.legs| == 2 && !c.legs[0].enabled && c.legs[1].source == [] && c.legs[0].source != []
    ensures var parsed := Parse(Generate(Described(c), sessionId, Origin(c), SourceIps(c)));
            parsed.Some? && parsed.value.legs == [Leg("", c.legs[1].multicast, c.legs[0].source, c.port)]
  {
    DescribedRoundTrip(c, sessionId);
    HeardLegs(c);
  }
}
