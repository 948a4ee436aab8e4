/**
  What the parser makes of text that the printer never writes: an address for the whole session,
  media lines without a payload type, maps without a channel count, clocks without a domain, other
  media, legs grouped in another order, and lines that are no SDP at all.
*/
module SdpForeign {
  import opened Common
  import opened SdpText
  import opened Sdp
  import opened SdpRoundTrip

  // ---------------------------------------------------------------- lines

  /** Lines without a letter, an equals sign and a known letter are skipped. */
  lemma JunkSkipped(r: Reading, line: string)
    requires |line| < 2 || line[1] != '=' || (line[0] != 's' && line[0] != 'c' && line[0] != 'm' && line[0] != 'a')
    ensures OnLine(r, line) == r
  {
  }

  /** An address before the first media line is kept for the legs to come. */
  lemma SessionAddress(r: Reading, address: string)
    requires |r.session.legs| == 0 && ' ' !in address && '/' !in address
    ensures OnLine(r, Line('c', "IN IP4" + " " + (address + "/32"))) == r.(connection := address)
  {
    LineRead(r, 'c', "IN IP4" + " " + (address + "/32"));
    AddressRead(address);
  }

  /** With or without a time to live. */
  lemma PlainAddress(r: Reading, address: string)
    requires |r.session.legs| == 0 && ' ' !in address && '/' !in address
    ensures OnLine(r, Line('c', "IN IP4" + " " + address)) == r.(connection := address)
  {
    LineRead(r, 'c', "IN IP4" + " " + address);
    LastAt("IN IP4", ' ', address);
    assert address[..|address|] == address;
  }

  /** A connection line without a blank is skipped, and so are leg attributes before the first leg. */
  lemma NothingToRead(r: Reading, value: string)
    ensures ' ' !in value ==> OnConnection(r, value) == r
    ensures |r.session.legs| == 0 ==> OnAttribute(r, "mid:" + value) == r
  {
    if ' ' !in value {
      NoneIn(value, ' ');
    }
    var mid := "mid:" + value;
    DiffersAt(mid, "group:DUP ", 0);
    DiffersAt(mid, "rtpmap:", 0);
    DiffersAt(mid, "ptime:", 0);
    DiffersAt(mid, "source-filter:", 0);
    DiffersAt(mid, "ts-refclk:ptp=", 0);
  }

  /** A port number is taken modulo 2^16. */
  lemma PortWraps(r: Reading, port: int, pt: int)
    ensures OnMedia(r, MediaValue(port, pt))
            == r.(session := r.session.(legs := r.session.legs + [Leg("", r.connection, "", port % 65536)],
                                        payloadType := pt))
  {
    MediaScan(port, pt);
  }

  /** A leg starts with that address and takes its own if it has one. */
  lemma LegAddress(r: Reading, port: Port, pt: int, address: string)
    requires ' ' !in address && '/' !in address
    ensures var started := OnLine(r, Line('m', MediaValue(port, pt)));
            && |started.session.legs| == |r.session.legs| + 1 && CurrentLeg(started).multicast == r.connection
            && var own := OnLine(started, Line('c', "IN IP4" + " " + (address + "/32")));
               |own.session.legs| == |started.session.legs| && CurrentLeg(own).multicast == address
               && own.connection == r.connection
  {
    LineRead(r, 'm', MediaValue(port, pt));
    MediaRead(r, port, pt);
    var started := OnLine(r, Line('m', MediaValue(port, pt)));
    LineRead(started, 'c', "IN IP4" + " " + (address + "/32"));
    ConnectionRead(started, address);
  }

  /** A media line without a payload type stands for 96. */
  lemma NoPayloadType(r: Reading, port: Port)
    ensures OnMedia(r, "audio" + (" " + (Printed(port) + (" " + "RTP/AVP"))))
            == r.(session := r.session.(legs := r.session.legs + [Leg("", r.connection, "", port)], payloadType := 96))
  {
    ShortMediaScan(port);
  }

  lemma ShortMediaScan(port: int)
    ensures Scan(MediaFormat(), "audio" + (" " + (Printed(port) + (" " + "RTP/AVP")))) == [port]
  {
    var f4 := [Blank] + [Int];
    var f3 := Literals("RTP/AVP") + f4;
    var f1 := [Int] + ([Blank] + f3);
    var s1 := Printed(port) + (" " + "RTP/AVP");
    PrintedForm(port);
    ScanLiterals("audio", [Blank] + f1, " " + s1);
    assert s1[0] == Printed(port)[0];
    ScanBlank(f1, s1);
    ScanNumber(port, [Blank] + f3, " " + "RTP/AVP");
    ScanBlank(f3, "RTP/AVP");
    assert "RTP/AVP" + [] == "RTP/AVP";
    ScanLiterals("RTP/AVP", f4, []);
    NothingLeft();
  }

  lemma NothingLeft()
    ensures Scan([Blank] + [Int], []) == [] && Scan(Literals("/") + [Int], []) == []
  {
    assert ([Blank] + [Int])[1..] == [Int];
    assert SkipSpace([]) == [];
    assert ScanInt([]) == None;
    assert Scan([Int], []) == [];
    assert (Literals("/") + [Int])[0] == Literal('/');
  }

  /** Media that is not audio opens no leg. */
  lemma OtherMedia(r: Reading, value: string)
    requires value == [] || value[0] != 'a'
    ensures OnMedia(r, value) == r
  {
    assert MediaFormat()[0] == Literal('a');
  }

  /** A map without a channel count is mono, one for another payload type is ignored. */
  lemma MonoMap(r: Reading, pt: int, bits: int, rate: int)
    ensures OnMap(r, "rtpmap:" + (Printed(pt) + (" " + ("L" + (Printed(bits) + ("/" + Printed(rate)))))))
            == if r.session.payloadType == pt
               then r.(session := r.session.(bits := bits, rate := rate, channels := 1)) else r
  {
    var encoding := Printed(bits) + ("/" + Printed(rate));
    var f2 := [Int] + (Literals("/") + [Int]);
    MapScan(pt, encoding);
    ScanNumber(bits, Literals("/") + f2, "/" + Printed(rate));
    ScanLiterals("/", f2, Printed(rate));
    assert Printed(rate) + [] == Printed(rate);
    ScanNumber(rate, Literals("/") + [Int], []);
    NothingLeft();
  }

  /** A reference clock without a domain gives the grandmaster alone. */
  lemma NoDomain(r: Reading, grandmaster: string)
    requires ':' !in grandmaster
    ensures OnAttribute(r, "ts-refclk:ptp=" + ("IEEE1588-2008" + [':'] + grandmaster))
            == r.(session := r.session.(grandmaster := grandmaster))
  {
    ClockAttribute(r, "IEEE1588-2008" + [':'] + grandmaster);
    ClockAlone(r, grandmaster);
  }

  lemma ClockAlone(r: Reading, grandmaster: string)
    requires ':' !in grandmaster
    ensures OnClock(r, "ts-refclk:ptp=" + ("IEEE1588-2008" + [':'] + grandmaster))
            == r.(session := r.session.(grandmaster := grandmaster))
  {
    FirstAfter("ts-refclk:ptp=", "IEEE1588-2008", ':', grandmaster);
    assert "ts-refclk:ptp=" + ("IEEE1588-2008" + [':'] + grandmaster)
           == "ts-refclk:ptp=" + "IEEE1588-2008" + [':'] + grandmaster;
    NoneIn(grandmaster, ':');
  }

  lemma NoneIn(s: string, c: char)
    requires c !in s
    ensures FindLast(s, c) == None
  {
  }

  // ---------------------------------------------------------------- grouping

  lemma {:induction false} NoneWithMid(legs: seq<Leg>, mid: string)
    requires forall i :: 0 <= i < |legs| ==> legs[i].mid != mid
    ensures WithMid(legs, mid) == []
  {
    if legs != [] {
      NoneWithMid(legs[1..], mid);
    }
  }

  /** Leg k alone has the name. */
  predicate OnlyAt(legs: seq<Leg>, mid: string, k: int) {
    0 <= k < |legs| && legs[k].mid == mid && forall i :: 0 <= i < |legs| && i != k ==> legs[i].mid != mid
  }

  lemma {:induction false} OneWithMid(legs: seq<Leg>, mid: string, k: nat)
    requires OnlyAt(legs, mid, k)
    ensures WithMid(legs, mid) == [legs[k]]
  {
    if k == 0 {
      NoneWithMid(legs[1..], mid);
    } else {
      assert OnlyAt(legs[1..], mid, k - 1);
      OneWithMid(legs[1..], mid, k - 1);
    }
  }

  function Picked(legs: seq<Leg>, places: seq<nat>): (r: seq<Leg>)
    requires forall i :: 0 <= i < |places| ==> places[i] < |legs|
    ensures |r| == |places| && forall i :: 0 <= i < |r| ==> r[i] == legs[places[i]]
  {
    seq(|places|, i requires 0 <= i < |places| => legs[places[i]])
  }

  /** The i-th name is that of leg places[i] alone. */
  predicate Named(legs: seq<Leg>, mids: seq<string>, places: seq<nat>) {
    |places| == |mids| && forall i :: 0 <= i < |places| ==> places[i] < |legs| && OnlyAt(legs, mids[i], places[i])
  }

  lemma {:induction false} GroupOrder(legs: seq<Leg>, mids: seq<string>, places: seq<nat>)
    requires Named(legs, mids, places)
    ensures InGroupOrder(legs, mids) == Picked(legs, places)
  {
    if mids != [] {
      OneWithMid(legs, mids[0], places[0]);
      NamedTail(legs, mids, places);
      GroupOrder(legs, mids[1..], places[1..]);
      PickedFirst(legs, places);
    }
  }

  lemma NamedTail(legs: seq<Leg>, mids: seq<string>, places: seq<nat>)
    requires mids != [] && Named(legs, mids, places)
    ensures Named(legs, mids[1..], places[1..])
  {
    forall i | 0 <= i < |places| - 1
      ensures places[1..][i] < |legs| && OnlyAt(legs, mids[1..][i], places[1..][i])
    {
      assert OnlyAt(legs, mids[i + 1], places[i + 1]);
    }
  }

  lemma PickedFirst(legs: seq<Leg>, places: seq<nat>)
    requires places != [] && forall i :: 0 <= i < |places| ==> places[i] < |legs|
    ensures Picked(legs, places) == [legs[places[0]]] + Picked(legs, places[1..])
  {
  }

  /** A duplication group decides which legs a receiver uses, and in which order: the first two it
      names, wherever their media sections stand; legs it does not name are dropped. */
  lemma GroupDecides(r: Reading, places: seq<nat>)
    requires |r.dupMids| > 1 && Named(r.session.legs, r.dupMids, places)
    ensures Finish(r) == Some(r.session.(legs := [r.session.legs[places[0]], r.session.legs[places[1]]]))
  {
    var legs := r.session.legs;
    GroupOrder(legs, r.dupMids, places);
    var ordered := Picked(legs, places);
    assert ordered[..2] == [legs[places[0]], legs[places[1]]];
    if |ordered| == 2 {
      assert ordered[..2] == ordered;
    }
  }

  /** Without a group of two the first two legs are used, and without a leg there is no session. */
  lemma NoGroupDecides(r: Reading)
    requires |r.dupMids| <= 1
    ensures Finish(r) ==
            if r.session.legs == [] then None
            else if |r.session.legs| > 2 then Some(r.session.(legs := r.session.legs[..2]))
            else Some(r.session)
  {
  }

  // ---------------------------------------------------------------- what a sender says of itself

  /** The fixed part of every sender's description: 24-bit stereo at 48 kHz, PTP domain 0; and the
      configured part. */
  lemma DescribedFields(c: SenderConfig)
    ensures var s := Described(c);
            && s.rate == 48000 && s.channels == 2 && s.bits == 24 && s.domain == 0
            && s.payloadType == c.payloadType && s.ptime == c.ptime && s.grandmaster == c.grandmaster
            && s.name == (if c.title != [] then c.title else "pi-audio-node " + c.sourceName)
  {
  }
}
