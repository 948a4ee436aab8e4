/**
  RTP packets as the sender lays them out (src/rtp/rtpsender.cpp, section 5.1 of RFC 3550 and
  section 4 of RFC 3190) and as the receiver takes them apart (src/rtp/rtpreceiver.cpp).
  Samples are the signed integers on the wire; scaling to and from float is not modelled.
*/
module RtpPacket {
  import opened Common

  datatype Format = Format(bits: int, channels: int, monLeft: int, monRight: int)

  datatype Parsed =
    | Ignored                                              // not RTP version 2
    | Unusable(seqNo: nat, ts: nat)                        // counted, but no audio in it
    | Usable(seqNo: nat, ts: nat, audio: seq<int>)

  // ---------------------------------------------------------------- receiver side

  function BytesPerSample(f: Format): (n: nat)
    ensures n == 2 || n == 3
  {
    if f.bits == 16 then 2 else 3
  }

  function Channels(f: Format): (n: nat)
    ensures n >= 1
  {
    if f.channels > 0 then f.channels else 1
  }

  function LeftChannel(f: Format): (c: nat)
    ensures c < Channels(f)
  {
    if 0 <= f.monLeft < Channels(f) then f.monLeft else 0
  }

  function RightChannel(f: Format): (c: nat)
    ensures c < Channels(f)
  {
    if 0 <= f.monRight < Channels(f) then f.monRight
    else if Channels(f) >= 2 then 1 else LeftChannel(f)
  }

  function FrameBytes(f: Format): (n: nat)
    ensures n >= 1
  {
    if f.bits == 16 then 2 * Channels(f) else 3 * Channels(f)
  }

  lemma FloorTimes(a: nat, b: nat)
    requires b >= 1
    ensures 0 <= a / b && (a / b) * b <= a
  {
  }

  function Frames(payload: nat, f: Format): (n: nat)
    ensures n * FrameBytes(f) <= payload
  {
    FloorTimes(payload, FrameBytes(f));
    payload / FrameBytes(f)
  }

  /** Big-endian value of a byte string. */
  function BigEndian(b: seq<Byte>): nat {
    if b == [] then 0 else 256 * BigEndian(b[..|b| - 1]) + b[|b| - 1] as int
  }

  /** One wire sample: the two's complement reading of its bytes, with the sign extension the
      receiver does by hand. */
  function Sample(p: seq<Byte>): (v: int)
    requires |p| == 2 || |p| == 3
    ensures |p| == 2 ==> -0x8000 <= v < 0x8000 && v % 0x1_0000 == BigEndian(p)
    ensures |p| == 3 ==> -0x80_0000 <= v < 0x80_0000 && v % 0x100_0000 == BigEndian(p)
  {
    BigEndianUnfold(p);
    if |p| == 2 then
      var n := 256 * (p[0] as int) + p[1] as int;
      if n >= 0x8000 then n - 0x1_0000 else n
    else
      var n := 65536 * (p[0] as int) + 256 * (p[1] as int) + p[2] as int;
      if n >= 0x80_0000 then n - 0x100_0000 else n
  }

  lemma BigEndianUnfold(p: seq<Byte>)
    requires |p| == 2 || |p| == 3
    ensures |p| == 2 ==> BigEndian(p) == 256 * (p[0] as int) + p[1] as int
    ensures |p| == 3 ==> BigEndian(p) == 65536 * (p[0] as int) + 256 * (p[1] as int) + p[2] as int
  {
    assert p[..1] == [p[0]] && BigEndian([p[0]]) == p[0] by {
      assert [p[0]][..0] == [];
    }
    assert p[..2][..1] == p[..1];
  }

  /** Every index the decoder computes stays inside the payload, for any length, channel count
      and monitor choice. */
  lemma IndexInside(payload: nat, f: Format, frame: nat, channel: nat)
    requires frame < Frames(payload, f) && channel < Channels(f)
    ensures 0 <= (frame * Channels(f) + channel) * BytesPerSample(f)
    ensures (frame * Channels(f) + channel + 1) * BytesPerSample(f) <= payload
  {
    var ch, b := Channels(f), BytesPerSample(f);
    var n := Frames(payload, f);
    assert b * ch == FrameBytes(f);
    assert n * (b * ch) <= payload;
    assert (frame + 1) * ch <= n * ch;
    assert frame * ch + channel + 1 <= (frame + 1) * ch;
    assert (frame * ch + channel + 1) * b <= (n * ch) * b;
    assert (n * ch) * b == n * (b * ch);
  }

  function SampleAt(payload: seq<Byte>, f: Format, frame: nat, channel: nat): (v: int)
    requires frame < Frames(|payload|, f) && channel < Channels(f)
  {
    IndexInside(|payload|, f, frame, channel);
    var at := (frame * Channels(f) + channel) * BytesPerSample(f);
    Sample(payload[at..at + BytesPerSample(f)])
  }

  /** The stereo samples a payload decodes to: frame by frame, the two monitored channels. */
  function Decoded(payload: seq<Byte>, f: Format): (audio: seq<int>)
    ensures |audio| == 2 * Frames(|payload|, f)
  {
    seq(2 * Frames(|payload|, f), j requires 0 <= j < 2 * Frames(|payload|, f) =>
      SampleAt(payload, f, j / 2, if j % 2 == 0 then LeftChannel(f) else RightChannel(f)))
  }

  lemma DecodedFrame(payload: seq<Byte>, f: Format, frame: nat)
    requires frame < Frames(|payload|, f)
    ensures Decoded(payload, f)[2 * frame] == SampleAt(payload, f, frame, LeftChannel(f))
    ensures Decoded(payload, f)[2 * frame + 1] == SampleAt(payload, f, frame, RightChannel(f))
  {
    assert (2 * frame) / 2 == frame && (2 * frame) % 2 == 0;
    assert (2 * frame + 1) / 2 == frame && (2 * frame + 1) % 2 == 1;
  }

  /** v is the signed value of two or three big-endian bytes. */
  ghost predicate Reads(v: int, bytes: seq<Byte>) {
    || (|bytes| == 2 && -0x8000 <= v < 0x8000 && v % 0x1_0000 == BigEndian(bytes))
    || (|bytes| == 3 && -0x80_0000 <= v < 0x80_0000 && v % 0x100_0000 == BigEndian(bytes))
  }

  /** Where the payload of a format holds a sample: two bytes per sample for 16 bits and three for
      anything else, channels interleaved, at least one of them. */
  ghost predicate HeardAt(v: int, payload: seq<Byte>, f: Format, frame: nat, channel: nat) {
    var bytes, channels := if f.bits == 16 then 2 else 3, if f.channels > 0 then f.channels else 1;
    var at := (frame * channels + channel) * bytes;
    0 <= at <= at + bytes <= |payload| && Reads(v, payload[at..at + bytes])
  }

  /** The decode in plain words, for any payload, format and monitor choice: as many frames as are
      complete; on the left the chosen channel if there is such a channel, else the first; on the
      right the chosen one, else the second, else, for mono, the left one. */
  lemma DecodedMeans(payload: seq<Byte>, f: Format, frame: nat)
    requires var channels := if f.channels > 0 then f.channels else 1;
             frame < |payload| / (if f.bits == 16 then 2 * channels else 3 * channels)
    ensures var channels := if f.channels > 0 then f.channels else 1;
            var left := if 0 <= f.monLeft < channels then f.monLeft else 0;
            var right := if 0 <= f.monRight < channels then f.monRight else if channels >= 2 then 1 else left;
            && |Decoded(payload, f)| == 2 * (|payload| / (if f.bits == 16 then 2 * channels else 3 * channels))
            && HeardAt(Decoded(payload, f)[2 * frame], payload, f, frame, left)
            && HeardAt(Decoded(payload, f)[2 * frame + 1], payload, f, frame, right)
  {
    DecodedFrame(payload, f, frame);
    SampleHeard(payload, f, frame, LeftChannel(f));
    SampleHeard(payload, f, frame, RightChannel(f));
  }

  lemma SampleHeard(payload: seq<Byte>, f: Format, frame: nat, channel: nat)
    requires frame < Frames(|payload|, f) && channel < Channels(f)
    ensures HeardAt(SampleAt(payload, f, frame, channel), payload, f, frame, channel)
  {
    IndexInside(|payload|, f, frame, channel);
    var at := (frame * Channels(f) + channel) * BytesPerSample(f);
    NextSample(frame * Channels(f) + channel, BytesPerSample(f));
    assert at + BytesPerSample(f) <= |payload|;
  }

  lemma NextSample(index: nat, bytes: nat)
    ensures (index + 1) * bytes == index * bytes + bytes
  {
  }

  function HeaderBytes(data: seq<Byte>): nat
    requires |data| > 0
  {
    12 + (data[0] % 16) * 4
  }

  /** HandlePacket up to the slot: `|data| > 12` is RxLoop's guard on the datagram size. */
  function Parse(data: seq<Byte>, f: Format): Parsed
    requires |data| > 12
  {
    if data[0] / 64 != 2 then Ignored
    else
      var seqNo := BigEndian(data[2..4]);
      var ts := BigEndian(data[4..8]);
      if |data| <= HeaderBytes(data) then Unusable(seqNo, ts)
      else
        var payload := data[HeaderBytes(data)..];
        if Frames(|payload|, f) == 0 then Unusable(seqNo, ts)
        else Usable(seqNo, ts, Decoded(payload, f))
  }

  /** The parse in plain words: two leading bits 10, four bytes for every contributing source, and at
      least one complete frame after them; number and timestamp from bytes 2 to 7. */
  lemma ParseMeans(data: seq<Byte>, f: Format)
    requires |data| > 12
    ensures var header := 12 + 4 * (data[0] % 16);
            var channels := if f.channels > 0 then f.channels else 1;
            var frame := if f.bits == 16 then 2 * channels else 3 * channels;
            var p := Parse(data, f);
            && (p.Ignored? <==> data[0] < 128 || data[0] >= 192)
            && (p.Usable? <==> 128 <= data[0] < 192 && |data| >= header + frame)
            && (!p.Ignored? ==> p.seqNo == BigEndian(data[2..4]) && p.ts == BigEndian(data[4..8]))
            && (p.Usable? ==> p.audio == Decoded(data[header..], f))
  {
    var header := HeaderBytes(data);
    if |data| > header {
      WholeFrames(|data| - header, FrameBytes(f));
    }
  }

  lemma WholeFrames(n: nat, frame: nat)
    requires frame >= 1
    ensures n / frame == 0 <==> n < frame
  {
    if n >= frame {
      assert n == frame * (n / frame) + n % frame;
    }
  }

  /** The decode loop, writing into the slot's buffer. */
  method DecodeInto(payload: seq<Byte>, f: Format, out: array<int>)
    requires out.Length == 2 * Frames(|payload|, f)
    modifies out
    ensures out[..] == Decoded(payload, f)
  {
    var frames := Frames(|payload|, f);
    var frame := 0;
    while frame < frames
      invariant 0 <= frame <= frames
      invariant forall j :: 0 <= j < 2 * frame ==> out[j] == Decoded(payload, f)[j]
    {
      DecodedFrame(payload, f, frame);
      out[2 * frame] := SampleAt(payload, f, frame, LeftChannel(f));
      out[2 * frame + 1] := SampleAt(payload, f, frame, RightChannel(f));
      frame := frame + 1;
    }
  }

  /** HandlePacket's parsing, with the payload decoded into a buffer of its own. */
  method ParsePacket(data: seq<Byte>, f: Format) returns (p: Parsed)
    requires |data| > 12
    ensures p == Parse(data, f)
  {
    if data[0] / 64 != 2 {
      return Ignored;
    }
    var seqNo, ts := BigEndian(data[2..4]), BigEndian(data[4..8]);
    var header := 12 + (data[0] % 16) * 4;
    if |data| <= header {
      return Unusable(seqNo, ts);
    }
    var payload := data[header..];
    var frames := Frames(|payload|, f);
    if frames == 0 {
      return Unusable(seqNo, ts);
    }
    var out := new int[2 * frames];
    DecodeInto(payload, f, out);
    p := Usable(seqNo, ts, out[..]);
  }

  // ---------------------------------------------------------------- sender side

  function Byte16(n: int): Byte { (n / 0x1_0000) % 256 }
  function Byte8(n: int): Byte { (n / 0x100) % 256 }
  function Byte0(n: int): Byte { n % 256 }
  function Byte24(n: int): Byte { (n / 0x100_0000) % 256 }

  function Wire24(n: int): seq<Byte> { [Byte16(n), Byte8(n), Byte0(n)] }

  function Payload(samples: seq<int>): (p: seq<Byte>)
    ensures |p| == 3 * |samples|
  {
    seq(3 * |samples|, k requires 0 <= k < 3 * |samples| => Wire24(samples[k / 3])[k % 3])
  }

  function Header(payloadType: int, seqNo: int, ts: int, ssrc: int): (h: seq<Byte>)
    ensures |h| == 12
  {
    [0x80, Byte0(payloadType), Byte8(seqNo), Byte0(seqNo),
     Byte24(ts), Byte16(ts), Byte8(ts), Byte0(ts),
     Byte24(ssrc), Byte16(ssrc), Byte8(ssrc), Byte0(ssrc)]
  }

  ghost predicate HoldsWire24(packet: seq<Byte>, i: int, n: int)
    requires 0 <= i && 12 + 3 * i + 3 <= |packet|
  {
    packet[12 + 3 * i] == Byte16(n) && packet[12 + 3 * i + 1] == Byte8(n) && packet[12 + 3 * i + 2] == Byte0(n)
  }

  /** The L24 loop of SendLoop. */
  method StorePayload(packet: array<Byte>, samples: array<int>)
    requires packet.Length == 12 + 3 * samples.Length
    modifies packet
    ensures packet[..12] == old(packet[..12])
    ensures forall i :: 0 <= i < samples.Length ==> HoldsWire24(packet[..], i, samples[i])
  {
    var i := 0;
    while i < samples.Length
      invariant 0 <= i <= samples.Length
      invariant packet[..12] == old(packet[..12])
      invariant forall j :: 0 <= j < i ==> HoldsWire24(packet[..], j, samples[j])
    {
      var n := samples[i];
      packet[12 + i * 3] := Byte16(n);
      packet[12 + i * 3 + 1] := Byte8(n);
      packet[12 + i * 3 + 2] := Byte0(n);
      i := i + 1;
    }
  }

  lemma PayloadFromSlots(packet: seq<Byte>, samples: seq<int>)
    requires |packet| == 12 + 3 * |samples|
    requires forall i :: 0 <= i < |samples| ==> HoldsWire24(packet, i, samples[i])
    ensures packet[12..] == Payload(samples)
  {
    forall k | 0 <= k < 3 * |samples|
      ensures packet[12..][k] == Payload(samples)[k]
    {
      assert HoldsWire24(packet, k / 3, samples[k / 3]);
    }
  }

  /** The packet-building part of SendLoop: header bytes, then the L24 loop. */
  method BuildPacket(payloadType: int, seqNo: int, ts: int, ssrc: int, samples: array<int>)
    returns (packet: array<Byte>)
    ensures fresh(packet)
    ensures packet[..] == Header(payloadType, seqNo, ts, ssrc) + Payload(samples[..])
  {
    packet := new Byte[12 + 3 * samples.Length](_ => 0);
    packet[0], packet[1] := 0x80, Byte0(payloadType);
    packet[2], packet[3] := Byte8(seqNo), Byte0(seqNo);
    packet[4], packet[5], packet[6], packet[7] := Byte24(ts), Byte16(ts), Byte8(ts), Byte0(ts);
    packet[8], packet[9], packet[10], packet[11] := Byte24(ssrc), Byte16(ssrc), Byte8(ssrc), Byte0(ssrc);
    assert packet[..12] == Header(payloadType, seqNo, ts, ssrc);
    StorePayload(packet, samples);
    PayloadFromSlots(packet[..], samples[..]);
    assert packet[..] == packet[..12] + packet[12..];
  }

  // ---------------------------------------------------------------- round trip

  /** Signed 24-bit values survive the wire. */
  lemma SampleRoundTrip(n: int)
    requires -0x80_0000 <= n < 0x80_0000
    ensures Sample(Wire24(n)) == n
  {
    BigEndianUnfold(Wire24(n));
    Wire24Value(n);
  }

  lemma Wire24Value(n: int)
    ensures 65536 * (Byte16(n) as int) + 256 * (Byte8(n) as int) + Byte0(n) as int == n % 0x100_0000
  {
    var a := n / 256;
    var b := a / 256;
    var c := b / 256;
    assert n == 65536 * b + 256 * (a % 256) + n % 256;
    assert n / 65536 == b;
    assert n == 0x100_0000 * c + (65536 * (b % 256) + 256 * (a % 256) + n % 256);
  }

  lemma Number16RoundTrip(n: int)
    requires 0 <= n < 0x1_0000
    ensures BigEndian([Byte8(n), Byte0(n)]) == n
  {
    BigEndianUnfold([Byte8(n), Byte0(n)]);
  }

  lemma Number32RoundTrip(n: int)
    requires 0 <= n < 0x1_0000_0000
    ensures BigEndian([Byte24(n), Byte16(n), Byte8(n), Byte0(n)]) == n
  {
    var b := [Byte24(n), Byte16(n), Byte8(n), Byte0(n)];
    assert b[..3] == [Byte24(n), Byte16(n), Byte8(n)];
    BigEndianUnfold(b[..3]);
    Wire24Value(n / 256);
    BytesShift(n);
  }

  lemma BytesShift(n: int)
    ensures Byte24(n) == Byte16(n / 256) && Byte16(n) == Byte8(n / 256) && Byte8(n) == Byte0(n / 256)
  {
    assert n / 256 / 65536 == n / 0x100_0000;
    assert n / 256 / 256 == n / 0x1_0000;
  }

  lemma PayloadSlice(samples: seq<int>, i: nat)
    requires i < |samples|
    ensures 3 * i + 3 <= |Payload(samples)|
    ensures Payload(samples)[3 * i..3 * i + 3] == Wire24(samples[i])
  {
    forall k | 0 <= k < 3
      ensures Payload(samples)[3 * i..3 * i + 3][k] == Wire24(samples[i])[k]
    {
      assert (3 * i + k) / 3 == i && (3 * i + k) % 3 == k;
    }
  }

  /** What the receiver hears of an interleaved stereo block under a monitor choice. */
  function Monitored(samples: seq<int>, f: Format): (audio: seq<int>)
    requires f.channels == 2
    ensures |audio| == 2 * (|samples| / 2)
  {
    seq(2 * (|samples| / 2), j requires 0 <= j < 2 * (|samples| / 2) =>
      samples[2 * (j / 2) + (if j % 2 == 0 then LeftChannel(f) else RightChannel(f))])
  }

  lemma DecodedPayload(samples: seq<int>, f: Format)
    requires |samples| % 2 == 0
    requires forall i :: 0 <= i < |samples| ==> -0x80_0000 <= samples[i] < 0x80_0000
    requires f.channels == 2 && f.bits != 16
    ensures Decoded(Payload(samples), f) == Monitored(samples, f)
  {
    StereoFrames(samples, f);
    var a, b := Decoded(Payload(samples), f), Monitored(samples, f);
    forall frame | 0 <= frame < |samples| / 2
      ensures SameFrame(a, b, frame)
    {
      DecodedSample(samples, f, frame);
      MonitoredFrame(samples, f, frame);
    }
    SameFrames(a, b, |samples| / 2);
  }

  ghost predicate SameFrame(a: seq<int>, b: seq<int>, frame: int) {
    && 0 <= frame && 2 * frame + 1 < |a| && 2 * frame + 1 < |b|
    && a[2 * frame] == b[2 * frame] && a[2 * frame + 1] == b[2 * frame + 1]
  }

  lemma SameFrames(a: seq<int>, b: seq<int>, n: nat)
    requires |a| == |b| == 2 * n && forall frame :: 0 <= frame < n ==> SameFrame(a, b, frame)
    ensures a == b
  {
    forall j | 0 <= j < |a|
      ensures a[j] == b[j]
    {
      assert SameFrame(a, b, j / 2);
    }
  }

  lemma MonitoredFrame(samples: seq<int>, f: Format, frame: nat)
    requires f.channels == 2 && frame < |samples| / 2
    ensures Monitored(samples, f)[2 * frame] == samples[2 * frame + LeftChannel(f)]
    ensures Monitored(samples, f)[2 * frame + 1] == samples[2 * frame + RightChannel(f)]
  {
    assert (2 * frame) / 2 == frame && (2 * frame) % 2 == 0;
    assert (2 * frame + 1) / 2 == frame && (2 * frame + 1) % 2 == 1;
  }

  lemma DecodedSample(samples: seq<int>, f: Format, frame: nat)
    requires |samples| % 2 == 0 && f.channels == 2 && f.bits != 16 && frame < |samples| / 2
    requires forall i :: 0 <= i < |samples| ==> -0x80_0000 <= samples[i] < 0x80_0000
    ensures 2 * frame + 1 < |Decoded(Payload(samples), f)|
    ensures Decoded(Payload(samples), f)[2 * frame] == samples[2 * frame + LeftChannel(f)]
    ensures Decoded(Payload(samples), f)[2 * frame + 1] == samples[2 * frame + RightChannel(f)]
  {
    StereoFrames(samples, f);
    StereoSample(samples, f, frame, LeftChannel(f));
    StereoSample(samples, f, frame, RightChannel(f));
    DecodedFrame(Payload(samples), f, frame);
  }

  lemma StereoFrames(samples: seq<int>, f: Format)
    requires |samples| % 2 == 0 && f.channels == 2 && f.bits != 16
    ensures Frames(|Payload(samples)|, f) == |samples| / 2
  {
    assert FrameBytes(f) == 6;
  }

  lemma StereoSample(samples: seq<int>, f: Format, frame: nat, c: nat)
    requires |samples| % 2 == 0 && f.channels == 2 && f.bits != 16
    requires frame < |samples| / 2 && c < 2
    requires -0x80_0000 <= samples[2 * frame + c] < 0x80_0000
    ensures frame < Frames(|Payload(samples)|, f)
    ensures SampleAt(Payload(samples), f, frame, c) == samples[2 * frame + c]
  {
    StereoFrames(samples, f);
    var i := 2 * frame + c;
    assert (frame * Channels(f) + c) * BytesPerSample(f) == 3 * i;
    PayloadSlice(samples, i);
    SampleRoundTrip(samples[i]);
  }

  lemma HeaderFields(payloadType: int, seqNo: nat, ts: nat, ssrc: int, rest: seq<Byte>)
    requires seqNo < 0x1_0000 && ts < 0x1_0000_0000
    ensures var data := Header(payloadType, seqNo, ts, ssrc) + rest;
            && data[0] / 64 == 2 && HeaderBytes(data) == 12 && data[12..] == rest
            && BigEndian(data[2..4]) == seqNo && BigEndian(data[4..8]) == ts
  {
    var data := Header(payloadType, seqNo, ts, ssrc) + rest;
    assert data[2..4] == [Byte8(seqNo), Byte0(seqNo)];
    assert data[4..8] == [Byte24(ts), Byte16(ts), Byte8(ts), Byte0(ts)];
    Number16RoundTrip(seqNo);
    Number32RoundTrip(ts);
  }

  /** The twelve header bytes: version 2 and nothing else, payload type, number, timestamp, SSRC. */
  lemma HeaderLayout(payloadType: int, seqNo: nat, ts: nat, ssrc: nat)
    requires seqNo < 0x1_0000 && ts < 0x1_0000_0000 && ssrc < 0x1_0000_0000
    ensures var h := Header(payloadType, seqNo, ts, ssrc);
            && |h| == 12 && h[0] == 128 && h[1] == payloadType % 256
            && BigEndian(h[2..4]) == seqNo && BigEndian(h[4..8]) == ts && BigEndian(h[8..12]) == ssrc
  {
    var h := Header(payloadType, seqNo, ts, ssrc);
    Number16RoundTrip(seqNo);
    Number32RoundTrip(ts);
    Number32RoundTrip(ssrc);
    assert h[2..4] == [Byte8(seqNo), Byte0(seqNo)];
    assert h[4..8] == [Byte24(ts), Byte16(ts), Byte8(ts), Byte0(ts)];
    assert h[8..12] == [Byte24(ssrc), Byte16(ssrc), Byte8(ssrc), Byte0(ssrc)];
  }

  /** The receiver recovers exactly what the sender wrote: the sequence number, the timestamp
      and, on the automatic monitor choice, every sample. */
  lemma PacketRoundTrip(payloadType: int, seqNo: nat, ts: nat, ssrc: int, samples: seq<int>, f: Format)
    requires seqNo < 0x1_0000 && ts < 0x1_0000_0000
    requires |samples| > 0 && |samples| % 2 == 0
    requires forall i :: 0 <= i < |samples| ==> -0x80_0000 <= samples[i] < 0x80_0000
    requires f.channels == 2 && f.bits != 16
    ensures Parse(Header(payloadType, seqNo, ts, ssrc) + Payload(samples), f)
            == Usable(seqNo, ts, Monitored(samples, f))
    ensures f.monLeft == f.monRight == -1 ==> Monitored(samples, f) == samples
  {
    HeaderFields(payloadType, seqNo, ts, ssrc, Payload(samples));
    DecodedPayload(samples, f);
    if f.monLeft == f.monRight == -1 {
      HeardWhole(samples, f);
    }
  }

  /** Without a monitor choice a stereo block is heard as it is. */
  lemma HeardWhole(samples: seq<int>, f: Format)
    requires |samples| % 2 == 0 && f.channels == 2 && f.monLeft == f.monRight == -1
    ensures Monitored(samples, f) == samples
  {
    forall j | 0 <= j < |samples|
      ensures Monitored(samples, f)[j] == samples[j]
    {
      assert 2 * (j / 2) + j % 2 == j;
    }
  }
}
