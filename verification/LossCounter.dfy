/** Per-leg loss accounting of HandlePacket (src/rtp/rtpreceiver.cpp). */
module LossCounter {
  import opened Common

  const HALF: int := 32768

  datatype Leg = Leg(received: nat, lost: nat, lastSeq: int, haveSeq: bool)

  /** static_cast<int16_t> of a 16-bit difference. */
  function Signed16(n: int): (d: int)
    ensures -HALF <= d < HALF && (n - d) % SEQ_RANGE == 0
  {
    var m := n % SEQ_RANGE;
    if m >= HALF then m - SEQ_RANGE else m
  }

  function Account(leg: Leg, seqNo: int): Leg {
    var diff := Signed16(seqNo - leg.lastSeq);
    Leg(leg.received + 1,
        if leg.haveSeq && diff > 1 then leg.lost + (diff - 1) else leg.lost,
        seqNo, true)
  }

  /** The leg after Configure and the given arrivals. */
  function After(arrivals: seq<int>): Leg {
    if arrivals == [] then Leg(0, 0, 0, false)
    else Account(After(arrivals[..|arrivals| - 1]), arrivals[|arrivals| - 1])
  }

  /** How far the stream moved, in packets: signed 16-bit steps summed up, plus the first packet. */
  function Span(arrivals: seq<int>): int
    requires |arrivals| > 0
  {
    if |arrivals| == 1 then 1
    else Span(arrivals[..|arrivals| - 1]) + Signed16(arrivals[|arrivals| - 1] - arrivals[|arrivals| - 2])
  }

  ghost predicate Forward(arrivals: seq<int>, i: int)
    requires 1 <= i < |arrivals|
  {
    Signed16(arrivals[i] - arrivals[i - 1]) >= 1
  }

  ghost predicate MovesForward(arrivals: seq<int>) {
    forall i :: 1 <= i < |arrivals| ==> Forward(arrivals, i)
  }

  lemma ForwardPrefix(arrivals: seq<int>, n: int)
    requires 1 <= n == |arrivals| - 1
    ensures MovesForward(arrivals) <==> MovesForward(arrivals[..n]) && Forward(arrivals, n)
  {
    forall i | 1 <= i < n
      ensures Forward(arrivals, i) <==> Forward(arrivals[..n], i)
    {
    }
    if MovesForward(arrivals[..n]) {
      assert forall i :: 1 <= i < n ==> Forward(arrivals[..n], i);
    }
  }

  /** For every arrival order, received plus lost covers the span, and it is the span exactly when
      every packet moves the stream forward. */
  lemma {:induction false} CoversSpan(arrivals: seq<int>)
    requires |arrivals| > 0
    ensures After(arrivals).haveSeq && After(arrivals).lastSeq == arrivals[|arrivals| - 1]
    ensures After(arrivals).received == |arrivals|
    ensures After(arrivals).received + After(arrivals).lost >= Span(arrivals)
    ensures After(arrivals).received + After(arrivals).lost == Span(arrivals) <==> MovesForward(arrivals)
  {
    var n := |arrivals| - 1;
    var before := arrivals[..n];
    if n == 0 {
      assert After(before) == Leg(0, 0, 0, false);
    } else {
      CoversSpan(before);
      ForwardPrefix(arrivals, n);
    }
  }

  function Wrapped(positions: seq<int>): (s: seq<int>)
    ensures |s| == |positions|
  {
    seq(|positions|, i requires 0 <= i < |positions| => positions[i] % SEQ_RANGE)
  }

  ghost predicate InOrder(positions: seq<int>) {
    forall i, j :: 0 <= i && j == i + 1 < |positions| ==> 1 <= positions[j] - positions[i] < HALF
  }

  lemma WrappedStep(p: int, q: int)
    requires 1 <= q - p < HALF
    ensures Signed16(q % SEQ_RANGE - p % SEQ_RANGE) == q - p
  {
  }

  /** The signed steps between the arrivals are the true forward steps between the positions. */
  ghost predicate Tracks(arrivals: seq<int>, positions: seq<int>) {
    && |arrivals| == |positions|
    && forall i, j :: 0 <= i && j == i + 1 < |positions| ==>
         Signed16(arrivals[j] - arrivals[i]) == positions[j] - positions[i] >= 1
  }

  lemma {:induction false} SpanOfPositions(arrivals: seq<int>, positions: seq<int>)
    requires |positions| > 0 && Tracks(arrivals, positions)
    ensures Span(arrivals) == positions[|positions| - 1] - positions[0] + 1
    ensures MovesForward(arrivals)
  {
    var n := |positions| - 1;
    if n > 0 {
      SpanOfPositions(arrivals[..n], positions[..n]);
      ForwardPrefix(arrivals, n);
    }
  }

  /** An in-order stream with gaps below 2^15 counts its missing packets exactly, across any
      number of sequence-number wraps. */
  lemma ExactLoss(positions: seq<int>)
    requires |positions| > 0 && InOrder(positions)
    ensures After(Wrapped(positions)).lost
            == (positions[|positions| - 1] - positions[0] + 1) - |positions|
  {
    var w := Wrapped(positions);
    forall i, j | 0 <= i && j == i + 1 < |positions|
      ensures Signed16(w[j] - w[i]) == positions[j] - positions[i] >= 1
    {
      WrappedStep(positions[i], positions[j]);
    }
    SpanOfPositions(w, positions);
    CoversSpan(w);
  }
}
