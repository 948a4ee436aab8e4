/**
  The media clock shared by sender and receiver: samples since the PTP epoch at 48 kHz, computed
  with the seconds split off, and everything that follows for packet timestamps and for the
  instant at which a receiver starts to play.
*/
module MediaClock {

  const RATE: nat := 48000
  const SECOND_NS: nat := 1_000_000_000
  const RANGE32: int := 0x1_0000_0000

  /** Samples since the epoch, as both ends compute them. */
  function Samples(ns: nat): nat {
    ns / SECOND_NS * RATE + ns % SECOND_NS * RATE / SECOND_NS
  }

  function Timestamp(ns: nat): (ts: nat)
    ensures ts < RANGE32
  {
    Samples(ns) % RANGE32
  }

  lemma DivStep(q: int, r: int)
    ensures (q * SECOND_NS + r) / SECOND_NS == q + r / SECOND_NS
  {
  }

  /** Splitting off the seconds loses nothing: the value is the exact quotient, and no 64-bit
      intermediate overflows. */
  lemma SplitIsExact(ns: nat)
    ensures Samples(ns) == ns * RATE / SECOND_NS
    ensures ns < 0x1_0000_0000_0000_0000 ==>
              && ns / SECOND_NS * RATE < 0x1_0000_0000_0000_0000
              && ns % SECOND_NS * RATE < 0x1_0000_0000_0000_0000
              && Samples(ns) < 0x1_0000_0000_0000_0000
  {
    var q, r := ns / SECOND_NS, ns % SECOND_NS;
    assert ns * RATE == (q * RATE) * SECOND_NS + r * RATE;
    DivStep(q * RATE, r * RATE);
  }

  /** 125000 samples take 6 units of 1/6 ns each: the quotient as two linear bounds. */
  lemma SampleBounds(ns: nat)
    ensures 125000 * Samples(ns) <= 6 * ns < 125000 * (Samples(ns) + 1)
  {
    SplitIsExact(ns);
    var a := ns * RATE / SECOND_NS;
    assert a * SECOND_NS <= ns * RATE < (a + 1) * SECOND_NS;
  }

  // ---------------------------------------------------------------- timestamps of a packet train

  function FramesPerPacket(packetUs: nat): nat {
    RATE * packetUs / 1_000_000
  }

  function Deadline(start: nat, n: nat, packetUs: nat): nat {
    start + n * (packetUs * 1000)
  }

  lemma FrameBounds(packetUs: nat)
    ensures 125 * FramesPerPacket(packetUs) <= 6 * packetUs < 125 * (FramesPerPacket(packetUs) + 1)
  {
  }

  /** How far the media clock moves from packet n to packet n + 1. */
  function ClockStep(start: nat, n: nat, packetUs: nat): int {
    Samples(Deadline(start, n + 1, packetUs)) - Samples(Deadline(start, n, packetUs))
  }

  lemma NextDeadline(start: nat, n: nat, packetUs: nat)
    ensures Deadline(start, n + 1, packetUs) == Deadline(start, n, packetUs) + packetUs * 1000
  {
  }

  /** Within an anchor the media clock moves by the frames of a packet, or by one more. */
  lemma StepIsFramesOrOneMore(start: nat, n: nat, packetUs: nat)
    ensures var f := FramesPerPacket(packetUs);
            ClockStep(start, n, packetUs) == f || ClockStep(start, n, packetUs) == f + 1
  {
    NextDeadline(start, n, packetUs);
    SampleBounds(Deadline(start, n, packetUs));
    SampleBounds(Deadline(start, n + 1, packetUs));
    FrameBounds(packetUs);
  }

  /** The same on the wire, across any wrap of the 32-bit timestamp. */
  lemma TimestampStep(start: nat, n: nat, packetUs: nat)
    ensures (Timestamp(Deadline(start, n + 1, packetUs)) - Timestamp(Deadline(start, n, packetUs))) % RANGE32
            == ClockStep(start, n, packetUs) % RANGE32
  {
    var a, b := Samples(Deadline(start, n, packetUs)), Samples(Deadline(start, n + 1, packetUs));
    assert a == RANGE32 * (a / RANGE32) + a % RANGE32 && b == RANGE32 * (b / RANGE32) + b % RANGE32;
    SameResidue(b % RANGE32 - a % RANGE32, b - a, a / RANGE32 - b / RANGE32);
  }

  lemma SameResidue(x: int, y: int, k: int)
    requires x == y + RANGE32 * k
    ensures x % RANGE32 == y % RANGE32
  {
  }

  lemma {:induction false} SumOfSteps(start: nat, packetUs: nat, f: nat, n: nat)
    requires forall k: nat :: k < n ==> ClockStep(start, k, packetUs) == f
    ensures Samples(Deadline(start, n, packetUs)) == Samples(Deadline(start, 0, packetUs)) + n * f
  {
    if n > 0 {
      SumOfSteps(start, packetUs, f, n - 1);
      assert ClockStep(start, n - 1, packetUs) == f;
      assert n * f == (n - 1) * f + f;
    }
  }

  lemma ExactOnlyIf125(start: nat, packetUs: nat)
    requires forall n: nat :: ClockStep(start, n, packetUs) == FramesPerPacket(packetUs)
    ensures packetUs % 125 == 0
  {
    var f := FramesPerPacket(packetUs);
    FrameBounds(packetUs);
    SumOfSteps(start, packetUs, f, 125);
    assert Deadline(start, 0, packetUs) == start;
    var end := Deadline(start, 125, packetUs);
    SampleBounds(start);
    SampleBounds(end);
    assert end == start + 125_000 * packetUs;
    assert 6 * packetUs == 125 * f;
    assert packetUs == 125 * (21 * f - packetUs);
  }

  lemma ExactIfWhole(start: nat, n: nat, packetUs: nat)
    requires packetUs % 125 == 0
    ensures ClockStep(start, n, packetUs) == FramesPerPacket(packetUs)
  {
    var k := packetUs / 125;
    assert packetUs == 125 * k;
    FrameBounds(packetUs);
    assert FramesPerPacket(packetUs) == 6 * k;
    NextDeadline(start, n, packetUs);
    SampleBounds(Deadline(start, n, packetUs));
    SampleBounds(Deadline(start, n + 1, packetUs));
  }

  /** Every step is exactly the frames of a packet if and only if the packet time is a whole
      multiple of 125 us, whatever the anchor. */
  lemma ExactIff125(start: nat, packetUs: nat)
    ensures (forall n: nat :: ClockStep(start, n, packetUs) == FramesPerPacket(packetUs)) <==> packetUs % 125 == 0
  {
    if packetUs % 125 == 0 {
      forall n: nat {
        ExactIfWhole(start, n, packetUs);
      }
    }
    if forall n: nat :: ClockStep(start, n, packetUs) == FramesPerPacket(packetUs) {
      ExactOnlyIf125(start, packetUs);
    }
  }

  // ---------------------------------------------------------------- where playout starts

  /** static_cast<int32_t> of a 32-bit difference. */
  function Signed32(n: int): (d: int)
    ensures -0x8000_0000 <= d < 0x8000_0000
  {
    var m := n % RANGE32;
    if m >= 0x8000_0000 then m - RANGE32 else m
  }

  /** The receiver's wait, in samples, when it first looks at PTP time `ptp`. */
  function WaitSamples(ptp: nat, firstTs: nat, delayMs: nat): int {
    delayMs * RATE / 1000 - Signed32(Timestamp(ptp) - firstTs)
  }

  /** How long PlayoutLoop sleeps before its first look, in microseconds. */
  function SleepUs(ptp: nat, firstTs: nat, delayMs: nat): nat {
    var w := WaitSamples(ptp, firstTs, delayMs);
    if 0 < w < RATE then w * 1_000_000 / RATE else 0
  }

  /** The receiver sleeps for the wait, rounded down to a microsecond, if that is more than nothing
      and less than a second of samples; otherwise it starts at once. */
  lemma SleepMeans(ptp: nat, firstTs: nat, delayMs: nat)
    ensures var w, us := WaitSamples(ptp, firstTs, delayMs), SleepUs(ptp, firstTs, delayMs);
            && (0 < w < 48000 ==> us * 48000 <= w * 1_000_000 < (us + 1) * 48000)
            && (w <= 0 || w >= 48000 ==> us == 0)
  {
  }

  lemma AgeIsTrueAge(ptp: nat, sent: nat)
    requires -0x8000_0000 <= Samples(ptp) - Samples(sent) < 0x8000_0000
    ensures Signed32(Timestamp(ptp) - Timestamp(sent)) == Samples(ptp) - Samples(sent)
  {
    var a, b := Samples(ptp), Samples(sent);
    assert a == RANGE32 * (a / RANGE32) + a % RANGE32 && b == RANGE32 * (b / RANGE32) + b % RANGE32;
    SameResidue(a % RANGE32 - b % RANGE32, a - b, b / RANGE32 - a / RANGE32);
  }

  /** End to end: if the first packet carries the media clock of its deadline, its true age fits
      into 31 bits and the wait is one the receiver honours, playout is planned for the deadline
      plus the playout delay, to within one sample (62500/3 ns) plus 1 us. */
  lemma AnchorBound(ptp: nat, deadline: nat, delayMs: nat)
    requires -0x8000_0000 <= Samples(ptp) - Samples(deadline) < 0x8000_0000
    requires 0 < WaitSamples(ptp, Timestamp(deadline), delayMs) < RATE
    ensures var planned := ptp + SleepUs(ptp, Timestamp(deadline), delayMs) * 1000;
            var error := planned - (deadline + delayMs * 1_000_000);
            -(62500 + 3000) < 3 * error < 62500 + 3000
  {
    AgeIsTrueAge(ptp, deadline);
    SampleBounds(ptp);
    SampleBounds(deadline);
    var age := Samples(ptp) - Samples(deadline);
    var w := WaitSamples(ptp, Timestamp(deadline), delayMs);
    assert w == 48 * delayMs - age;
    var us := SleepUs(ptp, Timestamp(deadline), delayMs);
    assert 6 * us <= 125 * w < 6 * us + 6;
  }
}
