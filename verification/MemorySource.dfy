/** The looping memory source of src/audio/sources.cpp: chunked reads of one endless stream. */
module MemorySource {

  predicate Endless(samples: seq<int>, loop: bool) {
    loop && samples != []
  }

  /** The stream behind the source: the samples over and over, or once and then silence. */
  function Stream(samples: seq<int>, loop: bool, i: nat): int {
    if Endless(samples, loop) then samples[i % |samples|]
    else if i < |samples| then samples[i]
    else 0
  }

  function Slice(samples: seq<int>, loop: bool, from: nat, count: nat): (s: seq<int>)
    ensures |s| == count
  {
    seq(count, i requires 0 <= i < count => Stream(samples, loop, from + i))
  }

  function Quiet(count: nat): (s: seq<int>)
    ensures |s| == count && forall i :: 0 <= i < count ==> s[i] == 0
  {
    seq(count, _ => 0)
  }

  /** Where a read of `count` samples from `position` leaves the source. */
  function After(samples: seq<int>, loop: bool, position: nat, count: nat): nat
    requires position <= |samples|
    ensures After(samples, loop, position, count) <= |samples|
  {
    if count == 0 then position
    else if Endless(samples, loop) then (position + count - 1) % |samples| + 1
    else if position + count <= |samples| then position + count
    else |samples|
  }

  class MemorySource {
    const samples: seq<int>
    const loop: bool
    var position: nat

    ghost predicate Valid()
      reads this
    {
      position <= |samples|
    }

    constructor (samples: seq<int>, loop: bool)
      ensures Valid() && this.samples == samples && this.loop == loop && position == 0
    {
      this.samples, this.loop, position := samples, loop, 0;
    }

    /** memcpy of one chunk. */
    method Copy(out: array<int>, at: nat, start: nat, chunk: nat)
      requires at + chunk <= out.Length && start + chunk <= |samples|
      modifies out
      ensures out[..at + chunk] == old(out[..at]) + samples[start..start + chunk]
      ensures out[at + chunk..] == old(out[at + chunk..])
    {
      forall i | at <= i < at + chunk {
        out[i] := samples[start + (i - at)];
      }
    }

    /** memset of the rest of the buffer. */
    method Silence(out: array<int>, at: nat, end: nat)
      requires at <= end <= out.Length
      modifies out
      ensures out[..end] == old(out[..at]) + Quiet(end - at)
      ensures out[end..] == old(out[end..])
    {
      forall i | at <= i < end {
        out[i] := 0;
      }
    }

    method Read(out: array<int>, frames: nat) returns (ok: bool)
      requires Valid() && 2 * frames <= out.Length
      modifies this, out
      ensures Valid() && position == After(samples, loop, old(position), 2 * frames)
      ensures out[..2 * frames] == Slice(samples, loop, old(position), 2 * frames)
      ensures out[2 * frames..] == old(out[2 * frames..])
      ensures ok <==> Endless(samples, loop) || old(position) + 2 * frames <= |samples|
    {
      var wanted, written := 2 * frames, 0;
      ghost var from := position;
      while written < wanted
        invariant 0 <= written <= wanted && Valid()
        invariant position == After(samples, loop, from, written)
        invariant Endless(samples, loop) || position == from + written
        invariant out[..written] == Slice(samples, loop, from, written)
        invariant out[wanted..] == old(out[wanted..])
      {
        if position >= |samples| {
          if !loop || samples == [] {
            Silence(out, written, wanted);
            SilenceFollows(samples, loop, from, written, wanted);
            return false;
          }
          position := 0;
        }
        var chunk := if wanted - written <= |samples| - position then wanted - written else |samples| - position;
        var start := position;
        Rewound(samples, loop, from, written, start);
        Copy(out, written, start, chunk);
        ChunkIsStream(samples, loop, from, written, start, chunk);
        position := position + chunk;
        written := written + chunk;
      }
      return true;
    }

    /** Any sequence of reads, of these numbers of frames: end to end they are one stretch of the
        stream, the one that starts where the source stood. */
    method ReadAll(sizes: seq<nat>) returns (all: seq<int>)
      requires Valid()
      modifies this
      ensures Valid() && StandsFor(samples, loop, position, old(position) + 2 * Total(sizes))
      ensures all == Slice(samples, loop, old(position), 2 * Total(sizes))
    {
      all := [];
      ghost var from := position;
      var i := 0;
      while i < |sizes|
        invariant 0 <= i <= |sizes| && Valid()
        invariant StandsFor(samples, loop, position, from + 2 * Total(sizes[..i]))
        invariant all == Slice(samples, loop, from, 2 * Total(sizes[..i]))
      {
        var out := new int[2 * sizes[i]];
        ghost var before, done := position, 2 * Total(sizes[..i]);
        var ok := Read(out, sizes[i]);
        assert out[..2 * sizes[i]] == out[..];
        SameContinuation(samples, loop, before, from + done, 2 * sizes[i]);
        StandsForNext(samples, loop, before, from + done, 2 * sizes[i]);
        SliceConcat(samples, loop, from, done, 2 * sizes[i]);
        assert sizes[..i + 1][..i] == sizes[..i];
        all := all + out[..];
        i := i + 1;
      }
      assert sizes[..i] == sizes;
    }
  }

  lemma SliceConcat(samples: seq<int>, loop: bool, from: nat, a: nat, b: nat)
    ensures Slice(samples, loop, from, a + b) == Slice(samples, loop, from, a) + Slice(samples, loop, from + a, b)
  {
  }

  lemma StandsForNext(samples: seq<int>, loop: bool, position: nat, at: nat, count: nat)
    requires position <= |samples| && StandsFor(samples, loop, position, at)
    ensures StandsFor(samples, loop, After(samples, loop, position, count), at + count)
  {
    AfterStandsFor(samples, loop, position, count);
    if Endless(samples, loop) {
      ModShift(position, at, count, |samples|);
    }
  }

  lemma ModAhead(x: nat, i: nat, n: nat)
    requires n > 0 && x % n + i < n
    ensures (x + i) % n == x % n + i
  {
    var q := x / n;
    assert x + i == q * n + (x % n + i);
    ModUnique(x + i, q, x % n + i, n);
  }

  lemma Multiple(d: int, n: nat)
    ensures d >= 1 ==> d * n >= n
    ensures d <= -1 ==> d * n <= -1 * n
  {
  }

  lemma ModUnique(x: int, q: int, r: int, n: nat)
    requires n > 0 && x == q * n + r && 0 <= r < n
    ensures x % n == r
  {
    var d := q - x / n;
    assert d * n == x % n - r;
    Multiple(d, n);
  }

  lemma ModShift(p: nat, q: nat, k: nat, n: nat)
    requires n > 0 && p % n == q % n
    ensures (p + k) % n == (q + k) % n
  {
    var x := q + k;
    var d := p / n - q / n;
    assert p + k == x + d * n == (x / n + d) * n + x % n;
    ModUnique(p + k, x / n + d, x % n, n);
  }

  /** The position after the last copied sample, seen modulo the length. */
  lemma LastPlusOne(x: nat, n: nat)
    requires n > 0 && x > 0
    ensures ((x - 1) % n + 1) % n == x % n
  {
    var r := (x - 1) % n;
    if r + 1 < n {
      ModAhead(x - 1, 1, n);
      ModUnique(r + 1, 0, r + 1, n);
    } else {
      ModUnique(n, 1, 0, n);
      ModUnique(x, (x - 1) / n + 1, 0, n);
    }
  }

  /** `position` stands for stream index `at`. */
  ghost predicate StandsFor(samples: seq<int>, loop: bool, position: nat, at: nat) {
    if Endless(samples, loop) then position % |samples| == at % |samples|
    else position == at || (position == |samples| && at > |samples|)
  }

  lemma AfterStandsFor(samples: seq<int>, loop: bool, position: nat, count: nat)
    requires position <= |samples|
    ensures StandsFor(samples, loop, After(samples, loop, position, count), position + count)
  {
    if count > 0 && Endless(samples, loop) {
      LastPlusOne(position + count, |samples|);
    }
  }

  /** Inside one chunk the stream is the plain samples. */
  lemma ChunkIsPlain(samples: seq<int>, loop: bool, start: nat, at: nat, i: nat)
    requires start + i < |samples| && StandsFor(samples, loop, start, at)
    ensures Stream(samples, loop, at + i) == samples[start + i]
  {
    if Endless(samples, loop) {
      ModUnique(start, 0, start, |samples|);
      ModAhead(at, i, |samples|);
    }
  }

  lemma AfterChunk(samples: seq<int>, loop: bool, from: nat, done: nat, start: nat, chunk: nat)
    requires from <= |samples| && start < |samples| && 0 < chunk <= |samples| - start
    requires StandsFor(samples, loop, start, from + done)
    ensures After(samples, loop, from, done + chunk) == start + chunk
  {
    if Endless(samples, loop) {
      ModUnique(start, 0, start, |samples|);
      ModAhead(from + done, chunk - 1, |samples|);
    }
  }

  /** Before a chunk is copied, the position stands for the next stream index, rewound or not. */
  lemma Rewound(samples: seq<int>, loop: bool, from: nat, done: nat, start: nat)
    requires from <= |samples| && samples != [] && (Endless(samples, loop) || start == from + done)
    requires var p := After(samples, loop, from, done);
             start == p || (Endless(samples, loop) && p == |samples| && start == 0)
    ensures StandsFor(samples, loop, start, from + done)
  {
    AfterStandsFor(samples, loop, from, done);
    if start == 0 {
      ModUnique(|samples|, 1, 0, |samples|);
    }
  }

  lemma ChunkIsStream(samples: seq<int>, loop: bool, from: nat, done: nat, start: nat, chunk: nat)
    requires from <= |samples| && start < |samples| && 0 < chunk <= |samples| - start
    requires StandsFor(samples, loop, start, from + done)
    ensures After(samples, loop, from, done + chunk) == start + chunk
    ensures Slice(samples, loop, from, done + chunk) == Slice(samples, loop, from, done) + samples[start..start + chunk]
  {
    AfterChunk(samples, loop, from, done, start, chunk);
    var both := Slice(samples, loop, from, done) + samples[start..start + chunk];
    forall i | 0 <= i < done + chunk
      ensures Slice(samples, loop, from, done + chunk)[i] == both[i]
    {
      if i >= done {
        ChunkIsPlain(samples, loop, start, from + done, i - done);
      }
    }
  }

  /** Past the end of a source that does not loop there is only silence. */
  lemma SilenceFollows(samples: seq<int>, loop: bool, from: nat, done: nat, wanted: nat)
    requires !Endless(samples, loop) && from + done >= |samples| && done <= wanted
    ensures Slice(samples, loop, from, wanted) == Slice(samples, loop, from, done) + Quiet(wanted - done)
  {
    var tail := Slice(samples, loop, from + done, wanted - done);
    forall i | 0 <= i < wanted - done
      ensures tail[i] == Quiet(wanted - done)[i]
    {
      assert tail[i] == Stream(samples, loop, from + done + i);
    }
    assert tail == Quiet(wanted - done);
    SliceConcat(samples, loop, from, done, wanted - done);
  }

  // ---------------------------------------------------------------- many reads

  /** A stream position and the position that stands for it continue alike. */
  lemma SameContinuation(samples: seq<int>, loop: bool, position: nat, at: nat, count: nat)
    requires StandsFor(samples, loop, position, at)
    ensures Slice(samples, loop, position, count) == Slice(samples, loop, at, count)
  {
    forall i | 0 <= i < count
      ensures Slice(samples, loop, position, count)[i] == Slice(samples, loop, at, count)[i]
    {
      if Endless(samples, loop) {
        ModShift(position, at, i, |samples|);
      }
      assert Stream(samples, loop, position + i) == Stream(samples, loop, at + i);
    }
  }

  function Total(sizes: seq<nat>): nat {
    if sizes == [] then 0 else Total(sizes[..|sizes| - 1]) + sizes[|sizes| - 1]
  }

  function PositionAfter(samples: seq<int>, loop: bool, sizes: seq<nat>): (p: nat)
    ensures p <= |samples|
  {
    if sizes == [] then 0
    else After(samples, loop, PositionAfter(samples, loop, sizes[..|sizes| - 1]), sizes[|sizes| - 1])
  }

  /** The outputs of consecutive reads of the given sizes, end to end. */
  function Outputs(samples: seq<int>, loop: bool, sizes: seq<nat>): seq<int> {
    if sizes == [] then []
    else
      var front := sizes[..|sizes| - 1];
      Outputs(samples, loop, front) + Slice(samples, loop, PositionAfter(samples, loop, front), sizes[|sizes| - 1])
  }

  lemma {:induction false} PositionStandsFor(samples: seq<int>, loop: bool, sizes: seq<nat>)
    ensures StandsFor(samples, loop, PositionAfter(samples, loop, sizes), Total(sizes))
  {
    if sizes != [] {
      var front, last := sizes[..|sizes| - 1], sizes[|sizes| - 1];
      PositionStandsFor(samples, loop, front);
      StandsForNext(samples, loop, PositionAfter(samples, loop, front), Total(front), last);
    }
  }

  /** Chunk independence: any sequence of reads yields the same stream, cut wherever it is cut. */
  lemma {:induction false} ChunkIndependence(samples: seq<int>, loop: bool, sizes: seq<nat>)
    ensures Outputs(samples, loop, sizes) == Slice(samples, loop, 0, Total(sizes))
  {
    if sizes != [] {
      var front, last := sizes[..|sizes| - 1], sizes[|sizes| - 1];
      ChunkIndependence(samples, loop, front);
      PositionStandsFor(samples, loop, front);
      SameContinuation(samples, loop, PositionAfter(samples, loop, front), Total(front), last);
      SliceConcat(samples, loop, 0, Total(front), last);
    }
  }

  /** A read reports failure exactly when the material ran out inside it. */
  lemma FailsIffRanOut(samples: seq<int>, loop: bool, sizes: seq<nat>, wanted: nat)
    ensures (Endless(samples, loop) || PositionAfter(samples, loop, sizes) + wanted <= |samples|)
            <==> Endless(samples, loop) || wanted == 0 || Total(sizes) + wanted <= |samples|
  {
    PositionStandsFor(samples, loop, sizes);
  }
}
