/**
  Dataset comparison of the best master clock algorithm (src/ptp/bmca.cpp, section 9.3.4 of
  IEEE 1588-2008) and its relation to one lexicographic order over nine fields.
*/
module Bmca {
  import opened Common

  type ClockIdentity = id: seq<Byte> | |id| == 8 witness [0, 0, 0, 0, 0, 0, 0, 0]

  datatype PortIdentity = PortIdentity(clock: ClockIdentity, port: nat)

  /** The announced fields the comparison looks at. */
  datatype Dataset = Dataset(
    source: PortIdentity,
    priority1: nat, clockClass: nat, clockAccuracy: nat, variance: nat, priority2: nat,
    grandmaster: ClockIdentity, stepsRemoved: nat)

  datatype Field =
    | Priority1 | ClockClass | ClockAccuracy | Variance | Priority2
    | Grandmaster | StepsRemoved | SenderIdentity | SenderPort | Identical

  datatype Comparison = Comparison(result: int, field: Field)

  // ---------------------------------------------------------------- lexicographic order

  function Sign(x: int, y: int): int {
    if x < y then -1 else if x == y then 0 else 1
  }

  /** Lexicographic comparison of equally long sequences; on identities, std::array's operator<. */
  function Lex(a: seq<int>, b: seq<int>): int
    requires |a| == |b|
  {
    if a == [] then 0
    else if a[0] != b[0] then Sign(a[0], b[0])
    else Lex(a[1..], b[1..])
  }

  lemma {:induction false} LexAntisymmetric(a: seq<int>, b: seq<int>)
    requires |a| == |b|
    ensures Lex(a, b) == -Lex(b, a)
    ensures Lex(a, b) == 0 <==> a == b
  {
    if a != [] && a[0] == b[0] {
      LexAntisymmetric(a[1..], b[1..]);
      assert a == [a[0]] + a[1..] && b == [b[0]] + b[1..];
    }
  }

  lemma {:induction false} LexTransitive(a: seq<int>, b: seq<int>, c: seq<int>)
    requires |a| == |b| == |c|
    requires Lex(a, b) < 0 && Lex(b, c) < 0
    ensures Lex(a, c) < 0
  {
    if a[0] == b[0] == c[0] {
      LexTransitive(a[1..], b[1..], c[1..]);
    }
  }

  lemma {:induction false} LexConcat(a: seq<int>, b: seq<int>, a': seq<int>, b': seq<int>)
    requires |a| == |b| && |a'| == |b'|
    ensures Lex(a + a', b + b') == if a == b then Lex(a', b') else Lex(a, b)
  {
    if a == [] {
      assert a + a' == a' && b + b' == b';
    } else {
      assert (a + a')[1..] == a[1..] + a' && (b + b')[1..] == b[1..] + b';
      LexConcat(a[1..], b[1..], a', b');
      assert a == [a[0]] + a[1..] && b == [b[0]] + b[1..];
    }
  }

  // ---------------------------------------------------------------- the comparison

  function CompareDatasets(a: Dataset, b: Dataset): Comparison {
    if a.grandmaster != b.grandmaster then
      if a.priority1 != b.priority1 then
        Comparison(if a.priority1 < b.priority1 then -1 else 1, Priority1)
      else if a.clockClass != b.clockClass then
        Comparison(if a.clockClass < b.clockClass then -1 else 1, ClockClass)
      else if a.clockAccuracy != b.clockAccuracy then
        Comparison(if a.clockAccuracy < b.clockAccuracy then -1 else 1, ClockAccuracy)
      else if a.variance != b.variance then
        Comparison(if a.variance < b.variance then -1 else 1, Variance)
      else if a.priority2 != b.priority2 then
        Comparison(if a.priority2 < b.priority2 then -1 else 1, Priority2)
      else
        Comparison(if Lex(a.grandmaster, b.grandmaster) < 0 then -1 else 1, Grandmaster)
    else if a.stepsRemoved != b.stepsRemoved then
      Comparison(if a.stepsRemoved < b.stepsRemoved then -1 else 1, StepsRemoved)
    else if a.source.clock != b.source.clock then
      Comparison(if Lex(a.source.clock, b.source.clock) < 0 then -1 else 1, SenderIdentity)
    else if a.source.port != b.source.port then
      Comparison(if a.source.port < b.source.port then -1 else 1, SenderPort)
    else
      Comparison(0, Identical)
  }

  /** Whoever wins, wins both ways round and on the same field; only datasets of one grandmaster
      from one port over one distance tie. */
  lemma Antisymmetric(a: Dataset, b: Dataset)
    ensures CompareDatasets(a, b).result == -CompareDatasets(b, a).result
    ensures CompareDatasets(a, b).field == CompareDatasets(b, a).field
    ensures CompareDatasets(a, b).result == 0
            <==> a.grandmaster == b.grandmaster && a.stepsRemoved == b.stepsRemoved && a.source == b.source
  {
    LexAntisymmetric(a.grandmaster, b.grandmaster);
    LexAntisymmetric(a.source.clock, b.source.clock);
  }

  // ---------------------------------------------------------------- nine-field order

  /** The place of a field in the standard's comparison order. */
  function Rank(f: Field): nat {
    match f
    case Priority1 => 0
    case ClockClass => 1
    case ClockAccuracy => 2
    case Variance => 3
    case Priority2 => 4
    case Grandmaster => 5
    case StepsRemoved => 6
    case SenderIdentity => 7
    case SenderPort => 8
    case Identical => 9
  }

  function Width(f: Field): nat {
    match f
    case Grandmaster => 8
    case SenderIdentity => 8
    case Identical => 0
    case _ => 1
  }

  function Value(d: Dataset, f: Field): (v: seq<int>)
    ensures |v| == Width(f)
  {
    match f
    case Priority1 => [d.priority1]
    case ClockClass => [d.clockClass]
    case ClockAccuracy => [d.clockAccuracy]
    case Variance => [d.variance]
    case Priority2 => [d.priority2]
    case Grandmaster => d.grandmaster
    case StepsRemoved => [d.stepsRemoved]
    case SenderIdentity => d.source.clock
    case SenderPort => [d.source.port]
    case Identical => []
  }

  /** What a grandmaster announces about itself. */
  function Attributes(d: Dataset): (k: seq<int>)
    ensures |k| == 13
  {
    [d.priority1, d.clockClass, d.clockAccuracy, d.variance, d.priority2] + d.grandmaster
  }

  /** How it is reached. */
  function Topology(d: Dataset): (k: seq<int>)
    ensures |k| == 10
  {
    [d.stepsRemoved] + d.source.clock + [d.source.port]
  }

  function Key(d: Dataset): (k: seq<int>)
    ensures |k| == 23
  {
    Attributes(d) + Topology(d)
  }

  /** Equal grandmaster identities announce equal grandmaster attributes. */
  predicate Consistent(a: Dataset, b: Dataset) {
    a.grandmaster == b.grandmaster ==> Attributes(a) == Attributes(b)
  }

  lemma AttributesOrder(a: Dataset, b: Dataset)
    requires a.grandmaster != b.grandmaster
    ensures Attributes(a) != Attributes(b)
    ensures CompareDatasets(a, b).result == Lex(Attributes(a), Attributes(b))
  {
    assert Attributes(a)[5..] == a.grandmaster && Attributes(b)[5..] == b.grandmaster;
    var p := [a.priority1, a.clockClass, a.clockAccuracy, a.variance, a.priority2];
    var q := [b.priority1, b.clockClass, b.clockAccuracy, b.variance, b.priority2];
    LexConcat(p, q, a.grandmaster, b.grandmaster);
    LexFive(p, q);
    LexAntisymmetric(a.grandmaster, b.grandmaster);
    LexSign(a.grandmaster, b.grandmaster);
  }

  lemma LexAt(p: seq<int>, q: seq<int>, i: nat)
    requires i < |p| == |q|
    ensures Lex(p[i..], q[i..]) == if p[i] != q[i] then Sign(p[i], q[i]) else Lex(p[i + 1..], q[i + 1..])
  {
    assert p[i..][1..] == p[i + 1..] && q[i..][1..] == q[i + 1..];
  }

  lemma LexFive(p: seq<int>, q: seq<int>)
    requires |p| == |q| == 5
    ensures Lex(p, q) ==
            if p[0] != q[0] then Sign(p[0], q[0])
            else if p[1] != q[1] then Sign(p[1], q[1])
            else if p[2] != q[2] then Sign(p[2], q[2])
            else if p[3] != q[3] then Sign(p[3], q[3])
            else Sign(p[4], q[4])
    ensures p == q <==> forall i :: 0 <= i < 5 ==> p[i] == q[i]
  {
    LexAt(p, q, 4);
    LexAt(p, q, 3);
    LexAt(p, q, 2);
    LexAt(p, q, 1);
    assert p[5..] == q[5..] == [];
  }

  lemma {:induction false} LexSign(a: seq<int>, b: seq<int>)
    requires |a| == |b|
    ensures -1 <= Lex(a, b) <= 1
  {
    if a != [] && a[0] == b[0] {
      LexSign(a[1..], b[1..]);
    }
  }

  lemma TopologyOrder(a: Dataset, b: Dataset)
    requires a.grandmaster == b.grandmaster
    ensures CompareDatasets(a, b).result == Lex(Topology(a), Topology(b))
  {
    LexConcat([a.stepsRemoved] + a.source.clock, [b.stepsRemoved] + b.source.clock,
              [a.source.port], [b.source.port]);
    LexConcat([a.stepsRemoved], [b.stepsRemoved], a.source.clock, b.source.clock);
    LexAntisymmetric(a.source.clock, b.source.clock);
    LexSign(a.source.clock, b.source.clock);
    assert ([a.stepsRemoved] + a.source.clock)[1..] == a.source.clock;
    assert ([b.stepsRemoved] + b.source.clock)[1..] == b.source.clock;
  }

  /** For consistent datasets the branching comparison is one lexicographic order on the nine
      fields laid end to end. */
  lemma KeyOrder(a: Dataset, b: Dataset)
    requires Consistent(a, b)
    ensures CompareDatasets(a, b).result == Lex(Key(a), Key(b))
  {
    LexConcat(Attributes(a), Attributes(b), Topology(a), Topology(b));
    if a.grandmaster == b.grandmaster {
      TopologyOrder(a, b);
    } else {
      AttributesOrder(a, b);
    }
  }

  /** The reported field is the true reason: it is the first of the nine in which consistent
      datasets differ, and the winner has the smaller value in it. */
  lemma DecidingField(a: Dataset, b: Dataset)
    requires Consistent(a, b)
    ensures var c := CompareDatasets(a, b);
            && (forall f :: Rank(f) < Rank(c.field) ==> Value(a, f) == Value(b, f))
            && c.result == Lex(Value(a, c.field), Value(b, c.field))
            && (c.result == 0 <==> c.field == Identical)
  {
    LexAntisymmetric(a.grandmaster, b.grandmaster);
    LexSign(a.grandmaster, b.grandmaster);
    LexAntisymmetric(a.source.clock, b.source.clock);
    LexSign(a.source.clock, b.source.clock);
    if a.grandmaster == b.grandmaster {
      SameAttributes(a, b);
    }
  }

  lemma SameAttributes(a: Dataset, b: Dataset)
    requires Consistent(a, b) && a.grandmaster == b.grandmaster
    ensures a.priority1 == b.priority1 && a.clockClass == b.clockClass
    ensures a.clockAccuracy == b.clockAccuracy && a.variance == b.variance && a.priority2 == b.priority2
  {
    var k, l := Attributes(a), Attributes(b);
    assert k[0] == l[0] && k[1] == l[1] && k[2] == l[2] && k[3] == l[3] && k[4] == l[4];
  }

  lemma Transitive(a: Dataset, b: Dataset, c: Dataset)
    requires Consistent(a, b) && Consistent(b, c) && Consistent(a, c)
    requires CompareDatasets(a, b).result < 0 && CompareDatasets(b, c).result < 0
    ensures CompareDatasets(a, c).result < 0
  {
    KeyOrder(a, b);
    KeyOrder(b, c);
    KeyOrder(a, c);
    LexTransitive(Key(a), Key(b), Key(c));
  }

  // ---------------------------------------------------------------- without consistency

  predicate Cyclic(a: Dataset, b: Dataset, c: Dataset) {
    && CompareDatasets(a, b).result < 0
    && CompareDatasets(b, c).result < 0
    && CompareDatasets(c, a).result < 0
  }

  /** x and y describe one grandmaster with different attributes, x is topologically better, and
      a third grandmaster lies strictly between y's and x's attributes. */
  predicate Straddled(x: Dataset, y: Dataset, z: Dataset) {
    && x.grandmaster == y.grandmaster != z.grandmaster
    && Lex(Topology(x), Topology(y)) < 0
    && Lex(Attributes(y), Attributes(z)) < 0
    && Lex(Attributes(z), Attributes(x)) < 0
  }

  /** Exactly when three datasets beat each other in a circle. */
  lemma CycleIff(a: Dataset, b: Dataset, c: Dataset)
    ensures Cyclic(a, b, c) <==> Straddled(a, b, c) || Straddled(b, c, a) || Straddled(c, a, b)
  {
    PairOrder(a, b);
    PairOrder(b, c);
    PairOrder(c, a);
    if Cyclic(a, b, c) {
      if a.grandmaster == b.grandmaster == c.grandmaster {
        LexTransitive(Topology(a), Topology(b), Topology(c));
        LexAntisymmetric(Topology(a), Topology(c));
      } else if a.grandmaster != b.grandmaster && b.grandmaster != c.grandmaster && c.grandmaster != a.grandmaster {
        LexTransitive(Attributes(a), Attributes(b), Attributes(c));
        LexAntisymmetric(Attributes(a), Attributes(c));
      }
    }
  }

  lemma PairOrder(a: Dataset, b: Dataset)
    ensures CompareDatasets(a, b).result ==
            if a.grandmaster == b.grandmaster then Lex(Topology(a), Topology(b))
            else Lex(Attributes(a), Attributes(b))
  {
    if a.grandmaster == b.grandmaster {
      TopologyOrder(a, b);
    } else {
      AttributesOrder(a, b);
    }
  }

  // Transitivity can also fail through a tie.

  predicate Intransitive(a: Dataset, b: Dataset, c: Dataset) {
    CompareDatasets(a, b).result < 0 && CompareDatasets(b, c).result < 0 && CompareDatasets(a, c).result >= 0
  }

  /** Straddled, or the same with x and y equally close. */
  predicate StraddledOrLevel(x: Dataset, y: Dataset, z: Dataset) {
    && x.grandmaster == y.grandmaster != z.grandmaster
    && Lex(Topology(x), Topology(y)) <= 0
    && Lex(Attributes(y), Attributes(z)) < 0
    && Lex(Attributes(z), Attributes(x)) < 0
  }

  /** Exactly when the comparison is not transitive on three datasets. */
  lemma TransitiveIff(a: Dataset, b: Dataset, c: Dataset)
    ensures Intransitive(a, b, c) <==> Straddled(a, b, c) || Straddled(b, c, a) || StraddledOrLevel(c, a, b)
  {
    PairOrder(a, b);
    PairOrder(b, c);
    PairOrder(a, c);
    LexAntisymmetric(Attributes(a), Attributes(c));
    LexAntisymmetric(Topology(a), Topology(c));
    if Intransitive(a, b, c) {
      if a.grandmaster == b.grandmaster == c.grandmaster {
        LexTransitive(Topology(a), Topology(b), Topology(c));
      } else if a.grandmaster != b.grandmaster && b.grandmaster != c.grandmaster && c.grandmaster != a.grandmaster {
        LexTransitive(Attributes(a), Attributes(b), Attributes(c));
      } else if a.grandmaster != c.grandmaster {
        AttributesOrder(a, c);
      }
    }
  }

  /** Three masters that beat each other in a circle: one grandmaster announced with priority 1
      and, one step closer, with priority 3, next to another grandmaster with priority 2. */
  lemma CyclicTriple() returns (a: Dataset, b: Dataset, c: Dataset)
    ensures Cyclic(a, b, c) && a.source != b.source && b.source != c.source && c.source != a.source
  {
    var g: ClockIdentity := [1, 0, 0, 0, 0, 0, 0, 0];
    var h: ClockIdentity := [2, 0, 0, 0, 0, 0, 0, 0];
    a := Dataset(PortIdentity(g, 1), 3, 6, 33, 100, 128, g, 0);
    b := Dataset(PortIdentity(h, 1), 1, 6, 33, 100, 128, g, 1);
    c := Dataset(PortIdentity(h, 2), 2, 6, 33, 100, 128, h, 0);
    assert g[0] != h[0];
  }

  /** And three of which the first beats the second, the second the third, and the first and third
      tie: one port announcing one grandmaster with priority 1 and again with priority 3. */
  lemma LevelTriple() returns (a: Dataset, b: Dataset, c: Dataset)
    ensures Intransitive(a, b, c) && CompareDatasets(a, c).result == 0
  {
    var g: ClockIdentity := [1, 0, 0, 0, 0, 0, 0, 0];
    var h: ClockIdentity := [2, 0, 0, 0, 0, 0, 0, 0];
    a := Dataset(PortIdentity(g, 1), 1, 6, 33, 100, 128, g, 0);
    b := Dataset(PortIdentity(h, 1), 2, 6, 33, 100, 128, h, 0);
    c := Dataset(PortIdentity(g, 1), 3, 6, 33, 100, 128, g, 0);
    assert g[0] != h[0];
  }
}
