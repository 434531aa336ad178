/**
 The box-counting dimension of an activity timeline (omokoda-core/src/dream.rs), in exact arithmetic.
 The natural logarithm is a parameter, of which only the laws in `LogLaws` are used.
 */
module Fractal {
  import opened Arithmetic
  import opened Collections

  type Log = real -> real

  /** Strictly increasing, turning a factor of two into a summand, with ln 2 above one half. */
  ghost predicate LogLaws(ln: Log) {
    && (forall x: real, y: real :: 0.0 < x < y ==> ln(x) < ln(y))
    && (forall x: real :: x > 0.0 ==> ln(2.0 * x) == ln(2.0) + ln(x))
    && ln(2.0) >= 0.5
  }

  const EPSILON: real := 0.0000000000000002220446049250313080847263336181640625

  function Least(ts: seq<nat>): (m: nat)
    requires ts != []
    ensures m in ts && forall t :: t in ts ==> m <= t
  {
    if |ts| == 1 then ts[0]
    else
      var m := Least(ts[1..]);
      assert ts == [ts[0]] + ts[1..];
      if ts[0] <= m then ts[0] else m
  }

  function Greatest(ts: seq<nat>): (m: nat)
    requires ts != []
    ensures m in ts && forall t :: t in ts ==> t <= m
  {
    if |ts| == 1 then ts[0]
    else
      var m := Greatest(ts[1..]);
      assert ts == [ts[0]] + ts[1..];
      if ts[0] >= m then ts[0] else m
  }

  /** The box a timestamp `x` seconds after the first falls into; the last timestamp is clamped into the last box. */
  function Box(x: nat, span: nat, boxes: nat): (b: nat)
    requires span > 0 && boxes > 0
    ensures b < boxes
  {
    var idx := x * boxes / span;
    if idx <= boxes - 1 then idx else boxes - 1
  }

  ghost predicate Timeline(ts: seq<nat>) {
    ts != [] && Least(ts) < Greatest(ts)
  }

  function BoxOf(ts: seq<nat>, t: nat, boxes: nat): (b: nat)
    requires Timeline(ts) && t in ts && boxes > 0
    ensures b < boxes
  {
    Box(t - Least(ts), Greatest(ts) - Least(ts), boxes)
  }

  function Occupied(ts: seq<nat>, boxes: nat): set<nat>
    requires Timeline(ts) && boxes > 0
  {
    set t | t in ts :: BoxOf(ts, t, boxes)
  }

  /** Box `b` of so many holds its part of the span; the end of the span itself is in the last one. */
  lemma BoxContains(ts: seq<nat>, t: nat, boxes: nat)
    requires Timeline(ts) && t in ts && boxes > 0
    ensures
      var b, x, span := BoxOf(ts, t, boxes), t - Least(ts), Greatest(ts) - Least(ts);
      span * b <= x * boxes && (x * boxes < span * (b + 1) || (b == boxes - 1 && t == Greatest(ts)))
  {
    hide Least, Greatest;
    var x, span := t - Least(ts), Greatest(ts) - Least(ts);
    var q := x * boxes / span;
    Division(x * boxes, span);
    assert span * (q + 1) == span * q + span;
    if q >= boxes { LastBox(x, span, boxes, q); }
  }

  lemma LastBox(x: nat, span: nat, boxes: nat, q: nat)
    requires span > 0 && boxes > 0 && x <= span && q >= boxes && span * q <= x * boxes
    ensures x == span && span * (boxes - 1) <= x * boxes
  {
    ProductGrows(span, boxes, q);
    ProductGrows(span, boxes - 1, boxes);
    ProductRises(x, span, boxes);
  }

  lemma ProductGrows(d: nat, a: int, b: int)
    requires a <= b
    ensures d * a <= d * b
  {
    assert d * (b - a) >= 0;
  }

  lemma ProductRises(a: nat, b: nat, d: nat)
    requires d > 0
    ensures a < b ==> a * d < b * d
  {
    if a < b {
      AtLeastOnce(d, b - a);
      assert d * (b - a) == b * d - a * d;
    }
  }

  function Sum(s: seq<real>): real {
    if s == [] then 0.0 else s[0] + Sum(s[1..])
  }

  function Times(a: seq<real>, b: seq<real>): seq<real>
    requires |a| == |b|
  {
    seq(|a|, i requires 0 <= i < |a| => a[i] * b[i])
  }

  function Denominator(xs: seq<real>): real {
    |xs| as real * Sum(Times(xs, xs)) - Sum(xs) * Sum(xs)
  }

  function Numerator(xs: seq<real>, ys: seq<real>): real
    requires |xs| == |ys|
  {
    |xs| as real * Sum(Times(xs, ys)) - Sum(xs) * Sum(ys)
  }

  function Abs(x: real): real { if x < 0.0 then -x else x }

  /** The box counts tried: 2, 4, ... 64. */
  const BOXES: seq<nat> := [2, 4, 8, 16, 32, 64]

  function LogBoxes(ln: Log): (r: seq<real>)
    ensures |r| == 6
  {
    seq(6, k requires 0 <= k < 6 => ln(BOXES[k] as real))
  }

  function LogCounts(ts: seq<nat>, ln: Log): (r: seq<real>)
    requires Timeline(ts)
    ensures |r| == 6
  {
    seq(6, k requires 0 <= k < 6 => ln(|Occupied(ts, BOXES[k])| as real))
  }

  function Slope(ts: seq<nat>, ln: Log): real
    requires Timeline(ts) && Denominator(LogBoxes(ln)) != 0.0
  {
    Numerator(LogBoxes(ln), LogCounts(ts, ln)) / Denominator(LogBoxes(ln))
  }

  function Dimension(ts: seq<nat>, ln: Log): real {
    if ts == [] || Least(ts) == Greatest(ts) then 1.0
    else if Abs(Denominator(LogBoxes(ln))) < EPSILON then 1.0
    else Clamp01(Slope(ts, ln))
  }

  // ---- The method ----

  function CountTrue(s: seq<bool>): nat {
    if s == [] then 0 else CountTrue(s[..|s| - 1]) + (if s[|s| - 1] then 1 else 0)
  }

  lemma {:induction false} CountTrueIsCardinality(s: seq<bool>)
    ensures CountTrue(s) == |Marked(s)|
  {
    if s == [] {
    } else {
      var last := |s| - 1;
      CountTrueIsCardinality(s[..last]);
      MarkedSnoc(s[..last], s[last]);
      assert s == s[..last] + [s[last]];
    }
  }

  /** The places marked true. */
  function Marked(s: seq<bool>): set<nat> {
    set i: nat | i < |s| && s[i]
  }

  lemma MarkedSnoc(s: seq<bool>, b: bool)
    ensures Marked(s + [b]) == (if b then Marked(s) + {|s|} else Marked(s)) && |s| !in Marked(s)
  {
  }

  /** A mark for each box that some timestamp falls into. */
  ghost predicate MarksUpTo(marks: seq<bool>, ts: seq<nat>, boxes: nat, n: nat)
    requires Timeline(ts) && boxes > 0 && n <= |ts|
  {
    |marks| == boxes && forall b :: 0 <= b < boxes ==> (marks[b] <==> MarkedBy(ts, boxes, n, b))
  }

  ghost predicate MarkedBy(ts: seq<nat>, boxes: nat, n: nat, b: nat)
    requires Timeline(ts) && boxes > 0 && n <= |ts|
  {
    exists j :: 0 <= j < n && BoxOf(ts, ts[j], boxes) == b
  }

  lemma MarkNext(marks: seq<bool>, ts: seq<nat>, boxes: nat, n: nat)
    requires Timeline(ts) && boxes > 0 && n < |ts| && MarksUpTo(marks, ts, boxes, n)
    ensures MarksUpTo(marks[BoxOf(ts, ts[n], boxes) := true], ts, boxes, n + 1)
  {
    hide BoxOf, Timeline;
    forall b | 0 <= b < boxes
      ensures MarkedBy(ts, boxes, n + 1, b) <==> MarkedBy(ts, boxes, n, b) || b == BoxOf(ts, ts[n], boxes)
    {
      if b == BoxOf(ts, ts[n], boxes) { assert BoxOf(ts, ts[n], boxes) == b; }
    }
  }

  lemma MarkedIsOccupied(marks: seq<bool>, ts: seq<nat>, boxes: nat)
    requires Timeline(ts) && boxes > 0 && MarksUpTo(marks, ts, boxes, |ts|)
    ensures Marked(marks) == Occupied(ts, boxes)
  {
    hide BoxOf, Timeline;
    forall b | b in Occupied(ts, boxes) ensures b in Marked(marks) {
      var t :| t in ts && BoxOf(ts, t, boxes) == b;
      var j :| 0 <= j < |ts| && ts[j] == t;
      assert MarkedBy(ts, boxes, |ts|, b);
    }
  }

  method CountOccupied(ts: seq<nat>, boxes: nat) returns (n: nat)
    requires Timeline(ts) && boxes > 0
    ensures n == |Occupied(ts, boxes)|
  {
    hide MarksUpTo, BoxOf, Timeline;
    var occupied := new bool[boxes](_ => false);
    NoMarks(occupied[..], ts, boxes);
    for i := 0 to |ts|
      invariant MarksUpTo(occupied[..], ts, boxes, i)
    {
      MarkNext(occupied[..], ts, boxes, i);
      occupied[BoxOf(ts, ts[i], boxes)] := true;
    }
    n := 0;
    for b := 0 to boxes
      invariant n == CountTrue(occupied[..b])
    {
      assert occupied[..b + 1] == occupied[..b] + [occupied[b]];
      if occupied[b] {
        n := n + 1;
      }
    }
    assert occupied[..boxes] == occupied[..];
    CountTrueIsCardinality(occupied[..]);
    MarkedIsOccupied(occupied[..], ts, boxes);
  }

  lemma NoMarks(marks: seq<bool>, ts: seq<nat>, boxes: nat)
    requires Timeline(ts) && boxes > 0 && |marks| == boxes && forall b :: 0 <= b < boxes ==> !marks[b]
    ensures MarksUpTo(marks, ts, boxes, 0)
  {
  }

  method FractalDimension(ts: seq<nat>, ln: Log) returns (d: real)
    ensures d == Dimension(ts, ln)
  {
    hide Occupied, Least, Greatest, Clamp01;
    if ts == [] {
      return 1.0;
    }
    if Greatest(ts) == Least(ts) {
      return 1.0;
    }
    var xs, ys := [], [];
    for k := 0 to 6
      invariant xs == LogBoxes(ln)[..k] && ys == LogCounts(ts, ln)[..k]
    {
      var n := CountOccupied(ts, BOXES[k]);
      xs, ys := xs + [ln(BOXES[k] as real)], ys + [ln(n as real)];
    }
    assert xs == LogBoxes(ln) && ys == LogCounts(ts, ln);
    hide Sum, Times;
    var m := |xs| as real;
    var denom := m * Sum(Times(xs, xs)) - Sum(xs) * Sum(xs);
    assert denom == Denominator(LogBoxes(ln));
    if Abs(denom) < EPSILON {
      return 1.0;
    }
    var numer := m * Sum(Times(xs, ys)) - Sum(xs) * Sum(ys);
    assert numer == Numerator(LogBoxes(ln), LogCounts(ts, ln));
    d := Clamp01(numer / denom);
  }

  // ---- Doubling the boxes ----

  lemma HalvedQuotient(y: nat, span: nat)
    requires span > 0
    ensures (2 * y / span) / 2 == y / span
  {
    DivDiv(2 * y, span, 2);
    DivDiv(2 * y, 2, span);
  }

  /** A box at one scale is the union of two boxes at the next, the clamped last box included. */
  lemma BoxHalves(x: nat, span: nat, boxes: nat)
    requires span > 0 && boxes > 0
    ensures Box(x, span, 2 * boxes) / 2 == Box(x, span, boxes)
  {
    HalvedQuotient(x * boxes, span);
    assert x * (2 * boxes) == 2 * (x * boxes);
  }

  function Halves(s: set<nat>): set<nat> {
    set b | b in s :: b / 2
  }

  lemma HalvesOfUnion(s: set<nat>, rest: set<nat>, h: nat, c: nat)
    requires rest <= s && c in s - rest && (forall b :: b in s - rest ==> b / 2 == h)
    ensures Halves(s) == Halves(rest) + {h}
  {
    assert c / 2 in Halves(s);
    forall x | x in Halves(s) ensures x in Halves(rest) + {h} {
      var b :| b in s && b / 2 == x;
      assert b in rest || b in s - rest;
    }
  }

  lemma {:induction false} HalvesSize(s: set<nat>)
    ensures |Halves(s)| <= |s| <= 2 * |Halves(s)|
    decreases |s|
  {
    if s != {} {
      var b :| b in s;
      var h := b / 2;
      var pair := s * {2 * h, 2 * h + 1};
      var rest := s - pair;
      assert b in pair;
      SubsetSize(pair, {2 * h, 2 * h + 1});
      SubsetSize({b}, pair);
      assert s == rest + pair && |s| == |rest| + |pair|;
      HalvesSize(rest);
      HalvesOfUnion(s, rest, h, b);
      assert h !in Halves(rest);
    }
  }

  lemma OccupiedHalves(ts: seq<nat>, boxes: nat)
    requires Timeline(ts) && boxes > 0
    ensures Halves(Occupied(ts, 2 * boxes)) == Occupied(ts, boxes)
  {
    forall t | t in ts ensures BoxOf(ts, t, 2 * boxes) / 2 == BoxOf(ts, t, boxes) {
      BoxHalves(t - Least(ts), Greatest(ts) - Least(ts), boxes);
    }
    hide BoxOf;
    var fine, coarse := Occupied(ts, 2 * boxes), Occupied(ts, boxes);
    forall b | b in coarse ensures b in Halves(fine) {
      var t :| t in ts && BoxOf(ts, t, boxes) == b;
      assert BoxOf(ts, t, 2 * boxes) in fine;
    }
  }

  /** Doubling the number of boxes never lowers the occupied count and at most doubles it. */
  lemma DoublingBoxes(ts: seq<nat>, boxes: nat)
    requires Timeline(ts) && boxes > 0
    ensures 1 <= |Occupied(ts, boxes)| <= |Occupied(ts, 2 * boxes)| <= 2 * |Occupied(ts, boxes)|
  {
    hide BoxOf;
    OccupiedHalves(ts, boxes);
    HalvesSize(Occupied(ts, 2 * boxes));
    assert BoxOf(ts, ts[0], boxes) in Occupied(ts, boxes);
    SubsetSize({BoxOf(ts, ts[0], boxes)}, Occupied(ts, boxes));
  }

  // ---- The slope ----

  lemma SumOfSix(s: seq<real>)
    requires |s| == 6
    ensures Sum(s) == s[0] + s[1] + s[2] + s[3] + s[4] + s[5]
  {
    assert Sum(s[6..]) == 0.0;
    SumFrom(s, 5);
    SumFrom(s, 4);
    SumFrom(s, 3);
    SumFrom(s, 2);
    SumFrom(s, 1);
  }

  lemma SumFrom(s: seq<real>, i: nat)
    requires i < |s|
    ensures Sum(s[i..]) == s[i] + Sum(s[i + 1..])
  {
    assert s[i..][1..] == s[i + 1..];
  }

  lemma LogBoxesAreMultiples(ln: Log)
    requires LogLaws(ln)
    ensures forall k :: 0 <= k < 6 ==> LogBoxes(ln)[k] == (k + 1) as real * ln(2.0)
  {
    assert ln(2.0 * 1.0) == ln(2.0) + ln(1.0);
    assert ln(2.0 * 2.0) == ln(2.0) + ln(2.0);
    assert ln(2.0 * 4.0) == ln(2.0) + ln(4.0);
    assert ln(2.0 * 8.0) == ln(2.0) + ln(8.0);
    assert ln(2.0 * 16.0) == ln(2.0) + ln(16.0);
    assert ln(2.0 * 32.0) == ln(2.0) + ln(32.0);
  }

  /** For six evenly spaced abscissae the least-squares slope is a weighted mean of the five rises. */
  lemma EvenSlope(xs: seq<real>, ys: seq<real>, step: real)
    requires |xs| == |ys| == 6
    requires forall k :: 0 <= k < 6 ==> xs[k] == (k + 1) as real * step
    ensures Denominator(xs) == 105.0 * step * step
    ensures Numerator(xs, ys) == 3.0 * step * Rises(ys)
  {
    SumOfSix(xs);
    SumOfSix(ys);
    SumOfSix(Times(xs, xs));
    SumOfSix(Times(xs, ys));
    assert Sum(xs) == 21.0 * step;
    assert Sum(Times(xs, xs)) == 91.0 * step * step;
  }

  /** The rises y2-y1, ..., y6-y5, weighted 5, 8, 9, 8, 5. */
  function Rises(ys: seq<real>): real
    requires |ys| == 6
  {
    5.0 * (ys[1] - ys[0]) + 8.0 * (ys[2] - ys[1]) + 9.0 * (ys[3] - ys[2]) + 8.0 * (ys[4] - ys[3])
        + 5.0 * (ys[5] - ys[4])
  }

  lemma CountsDouble(ts: seq<nat>, k: nat)
    requires Timeline(ts) && k < 5
    ensures 1 <= |Occupied(ts, BOXES[k])| <= |Occupied(ts, BOXES[k + 1])| <= 2 * |Occupied(ts, BOXES[k])|
  {
    hide Occupied;
    assert BOXES[k + 1] == 2 * BOXES[k];
    DoublingBoxes(ts, BOXES[k]);
  }

  lemma LogIsMonotone(ln: Log, x: real, y: real)
    requires LogLaws(ln) && 0.0 < x <= y
    ensures ln(x) <= ln(y)
    ensures ln(x) == ln(y) ==> x == y
  {
    if x < y { assert ln(x) < ln(y); }
  }

  /** From one scale to the next the logarithm of the count rises by at least 0 and at most ln 2. */
  lemma RiseBounds(ts: seq<nat>, ln: Log, k: nat)
    requires Timeline(ts) && LogLaws(ln) && k < 5
    ensures
      var rise := LogCounts(ts, ln)[k + 1] - LogCounts(ts, ln)[k];
      var n, n' := |Occupied(ts, BOXES[k])|, |Occupied(ts, BOXES[k + 1])|;
      && 0.0 <= rise <= ln(2.0)
      && (rise == 0.0 <==> n' == n)
      && (rise == ln(2.0) <==> n' == 2 * n)
  {
    hide Occupied;
    CountsDouble(ts, k);
    var n, n' := |Occupied(ts, BOXES[k])| as real, |Occupied(ts, BOXES[k + 1])| as real;
    LogIsMonotone(ln, n, n');
    LogIsMonotone(ln, n', 2.0 * n);
    assert ln(2.0 * n) == ln(2.0) + ln(n);
  }

  lemma TwoBoxesOccupied(ts: seq<nat>)
    requires Timeline(ts)
    ensures |Occupied(ts, 2)| == 2
  {
    var lo, hi := Least(ts), Greatest(ts);
    assert BoxOf(ts, lo, 2) == 0;
    QuotientUnique((hi - lo) * 2, hi - lo, 2, 0);
    assert BoxOf(ts, hi, 2) == 1;
    assert Occupied(ts, 2) == {0, 1};
  }

  /**
   The least-squares slope already lies in [0, 1], so the final clamp changes nothing. It is 1 exactly when all
   64 of the finest boxes are occupied, and 0 exactly when only the first and the last are.
   */
  lemma SlopeIsInRange(ts: seq<nat>, ln: Log)
    requires Timeline(ts) && LogLaws(ln)
    ensures Denominator(LogBoxes(ln)) >= EPSILON
    ensures 0.0 <= Slope(ts, ln) <= 1.0 && Dimension(ts, ln) == Slope(ts, ln)
    ensures Slope(ts, ln) == 1.0 <==> |Occupied(ts, 64)| == 64
    ensures Slope(ts, ln) == 0.0 <==> |Occupied(ts, 64)| == 2
  {
    hide Occupied, Rises, LogCounts, LogBoxes, Numerator, Denominator, Least, Greatest;
    var xs, ys, step := LogBoxes(ln), LogCounts(ts, ln), ln(2.0);
    LogBoxesAreMultiples(ln);
    EvenSlope(xs, ys, step);
    DenominatorPositive(step);
    SlopeValue(step, Rises(ys));
    RisesInRange(ts, ln);
  }

  lemma DenominatorPositive(step: real)
    requires step >= 0.5
    ensures 105.0 * step * step >= 26.0
  {
    assert step * step >= 0.25;
  }

  lemma SlopeValue(step: real, rises: real)
    requires step >= 0.5 && 105.0 * step * step > 0.0
    ensures (3.0 * step * rises) / (105.0 * step * step) == rises / (35.0 * step)
    ensures 0.0 <= rises <= 35.0 * step ==> 0.0 <= rises / (35.0 * step) <= 1.0
    ensures rises / (35.0 * step) == 1.0 <==> rises == 35.0 * step
    ensures rises / (35.0 * step) == 0.0 <==> rises == 0.0
  {
    var q := rises / (35.0 * step);
    assert q * (35.0 * step) == rises;
    assert q * (105.0 * step * step) == 3.0 * step * rises;
  }

  lemma RisesInRange(ts: seq<nat>, ln: Log)
    requires Timeline(ts) && LogLaws(ln)
    ensures 0.0 <= Rises(LogCounts(ts, ln)) <= 35.0 * ln(2.0)
    ensures Rises(LogCounts(ts, ln)) == 35.0 * ln(2.0) <==> |Occupied(ts, 64)| == 64
    ensures Rises(LogCounts(ts, ln)) == 0.0 <==> |Occupied(ts, 64)| == 2
  {
    hide Occupied, LogCounts;
    TwoBoxesOccupied(ts);
    RiseBounds(ts, ln, 0);
    RiseBounds(ts, ln, 1);
    RiseBounds(ts, ln, 2);
    RiseBounds(ts, ln, 3);
    RiseBounds(ts, ln, 4);
    CountsDouble(ts, 0);
    CountsDouble(ts, 1);
    CountsDouble(ts, 2);
    CountsDouble(ts, 3);
    CountsDouble(ts, 4);
    assert BOXES[0] == 2 && BOXES[1] == 4 && BOXES[2] == 8 && BOXES[3] == 16 && BOXES[4] == 32 && BOXES[5] == 64;
  }

  /** A timeline with fewer than two distinct timestamps counts as steady. */
  lemma DegenerateTimelines(ts: seq<nat>, ln: Log)
    ensures (forall s, t :: s in ts && t in ts ==> s == t) ==> Dimension(ts, ln) == 1.0
    ensures (exists s, t :: s in ts && t in ts && s != t) ==> Timeline(ts)
  {
  }
}
