/** Python's numeric conversions on exact reals, and the duplicate test
    `len(xs) > len(set(xs))` the validators use. */
module Numerics {

  /** Python's `round(x)`: nearest integer, ties to the even neighbour. */
  function Round(x: real): (r: int)
    ensures (r as real) - 0.5 <= x <= (r as real) + 0.5
    ensures x == (r as real) - 0.5 || x == (r as real) + 0.5 ==> r % 2 == 0
  {
    var f := x.Floor;
    var d := x - f as real;
    if d < 0.5 then f
    else if d > 0.5 then f + 1
    else if f % 2 == 0 then f else f + 1
  }

  // Real products: the solver chains inequalities between products poorly,
  // so these facts are stated once over plain variables.

  lemma MulPos(x: real, y: real)
    requires x > 0.0 && y > 0.0
    ensures x * y > 0.0
  {
  }

  lemma MulNonNeg(x: real, y: real)
    requires x >= 0.0 && y >= 0.0
    ensures x * y >= 0.0
  {
  }

  lemma SquareNonNeg(x: real)
    ensures x * x >= 0.0
  {
    if x < 0.0 {
      MulPos(-x, -x);
      assert x * x == (-x) * (-x);
    }
  }

  lemma SquareLt(a: real, b: real)
    requires 0.0 <= a < b
    ensures a * a < b * b
  {
    MulPos(b - a, b + a);
    assert b * b - a * a == (b - a) * (b + a);
  }

  lemma MulLeRight(a: real, b: real, c: real)
    requires a <= b && 0.0 <= c
    ensures a * c <= b * c
  {
    MulNonNeg(b - a, c);
    assert b * c - a * c == (b - a) * c;
  }

  lemma DivNonNeg(a: real, b: real)
    requires a >= 0.0 && b > 0.0
    ensures a / b >= 0.0
  {
  }

  lemma DivAntitone(n: real, d1: real, d2: real)
    requires n >= 0.0 && 0.0 < d1 <= d2
    ensures n / d2 <= n / d1
  {
  }

  lemma FloorMono(x: real, y: real)
    requires x <= y
    ensures x.Floor <= y.Floor
  {
  }

  lemma QuotientGtOne(a: real, b: real)
    requires b > 0.0
    ensures a / b > 1.0 <==> a > b
    ensures a / b <= 1.0 <==> a <= b
    ensures (a / b) * b == a
  {
  }

  /** Python's `int(x)` on a float: truncation toward zero. */
  function Trunc(x: real): (r: int)
    ensures 0.0 <= x ==> 0 <= r && (r as real) <= x < (r as real) + 1.0
    ensures x < 0.0 ==> r <= 0 && (r as real) - 1.0 < x <= (r as real)
  {
    if x >= 0.0 then x.Floor else -((-x).Floor)
  }

  lemma TruncMonotone(x: real, y: real)
    requires x <= y
    ensures Trunc(x) <= Trunc(y)
  {
  }

  /** `min(max(v, lo), hi)`. */
  function Clamp(v: int, lo: int, hi: int): (r: int)
    requires lo <= hi
    ensures lo <= r <= hi
    ensures lo <= v <= hi ==> r == v
    ensures v < lo ==> r == lo
    ensures hi < v ==> r == hi
  {
    if v < lo then lo else if v > hi then hi else v
  }

  /** The elements of a sequence as a set (Python's `set(xs)`). */
  function ToSet<T>(xs: seq<T>): set<T> {
    if xs == [] then {} else {xs[0]} + ToSet(xs[1..])
  }

  lemma {:induction false} InToSet<T>(xs: seq<T>, x: T)
    ensures x in ToSet(xs) <==> x in xs
  {
    if xs != [] {
      InToSet(xs[1..], x);
    }
  }

  predicate HasDuplicate<T(==)>(xs: seq<T>) {
    exists i, j :: 0 <= i < j < |xs| && xs[i] == xs[j]
  }

  lemma DuplicateCons<T>(xs: seq<T>)
    requires xs != []
    ensures HasDuplicate(xs) <==> xs[0] in xs[1..] || HasDuplicate(xs[1..])
  {
    var t := xs[1..];
    if HasDuplicate(xs) {
      var i, j :| 0 <= i < j < |xs| && xs[i] == xs[j];
      if i == 0 {
        assert t[j - 1] == xs[0];
      } else {
        assert t[i - 1] == t[j - 1];
      }
    }
    if xs[0] in t {
      var j :| 0 <= j < |t| && t[j] == xs[0];
      assert xs[0] == xs[j + 1];
    }
    if HasDuplicate(t) {
      var i, j :| 0 <= i < j < |t| && t[i] == t[j];
      assert xs[i + 1] == xs[j + 1];
    }
  }

  /** `len(xs) > len(set(xs))` holds exactly when some element occurs twice,
      and a set of a sequence is never larger than the sequence. */
  lemma {:induction false} DistinctCount<T>(xs: seq<T>)
    ensures |ToSet(xs)| <= |xs|
    ensures |ToSet(xs)| < |xs| <==> HasDuplicate(xs)
  {
    if xs != [] {
      var t := xs[1..];
      DistinctCount(t);
      DuplicateCons(xs);
      InToSet(t, xs[0]);
      if xs[0] in ToSet(t) {
        assert ToSet(xs) == ToSet(t);
      } else {
        assert |ToSet(xs)| == |ToSet(t)| + 1;
      }
    }
  }
}
