/** Small shared vocabulary: optional values, time units and the slice rule of
    JavaScript arrays, used by every other module of the model. */
module Common {

  datatype Option<T> = None | Some(value: T)

  /** Milliseconds in one hour and in one day (fixed 24 h days). */
  const HourMs: int := 60 * 60 * 1000
  const DayMs: int := 24 * HourMs

  function Max(a: int, b: int): (r: int)
    ensures r >= a && r >= b && (r == a || r == b)
  {
    if a >= b then a else b
  }

  function Min(a: int, b: int): (r: int)
    ensures r <= a && r <= b && (r == a || r == b)
  {
    if a <= b then a else b
  }

  /** JavaScript's `Math.round(n / d)` for d > 0: rounds half toward +infinity. */
  function RoundDiv(n: int, d: int): (r: int)
    requires d > 0
    ensures 2 * d * r - d <= 2 * n < 2 * d * r + d
  {
    (2 * n + d) / (2 * d)
  }

  /** `Math.floor(n / d)` for d > 0. */
  function FloorDiv(n: int, d: int): (r: int)
    requires d > 0
    ensures d * r <= n < d * r + d
  {
    n / d
  }

  /** The UTC calendar day (days since 1970-01-01) holding instant t, i.e. the
      date part of `new Date(t).toISOString()`. */
  function UtcDay(t: int): (d: int)
    ensures d * DayMs <= t < d * DayMs + DayMs
  {
    t / DayMs
  }

  /** `s.slice(0, end)` of a JavaScript array: a negative end counts from the back. */
  function SliceTo<T>(s: seq<T>, end: int): (r: seq<T>)
    ensures end >= 0 ==> |r| == Min(end, |s|)
    ensures end < 0 ==> |r| == Max(|s| + end, 0)
    ensures r == s[..|r|]
  {
    if end >= 0 then s[..Min(end, |s|)]
    else s[..Max(|s| + end, 0)]
  }

  /** Extending a prefix by one element, as every left-to-right loop does:
      the longer prefix starts with the shorter one and ends with s[k]. */
  lemma PrefixStep<T>(s: seq<T>, k: nat)
    requires k < |s|
    ensures s[..k + 1][..k] == s[..k]
    ensures s[..k + 1][k] == s[k]
  {
  }

  /** The same step written as a concatenation. */
  lemma PrefixAppend<T>(s: seq<T>, k: nat)
    requires k < |s|
    ensures s[..k + 1] == s[..k] + [s[k]]
  {
  }

  /** Number of elements of s that satisfy p. */
  function CountWhere<T>(s: seq<T>, p: T -> bool): (n: nat)
    ensures n <= |s|
  {
    if s == [] then 0 else (if p(s[0]) then 1 else 0) + CountWhere(s[1..], p)
  }

  lemma {:induction false} CountWhereAppend<T>(s: seq<T>, x: T, p: T -> bool)
    ensures CountWhere(s + [x], p) == CountWhere(s, p) + (if p(x) then 1 else 0)
  {
    if s != [] {
      assert (s + [x])[1..] == s[1..] + [x];
      CountWhereAppend(s[1..], x, p);
    }
  }

  /** Elements of s that satisfy p, in order (JavaScript `filter`). */
  function Filter<T>(s: seq<T>, p: T -> bool): (r: seq<T>)
    ensures |r| == CountWhere(s, p)
    ensures forall x :: x in r ==> x in s && p(x)
    ensures forall x :: x in s && p(x) ==> x in r
  {
    if s == [] then []
    else
      assert s == [s[0]] + s[1..];
      (if p(s[0]) then [s[0]] else []) + Filter(s[1..], p)
  }

  lemma {:induction false} FilterAppend<T>(s: seq<T>, t: seq<T>, p: T -> bool)
    ensures Filter(s + t, p) == Filter(s, p) + Filter(t, p)
  {
    if s == [] {
      assert s + t == t;
    } else {
      assert (s + t)[1..] == s[1..] + t;
      FilterAppend(s[1..], t, p);
    }
  }

  /** Filtering with a test every element passes changes nothing. */
  lemma {:induction false} FilterAll<T>(s: seq<T>, p: T -> bool)
    requires forall i :: 0 <= i < |s| ==> p(s[i])
    ensures Filter(s, p) == s
  {
    if s != [] {
      assert forall i :: 0 <= i < |s[1..]| ==> p(s[1..][i]);
      FilterAll(s[1..], p);
      assert p(s[0]);
    }
  }

  /** Filtering a sequence, seen from its last element. */
  lemma FilterSingle<T>(x: T, p: T -> bool)
    ensures Filter([x], p) == if p(x) then [x] else []
  {
    assert [x][1..] == [];
  }

  lemma FilterSnoc<T>(s: seq<T>, p: T -> bool)
    requires s != []
    ensures Filter(s, p) == Filter(s[..|s| - 1], p) + (if p(s[|s| - 1]) then [s[|s| - 1]] else [])
  {
    var init := s[..|s| - 1];
    var x := s[|s| - 1];
    assert s == init + [x];
    FilterAppend(init, [x], p);
    FilterSingle(x, p);
  }

  /** `(part / whole) * 100`, computed exactly. */
  function Percentage(part: nat, whole: nat): real
    requires 0 < whole
  {
    (part as real / whole as real) * 100.0
  }

  lemma PercentageBounds(part: nat, whole: nat)
    requires 0 < whole && part <= whole
    ensures 0.0 <= Percentage(part, whole) <= 100.0
    ensures Percentage(part, whole) == 100.0 <==> part == whole
    ensures Percentage(part, whole) == 0.0 <==> part == 0
  {
    PercentageBelow(part, whole, 0);
    PercentageBelow(part, whole, 100);
    if part == whole {
      assert part as real / whole as real == 1.0;
    }
    if part == 0 {
      assert part as real / whole as real == 0.0;
    }
    if Percentage(part, whole) == 0.0 {
      assert Percentage(part, whole) * whole as real == (100 * part) as real;
    }
  }

  /** Comparing a percentage with a whole-number threshold k is comparing
      100 * part with k * whole. */
  lemma PercentageBelow(part: nat, whole: nat, k: nat)
    requires 0 < whole
    ensures Percentage(part, whole) < k as real <==> 100 * part < k * whole
  {
    var q := part as real / whole as real;
    assert q * whole as real == part as real;
    assert Percentage(part, whole) * whole as real == (100 * part) as real;
    assert (k * whole) as real == k as real * whole as real;
  }

  /** `whole > 0 ? Math.round((part / whole) * 100) : 0`. */
  function RoundedPercent(part: nat, whole: nat): int
  {
    if whole > 0 then RoundDiv(100 * part, whole) else 0
  }

  /** A rounded percentage of a part lies in 0..100, is 100 for the whole and
      0 for nothing. */
  lemma RoundedPercentBounds(part: nat, whole: nat)
    requires part <= whole
    ensures 0 <= RoundedPercent(part, whole) <= 100
    ensures part == 0 ==> RoundedPercent(part, whole) == 0
    ensures 0 < whole && part == whole ==> RoundedPercent(part, whole) == 100
  {
    if whole > 0 {
      var r := RoundDiv(100 * part, whole);
      PosFactor(whole, 2 * r + 1);
      assert 2 * whole * r - whole == whole * (2 * r - 1);
      MulCancelLe(whole, 2 * r - 1, 200);
      if part == 0 {
        MulCancelLe(whole, 2 * r - 1, 0);
      }
      if part == whole {
        MulCancelLt(whole, 200, 2 * r + 1);
      }
    }
  }

  lemma PosFactor(a: int, b: int)
    requires a > 0 && a * b > 0
    ensures b > 0
  {
  }

  lemma MulCancelLe(a: int, x: int, y: int)
    requires a > 0 && a * x <= a * y
    ensures x <= y
  {
    assert a * (x - y) == a * x - a * y;
  }

  lemma MulCancelLt(a: int, x: int, y: int)
    requires a > 0 && a * x < a * y
    ensures x < y
  {
    assert a * (x - y) == a * x - a * y;
  }
}
