/** Rounding, means and medians on exact rationals (tools/tool_definition_score.py). */
module ScoreArithmetic {

  /** p / q rounded half up to one decimal. */
  function Round1(p: real, q: nat): real
    requires q > 0
  {
    ((20.0 * p + q as real) / (2 * q) as real).Floor as real / 10.0
  }

  predicate IsTenths(x: real) {
    (10.0 * x).Floor as real == 10.0 * x
  }

  lemma DivisionIsMonotone(a: real, b: real, c: real)
    requires a <= b && c > 0.0
    ensures a / c <= b / c
  {
    assert (b - a) / c >= 0.0;
    assert b / c == a / c + (b - a) / c;
  }

  lemma Quotient(p: real, a: real, c: real)
    requires c != 0.0 && p == a * c
    ensures p / c == a
  {
  }

  lemma Doubled(p: real, r: real, c: real)
    requires p == r * c
    ensures 20.0 * p + c == (10.0 * r + 0.5) * (2.0 * c)
  {
    assert (10.0 * r + 0.5) * (2.0 * c) == 20.0 * (r * c) + c;
  }

  /** The result is the one tenth no further than half a tenth away, and above in the middle. */
  lemma Round1IsNearest(p: real, q: nat)
    requires q > 0
    ensures IsTenths(Round1(p, q)) && Round1(p, q) - 0.05 <= p / q as real < Round1(p, q) + 0.05
  {
    var x, r, c := (20.0 * p + q as real) / (2 * q) as real, p / q as real, q as real;
    assert p == r * c && (2 * q) as real == 2.0 * c;
    Doubled(p, r, c);
    Quotient(20.0 * p + c, 10.0 * r + 0.5, 2.0 * c);
    assert 10.0 * Round1(p, q) == x.Floor as real;
  }

  lemma NearestIsUnique(x: real, r: real, s: real)
    requires IsTenths(r) && IsTenths(s) && r - 0.05 <= x < r + 0.05 && s - 0.05 <= x < s + 0.05
    ensures r == s
  {
    var a, b := (10.0 * r).Floor, (10.0 * s).Floor;
    assert -1 < a - b < 1;
  }

  lemma Round1IsMonotone(p: real, p': real, q: nat)
    requires q > 0 && p <= p'
    ensures Round1(p, q) <= Round1(p', q)
  {
    DivisionIsMonotone(20.0 * p + q as real, 20.0 * p' + q as real, (2 * q) as real);
  }

  /** A quotient that is a number of tenths is its own rounding. */
  lemma Round1Keeps(p: real, r: real, q: nat)
    requires q > 0 && IsTenths(r) && p == r * q as real
    ensures Round1(p, q) == r
  {
    Round1IsNearest(p, q);
    Quotient(p, r, q as real);
    NearestIsUnique(r, r, Round1(p, q));
  }

  // ----- Sums -----

  function Sum(values: seq<real>): real {
    if values == [] then 0.0 else values[0] + Sum(values[1..])
  }

  predicate AtMost(a: seq<real>, b: seq<real>) {
    |a| == |b| && forall i :: 0 <= i < |a| ==> a[i] <= b[i]
  }

  lemma {:induction false} SumIsMonotone(a: seq<real>, b: seq<real>)
    requires AtMost(a, b)
    ensures Sum(a) <= Sum(b)
  {
    if a != [] { SumIsMonotone(a[1..], b[1..]); }
  }

  lemma {:induction false} SumIsBounded(values: seq<real>, low: real)
    requires forall i :: 0 <= i < |values| ==> low <= values[i]
    ensures low * |values| as real <= Sum(values)
  {
    if values != [] { SumIsBounded(values[1..], low); }
  }

  function Minimum(values: seq<real>): (m: real)
    requires values != []
    ensures m in values && forall i :: 0 <= i < |values| ==> m <= values[i]
  {
    if |values| == 1 then values[0]
    else
      var rest := Minimum(values[1..]);
      if values[0] <= rest then values[0] else rest
  }

  lemma MinimumIsMonotone(a: seq<real>, b: seq<real>)
    requires AtMost(a, b) && a != []
    ensures Minimum(a) <= Minimum(b)
  {
    var i :| 0 <= i < |b| && b[i] == Minimum(b);
    assert a[i] <= b[i];
  }

  // ----- Medians -----

  predicate IsSorted(s: seq<real>) {
    forall i, j :: 0 <= i < j < |s| ==> s[i] <= s[j]
  }

  function Insert(x: real, s: seq<real>): (r: seq<real>)
    ensures |r| == |s| + 1 && multiset(r) == multiset(s) + multiset{x}
  {
    if s == [] || x <= s[0] then [x] + s
    else
      assert s == [s[0]] + s[1..];
      [s[0]] + Insert(x, s[1..])
  }

  function Sorted(s: seq<real>): (r: seq<real>)
    ensures |r| == |s| && multiset(r) == multiset(s)
  {
    if s == [] then []
    else
      assert s == [s[0]] + s[1..];
      Insert(s[0], Sorted(s[1..]))
  }

  lemma {:induction false} InsertIsSorted(x: real, s: seq<real>)
    requires IsSorted(s)
    ensures IsSorted(Insert(x, s))
  {
    if s != [] && x > s[0] {
      InsertIsSorted(x, s[1..]);
      var rest := Insert(x, s[1..]);
      forall j | 0 <= j < |rest| ensures s[0] <= rest[j] {
        assert rest[j] in multiset(rest);
        assert rest[j] in multiset(s[1..]) + multiset{x};
      }
    }
  }

  lemma {:induction false} SortedIsSorted(s: seq<real>)
    ensures IsSorted(Sorted(s))
  {
    if s != [] {
      SortedIsSorted(s[1..]);
      InsertIsSorted(s[0], Sorted(s[1..]));
    }
  }

  lemma {:induction false} InsertIsMonotone(x: real, s: seq<real>, y: real, t: seq<real>)
    requires x <= y && AtMost(s, t) && IsSorted(s) && IsSorted(t)
    ensures AtMost(Insert(x, s), Insert(y, t))
    decreases |s|
  {
    if s == [] || (x <= s[0] && y <= t[0]) {
      ConsAtMost(x, s, y, t);
    } else if x <= s[0] {
      InsertIsMonotone(s[0], s[1..], y, t[1..]);
      HeadFirst(s);
      ConsAtMost(x, s, t[0], Insert(y, t[1..]));
    } else if y <= t[0] {
      InsertIsMonotone(x, s[1..], t[0], t[1..]);
      HeadFirst(t);
      ConsAtMost(s[0], Insert(x, s[1..]), y, t);
    } else {
      InsertIsMonotone(x, s[1..], y, t[1..]);
      ConsAtMost(s[0], Insert(x, s[1..]), t[0], Insert(y, t[1..]));
    }
  }

  lemma ConsAtMost(x: real, a: seq<real>, y: real, b: seq<real>)
    requires x <= y && AtMost(a, b)
    ensures AtMost([x] + a, [y] + b)
  {
  }

  lemma HeadFirst(s: seq<real>)
    requires IsSorted(s) && s != []
    ensures Insert(s[0], s[1..]) == s
  {
    if |s| > 1 {
      assert s[0] <= s[1..][0];
    }
    assert s == [s[0]] + s[1..];
  }

  lemma {:induction false} SortedIsMonotone(a: seq<real>, b: seq<real>)
    requires AtMost(a, b)
    ensures AtMost(Sorted(a), Sorted(b))
  {
    if a != [] {
      SortedIsMonotone(a[1..], b[1..]);
      SortedIsSorted(a[1..]);
      SortedIsSorted(b[1..]);
      InsertIsMonotone(a[0], Sorted(a[1..]), b[0], Sorted(b[1..]));
    }
  }

  function MiddleOf(ordered: seq<real>): real
    requires ordered != []
  {
    var middle := |ordered| / 2;
    if |ordered| % 2 == 1 then ordered[middle] else (ordered[middle - 1] + ordered[middle]) / 2.0
  }

  function Median(values: seq<real>): real
    requires values != []
  {
    MiddleOf(Sorted(values))
  }

  lemma MedianIsMonotone(a: seq<real>, b: seq<real>)
    requires AtMost(a, b) && a != []
    ensures Median(a) <= Median(b)
  {
    SortedIsMonotone(a, b);
  }

  lemma SortedTwo(a: real, b: real)
    ensures Sorted([a, b]) == if a <= b then [a, b] else [b, a]
  {
    assert [a, b][1..] == [b] && [b][1..] == [];
    assert Sorted([b]) == [b];
  }

  lemma InsertIntoTwo(a: real, x: real, y: real)
    ensures Insert(a, [x, y]) == if a <= x then [a, x, y] else if a <= y then [x, a, y] else [x, y, a]
  {
    assert [x, y][1..] == [y] && [y][1..] == [];
    assert Insert(a, [y]) == if a <= y then [a, y] else [y, a];
  }

  function Middle(a: real, low: real, high: real): real {
    if a <= low then low else if a <= high then a else high
  }

  lemma SortedThree(a: real, b: real, c: real)
    ensures Sorted([a, b, c])[1] == if b <= c then Middle(a, b, c) else Middle(a, c, b)
  {
    assert [a, b, c][1..] == [b, c];
    SortedTwo(b, c);
    if b <= c { InsertIntoTwo(a, b, c); } else { InsertIntoTwo(a, c, b); }
  }

  lemma MiddleOfThree(ordered: seq<real>, m: real)
    requires |ordered| == 3 && ordered[1] == m
    ensures MiddleOf(ordered) == m
  {
  }

  lemma MiddleIsMiddle(a: real, b: real, c: real, m: real)
    requires m == if b <= c then Middle(a, b, c) else Middle(a, c, b)
    ensures (m == a || m == b || m == c)
    ensures (a <= m && b <= m) || (a <= m && c <= m) || (b <= m && c <= m)
    ensures (a >= m && b >= m) || (a >= m && c >= m) || (b >= m && c >= m)
  {
  }

  /** The median of three: one of them, with two at most as great and two at least as great, itself among both. */
  lemma MedianOfThree(a: real, b: real, c: real, m: real)
    requires m == Median([a, b, c])
    ensures (m == a || m == b || m == c)
    ensures (a <= m && b <= m) || (a <= m && c <= m) || (b <= m && c <= m)
    ensures (a >= m && b >= m) || (a >= m && c >= m) || (b >= m && c >= m)
  {
    var middle := if b <= c then Middle(a, b, c) else Middle(a, c, b);
    SortedThree(a, b, c);
    MiddleOfThree(Sorted([a, b, c]), middle);
    MiddleIsMiddle(a, b, c, m);
  }
}
