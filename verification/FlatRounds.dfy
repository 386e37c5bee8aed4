/** How many of the most recent reviews failed to get below the fewest findings before them
    (tools/agent_review_loop.py). */
module FlatRounds {

  /** The counts that are known: -1 stands for a verdict without a number. */
  function Known(findings: seq<int>): (r: seq<nat>)
    ensures |r| <= |findings|
  {
    if findings == [] then []
    else
      var (before, last) := (Known(findings[..|findings| - 1]), findings[|findings| - 1]);
      if last >= 0 then before + [last] else before
  }

  predicate IsFirstMinimum(counts: seq<nat>, i: nat) {
    && i < |counts|
    && (forall j :: 0 <= j < i ==> counts[i] < counts[j])
    && (forall j :: i <= j < |counts| ==> counts[i] <= counts[j])
  }

  function FirstMinimum(counts: seq<nat>): (i: nat)
    requires counts != []
    ensures IsFirstMinimum(counts, i)
  {
    var before := counts[..|counts| - 1];
    if before == [] || counts[|counts| - 1] < counts[FirstMinimum(before)] then |counts| - 1 else FirstMinimum(before)
  }

  /** The reviews since the first one that had the fewest findings. */
  function Flat(counts: seq<nat>): nat {
    if counts == [] then 0 else |counts| - 1 - FirstMinimum(counts)
  }

  lemma FlatOfOneMore(counts: seq<nat>, count: nat)
    ensures Flat(counts + [count]) ==
              if counts == [] || count < counts[FirstMinimum(counts)] then 0 else Flat(counts) + 1
    ensures FirstMinimum(counts + [count]) ==
              if counts == [] || count < counts[FirstMinimum(counts)] then |counts| else FirstMinimum(counts)
  {
    assert (counts + [count])[..|counts|] == counts;
  }

  function Fewest(counts: seq<nat>): int {
    if counts == [] then -1 else counts[FirstMinimum(counts)]
  }

  lemma KnownOneMore(findings: seq<int>, i: nat)
    requires i < |findings|
    ensures Known(findings[..i + 1]) ==
              if findings[i] >= 0 then Known(findings[..i]) + [findings[i]] else Known(findings[..i])
  {
    assert findings[..i + 1][..i] == findings[..i];
  }

  lemma OneMoreFinding(findings: seq<int>, i: nat)
    requires i < |findings|
    ensures var (before, after, count) := (Known(findings[..i]), Known(findings[..i + 1]), findings[i]);
            if count < 0 then Flat(after) == Flat(before) && Fewest(after) == Fewest(before)
            else if Fewest(before) == -1 || count < Fewest(before) then Flat(after) == 0 && Fewest(after) == count
            else Flat(after) == Flat(before) + 1 && Fewest(after) == Fewest(before)
  {
    KnownOneMore(findings, i);
    if findings[i] >= 0 { OneMoreCount(Known(findings[..i]), findings[i]); }
  }

  lemma OneMoreCount(before: seq<nat>, count: nat)
    ensures var after := before + [count];
            if Fewest(before) == -1 || count < Fewest(before) then Flat(after) == 0 && Fewest(after) == count
            else Flat(after) == Flat(before) + 1 && Fewest(after) == Fewest(before)
  {
    FlatOfOneMore(before, count);
  }

  method RoundsWithoutProgress(findings: seq<int>) returns (flat: nat)
    ensures flat == Flat(Known(findings))
  {
    var fewest := -1;
    flat := 0;
    for i := 0 to |findings|
      invariant flat == Flat(Known(findings[..i]))
      invariant fewest == Fewest(Known(findings[..i]))
    {
      OneMoreFinding(findings, i);
      var count := findings[i];
      if count >= 0 {
        if fewest == -1 || count < fewest {
          fewest, flat := count, 0;
        } else {
          flat := flat + 1;
        }
      }
    }
    assert findings[..|findings|] == findings;
  }

  /** No review up to this point was the k-th in a row without progress. */
  predicate NeverFlat(counts: seq<nat>, k: nat) {
    forall n :: 1 <= n <= |counts| ==> Flat(counts[..n]) < k
  }

  /** What a first count of `first` has paid for, with `fewest` findings the fewest since. */
  function Budget(first: nat, fewest: nat, k: nat, flat: nat): int {
    (first - fewest) * k + flat + 1
  }

  /** Every k reviews at the most bring the count down by one. */
  lemma {:induction false} ProgressIsPaidFor(counts: seq<nat>, k: nat)
    requires counts != [] && NeverFlat(counts, k)
    ensures counts[FirstMinimum(counts)] <= counts[0]
    ensures |counts| <= Budget(counts[0], counts[FirstMinimum(counts)], k, Flat(counts))
  {
    var before := counts[..|counts| - 1];
    if before == [] {
      Paid(counts[0], counts[0], k);
    } else {
      var last := counts[|counts| - 1];
      assert counts == before + [last];
      assert forall n :: 1 <= n <= |before| ==> before[..n] == counts[..n];
      ProgressIsPaidFor(before, k);
      FlatOfOneMore(before, last);
      assert Flat(before) < k by { assert before == counts[..|counts| - 1]; }
      PaidStep(counts[0], before[FirstMinimum(before)], last, k, |before|, Flat(before));
    }
  }

  lemma Paid(first: nat, fewest: nat, k: nat)
    requires first == fewest
    ensures Budget(first, fewest, k, 0) == 1
  {
  }

  lemma PaidStep(first: nat, fewest: nat, last: nat, k: nat, reviews: nat, flat: nat)
    requires fewest <= first && flat < k && reviews <= Budget(first, fewest, k, flat)
    ensures reviews + 1 <= if last < fewest then Budget(first, last, k, 0) else Budget(first, fewest, k, flat + 1)
  {
    if last < fewest { Less(first - fewest, first - last, k); }
  }

  lemma {:induction false} Less(a: nat, b: nat, k: nat)
    requires a < b
    ensures a * k + k <= b * k
  {
    assert b * k == (b - 1) * k + k;
    if a < b - 1 { Less(a, b - 1, k); }
  }

  lemma AtMost(counts: seq<nat>, k: nat)
    requires counts != [] && NeverFlat(counts, k)
    ensures |counts| <= (counts[0] + 1) * k
  {
    ProgressIsPaidFor(counts, k);
    var fewest := counts[FirstMinimum(counts)];
    assert Flat(counts) < k by { assert counts[..|counts|] == counts; }
    Less(counts[0] - fewest, counts[0] + 1, k);
  }

  /** The longest run there can be: k reviews at every count from c down to 0. */
  function Staircase(c: nat, k: nat): (counts: seq<nat>)
    ensures |counts| == (c + 1) * k && (k > 0 ==> counts[0] == c)
    ensures forall i :: 0 <= i < |counts| ==> counts[i] <= c
  {
    var step := seq(k, i => c);
    if c == 0 then step else step + Staircase(c - 1, k)
  }

  lemma FirstMinimumIsUnique(counts: seq<nat>, i: nat)
    requires IsFirstMinimum(counts, i)
    ensures i == FirstMinimum(counts)
  {
  }

  lemma {:induction false} StaircaseIsNeverFlat(c: nat, k: nat)
    ensures NeverFlat(Staircase(c, k), k)
  {
    var counts := Staircase(c, k);
    if c > 0 { StaircaseIsNeverFlat(c - 1, k); }
    forall n | 1 <= n <= |counts| ensures Flat(counts[..n]) < k {
      FlatOnStaircase(c, k, n);
    }
  }

  lemma FlatOnStaircase(c: nat, k: nat, n: nat)
    requires 1 <= n <= |Staircase(c, k)| && (c > 0 ==> NeverFlat(Staircase(c - 1, k), k))
    ensures Flat(Staircase(c, k)[..n]) < k
  {
    var counts := Staircase(c, k)[..n];
    if n <= k {
      FirstMinimumIsUnique(counts, 0);
    } else {
      var rest := Staircase(c - 1, k)[..n - k];
      assert counts == seq(k, i => c) + rest;
      assert Flat(rest) < k;
      FirstMinimumIsUnique(counts, k + FirstMinimum(rest));
    }
  }
}
