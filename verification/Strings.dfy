/** Facts about slices and joins of strings, each proved where nothing else is in the way, and the order of strings. */
module Strings {

  lemma Assoc<T>(a: seq<T>, b: seq<T>, c: seq<T>)
    ensures (a + b) + c == a + (b + c)
  {
  }

  lemma TakeDrop(s: string, n: nat)
    requires n <= |s|
    ensures s[..n] + s[n..] == s
  {
  }

  lemma JoinSlices(s: string, i: nat, j: nat, k: nat)
    requires i <= j <= k <= |s|
    ensures s[i..j] + s[j..k] == s[i..k]
  {
  }

  lemma SliceOfSlice(s: string, lo: nat, hi: nat, a: nat, b: nat)
    requires lo <= hi <= |s| && a <= b <= hi - lo
    ensures s[lo..hi][a..b] == s[lo + a..lo + b]
  {
    var left, right := s[lo..hi][a..b], s[lo + a..lo + b];
    forall i | 0 <= i < b - a ensures left[i] == right[i] {
      assert left[i] == s[lo..hi][a + i] == s[lo + (a + i)];
    }
  }

  /** A text that starts with `head` at position i. */
  lemma SplitSuffix(s: string, i: nat, head: string, tail: string)
    requires i <= |s| && s[i..] == head + tail
    ensures i + |head| <= |s| && s[i..i + |head|] == head && s[i + |head|..] == tail
  {
    assert |s[i..]| == |head| + |tail|;
    var left := s[i..i + |head|];
    forall k | 0 <= k < |head| ensures left[k] == head[k] {
      assert left[k] == s[i + k] == s[i..][k] == (head + tail)[k];
    }
    var right := s[i + |head|..];
    forall k | 0 <= k < |tail| ensures right[k] == tail[k] {
      assert right[k] == s[i + |head| + k] == s[i..][|head| + k] == (head + tail)[|head| + k];
    }
  }

  /** Python's order of strings. */
  predicate Less(a: string, b: string) {
    b != "" && (a == "" || a[0] < b[0] || (a[0] == b[0] && Less(a[1..], b[1..])))
  }

  lemma {:induction false} LessIsTotal(a: string, b: string)
    ensures a == b || Less(a, b) || Less(b, a)
    ensures !(Less(a, b) && (Less(b, a) || a == b))
  {
    if a != "" && b != "" && a[0] == b[0] {
      LessIsTotal(a[1..], b[1..]);
      assert a == [a[0]] + a[1..] && b == [b[0]] + b[1..];
    }
  }

  lemma {:induction false} LessIsTransitive(a: string, b: string, c: string)
    requires Less(a, b) && Less(b, c)
    ensures Less(a, c)
  {
    if a != "" && b[0] == c[0] && a[0] == b[0] { LessIsTransitive(a[1..], b[1..], c[1..]); }
  }
}
