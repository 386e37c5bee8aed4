/** The escapes an encoder may write in either case, and the canonical case (evals/install/redaction.py). */
module Escapes {

  datatype Kind = Percent | JsonUnicode

  /** `%XX`, and a backslash, `u` and four hexadecimal digits. */
  function Length(kind: Kind): nat {
    if kind == Percent then 3 else 6
  }

  predicate IsHex(c: char) {
    '0' <= c <= '9' || 'A' <= c <= 'F' || 'a' <= c <= 'f'
  }

  predicate EscapeAt(kind: Kind, text: string, i: int) {
    && 0 <= i && i + Length(kind) <= |text|
    && (if kind == Percent then text[i] == '%' && IsHex(text[i + 1]) && IsHex(text[i + 2])
        else text[i] == '\\' && text[i + 1] == 'u' && forall k :: i + 2 <= k < i + 6 ==> IsHex(text[k]))
  }

  function Upper(c: char): char {
    if 'a' <= c <= 'z' then 'A' + (c - 'a') else c
  }

  function Lower(c: char): char {
    if 'A' <= c <= 'Z' then 'a' + (c - 'A') else c
  }

  function Map(f: char -> char, text: string): (r: string)
    ensures |r| == |text| && forall i :: 0 <= i < |text| ==> r[i] == f(text[i])
  {
    seq(|text|, i requires 0 <= i < |text| => f(text[i]))
  }

  /** pattern.sub over the escapes, left to right and not overlapping. */
  function Sub(kind: Kind, f: char -> char, text: string): (r: string)
    ensures |r| == |text|
  {
    if text == "" then ""
    else if EscapeAt(kind, text, 0) then Map(f, text[..Length(kind)]) + Sub(kind, f, text[Length(kind)..])
    else [text[0]] + Sub(kind, f, text[1..])
  }

  function Canonical(kind: Kind, text: string): (r: string)
    ensures |r| == |text|
  {
    Sub(kind, Upper, text)
  }

  /** An escape of the text covers position i. */
  predicate Covered(kind: Kind, text: string, i: int) {
    exists j :: i - Length(kind) < j <= i && EscapeAt(kind, text, j)
  }

  /** An escape of the text lies across position i. */
  predicate Cut(kind: Kind, text: string, i: int) {
    exists j :: i - Length(kind) < j < i && EscapeAt(kind, text, j)
  }

  /** Escapes never overlap: their first character occurs in none of them a second time. */
  lemma NoOverlap(kind: Kind, text: string, i: int, j: int)
    requires EscapeAt(kind, text, i) && i < j < i + Length(kind)
    ensures !EscapeAt(kind, text, j)
  {
  }

  lemma EscapeInSlice(kind: Kind, text: string, lo: nat, hi: nat, i: int)
    requires lo <= hi <= |text|
    ensures EscapeAt(kind, text[lo..hi], i) <==> 0 <= i && lo + i + Length(kind) <= hi && EscapeAt(kind, text, lo + i)
  {
    if 0 <= i && lo + i + Length(kind) <= hi {
      assert forall k :: i <= k < i + Length(kind) ==> text[lo..hi][k] == text[lo + k];
      if kind == JsonUnicode && EscapeAt(kind, text, lo + i) {
        assert forall k :: i + 2 <= k < i + 6 ==> IsHex(text[lo..hi][k]);
      }
      if kind == JsonUnicode && EscapeAt(kind, text[lo..hi], i) {
        assert forall k :: lo + i + 2 <= k < lo + i + 6 ==>
            text[k] == text[lo..hi][k - lo] && IsHex(text[lo..hi][k - lo]);
      }
    }
  }

  /** The substitution changes exactly the covered positions. */
  lemma {:induction false} SubAt(kind: Kind, f: char -> char, text: string, i: nat)
    requires i < |text|
    ensures Sub(kind, f, text)[i] == if Covered(kind, text, i) then f(text[i]) else text[i]
    decreases |text|
  {
    var n := if EscapeAt(kind, text, 0) then Length(kind) else 1;
    if i < n {
      if EscapeAt(kind, text, 0) {
        assert i - Length(kind) < 0 <= i;
      } else {
        assert i == 0;
      }
    } else {
      SubAt(kind, f, text[n..], i - n);
      CoveredInRest(kind, text, n, i);
    }
  }

  lemma CoveredInRest(kind: Kind, text: string, n: nat, i: nat)
    requires n <= i < |text|
    requires n == if EscapeAt(kind, text, 0) then Length(kind) else 1
    ensures Covered(kind, text[n..], i - n) <==> Covered(kind, text, i)
  {
    assert text[n..] == text[n..|text|];
    if Covered(kind, text[n..], i - n) {
      var j :| i - n - Length(kind) < j <= i - n && EscapeAt(kind, text[n..], j);
      EscapeInSlice(kind, text, n, |text|, j);
      assert i - Length(kind) < n + j <= i;
    }
    if Covered(kind, text, i) {
      var j :| i - Length(kind) < j <= i && EscapeAt(kind, text, j);
      if 0 < j < n { NoOverlap(kind, text, 0, j); }
      assert j >= n by {
        if j == 0 { assert n == Length(kind); }
      }
      EscapeInSlice(kind, text, n, |text|, j - n);
      assert i - n - Length(kind) < j - n <= i - n;
    }
  }

  /** The canonical form of a window no escape lies across is the same whatever surrounds it. */
  lemma WindowIsCanonical(kind: Kind, text: string, lo: nat, p: nat, q: nat, hi: nat)
    requires lo <= p <= q <= hi <= |text| && !Cut(kind, text, p) && !Cut(kind, text, q)
    ensures Canonical(kind, text[lo..hi])[p - lo..q - lo] == Canonical(kind, text[p..q])
  {
    forall k | 0 <= k < q - p
      ensures Canonical(kind, text[lo..hi])[p - lo..q - lo][k] == Canonical(kind, text[p..q])[k]
    {
      WindowAt(kind, text, lo, p, q, hi, k);
    }
  }

  lemma WindowAt(kind: Kind, text: string, lo: nat, p: nat, q: nat, hi: nat, k: nat)
    requires lo <= p <= p + k < q <= hi <= |text| && !Cut(kind, text, p) && !Cut(kind, text, q)
    ensures Canonical(kind, text[lo..hi])[p - lo + k] == Canonical(kind, text[p..q])[k]
  {
    SubAt(kind, Upper, text[lo..hi], p - lo + k);
    SubAt(kind, Upper, text[p..q], k);
    CoveredInWindow(kind, text, lo, p, q, hi, p + k);
  }

  lemma CoveredInWindow(kind: Kind, text: string, lo: nat, p: nat, q: nat, hi: nat, i: nat)
    requires lo <= p <= i < q <= hi <= |text| && !Cut(kind, text, p) && !Cut(kind, text, q)
    ensures Covered(kind, text[lo..hi], i - lo) <==> Covered(kind, text[p..q], i - p)
  {
    if Covered(kind, text[lo..hi], i - lo) {
      var j :| i - lo - Length(kind) < j <= i - lo && EscapeAt(kind, text[lo..hi], j);
      EscapeInSlice(kind, text, lo, hi, j);
      assert EscapeAt(kind, text, lo + j);
      EscapeInSlice(kind, text, p, q, lo + j - p);
      assert i - p - Length(kind) < lo + j - p <= i - p;
    }
    if Covered(kind, text[p..q], i - p) {
      var j :| i - p - Length(kind) < j <= i - p && EscapeAt(kind, text[p..q], j);
      EscapeInSlice(kind, text, p, q, j);
      EscapeInSlice(kind, text, lo, hi, p + j - lo);
      assert i - lo - Length(kind) < p + j - lo <= i - lo;
    }
  }

  lemma {:induction false} FreeIsCanonical(kind: Kind, text: string)
    requires forall i :: !EscapeAt(kind, text, i)
    ensures Canonical(kind, text) == text
  {
    forall i | 0 <= i < |text| ensures Canonical(kind, text)[i] == text[i] {
      SubAt(kind, Upper, text, i);
    }
  }
}
