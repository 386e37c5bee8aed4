/** However a stream is cut into chunks, nothing that has to be hidden gets through (evals/install/redaction.py). */
module RedactionSafety {
  import opened Escapes
  import opened Options
  import opened Redaction
  import opened RedactionStream
  import opened Strings

  /** What must not get through: a literal variant, or an encoded one in any case that no escape of the
      surrounding text lies across. */
  ghost predicate Secret(t: Tables, text: string, p: nat, q: nat) {
    && p < q <= |text|
    && (|| text[p..q] in t.variants
        || (Canonical(JsonUnicode, text[p..q]) in t.canonicalJson && !Cut(JsonUnicode, text, p)
            && !Cut(JsonUnicode, text, q))
        || (Canonical(Percent, text[p..q]) in t.canonicalUrl && !Cut(Percent, text, p) && !Cut(Percent, text, q)))
  }

  ghost function Secrets(t: Tables, text: string): Stretches {
    (p: nat, q: nat) => Secret(t, text, p, q)
  }

  lemma SecretIsHit(t: Tables, text: string, lo: nat, p: nat, q: nat, hi: nat)
    requires lo <= p && q <= hi <= |text| && Secret(t, text, p, q)
    ensures Hit(t, text[lo..hi], p - lo, q - p)
  {
    SliceOfSlice(text, lo, hi, p - lo, q - lo);
    assert p - lo + (q - p) == q - lo;
    if !Cut(JsonUnicode, text, p) && !Cut(JsonUnicode, text, q) { WindowIsCanonical(JsonUnicode, text, lo, p, q, hi); }
    if !Cut(Percent, text, p) && !Cut(Percent, text, q) { WindowIsCanonical(Percent, text, lo, p, q, hi); }
  }

  lemma HitIsCaught(t: Tables, buffer: string, p: nat, n: nat)
    requires WellFormed(t) && Hit(t, buffer, p, n)
    ensures n <= LongestOf(t.variants) && Leftmost(t, buffer).Some? && Before(Leftmost(t, buffer).value, p, n)
  {
    HitIsBounded(t, buffer, p, n);
    LeftmostIsFirst(t, buffer, 0);
  }

  lemma SecretIsCaught(t: Tables, text: string, lo: nat, p: nat, q: nat, hi: nat)
    requires WellFormed(t) && lo <= p && q <= hi <= |text| && Secret(t, text, p, q)
    ensures q - p <= LongestOf(t.variants)
    ensures Leftmost(t, text[lo..hi]).Some? && Before(Leftmost(t, text[lo..hi]).value, p - lo, q - p)
  {
    SecretIsHit(t, text, lo, p, q, hi);
    HitIsCaught(t, text[lo..hi], p - lo, q - p);
  }

  lemma SecretsAreCaught(t: Tables, text: string)
    requires WellFormed(t)
    ensures Catches(MatcherOf(t), text, Secrets(t, text))
  {
    forall p: nat, q: nat | Secret(t, text, p, q) ensures q - p <= LongestOf(t.variants) {
      SecretIsCaught(t, text, p, p, q, q);
    }
    forall lo: nat, p: nat, q: nat, hi: nat | lo <= p && Secret(t, text, p, q) && q <= hi <= |text|
      ensures Leftmost(t, text[lo..hi]).Some? && Before(Leftmost(t, text[lo..hi]).value, p - lo, q - p)
    {
      SecretIsCaught(t, text, lo, p, q, hi);
    }
  }

  // ----- What may be hidden -----

  predicate HitBetween(t: Tables, text: string, lo: nat, hi: nat, p: nat, q: nat) {
    lo <= p < q <= hi <= |text| && Hit(t, text[lo..hi], p - lo, q - p)
  }

  /** The tables have an occurrence at p..q in some slice of the text. */
  ghost predicate Occurrence(t: Tables, text: string, p: nat, q: nat) {
    exists lo: nat, hi: nat :: HitBetween(t, text, lo, hi, p, q)
  }

  ghost function Occurrences(t: Tables, text: string): Stretches {
    (p: nat, q: nat) => Occurrence(t, text, p, q)
  }

  lemma FoundIsOccurrence(t: Tables, text: string, lo: nat, hi: nat)
    requires lo <= hi <= |text|
    ensures ReportsOnly(Leftmost(t, text[lo..hi]), lo, Occurrences(t, text))
  {
    var found := Leftmost(t, text[lo..hi]);
    LeftmostIsFirst(t, text[lo..hi], 0);
    if found.Some? {
      assert HitBetween(t, text, lo, hi, lo + found.value.index, lo + found.value.index + found.value.length);
    }
  }

  lemma OnlyOccurrencesAreFound(t: Tables, text: string)
    ensures FindsOnly(MatcherOf(t), text, Occurrences(t, text))
  {
    forall lo: nat, hi: nat | lo <= hi <= |text|
        ensures ReportsOnly(Leftmost(t, text[lo..hi]), lo, Occurrences(t, text)) {
      FoundIsOccurrence(t, text, lo, hi);
    }
  }

  predicate SameUpToCase(a: string, b: string) {
    Map(Upper, a) == Map(Upper, b)
  }

  /** An occurrence is a variant as it stands, or one but for the case of letters. */
  lemma OccurrenceIsVariant(t: Tables, text: string, p: nat, q: nat) returns (v: string)
    requires WellFormed(t) && Occurrence(t, text, p, q)
    ensures p < q <= |text| && v in t.variants && SameUpToCase(text[p..q], v)
  {
    var lo: nat, hi: nat :| HitBetween(t, text, lo, hi, p, q);
    var (i, n) := (p - lo, q - p);
    SliceOfSlice(text, lo, hi, i, i + n);
    if OccursIn(text[lo..hi], t.variants, i, n) {
      v := text[p..q];
    } else if OccursIn(Canonical(JsonUnicode, text[lo..hi]), t.canonicalJson, i, n) {
      v := Canonical(JsonUnicode, text[lo..hi])[i..i + n];
      CanonicalKeepsLetters(JsonUnicode, text[lo..hi], i, n);
    } else {
      v := Canonical(Percent, text[lo..hi])[i..i + n];
      CanonicalKeepsLetters(Percent, text[lo..hi], i, n);
    }
  }

  lemma CanonicalKeepsLetters(kind: Kind, text: string, i: nat, n: nat)
    requires i + n <= |text|
    ensures SameUpToCase(text[i..i + n], Canonical(kind, text)[i..i + n])
  {
    var a, b := Map(Upper, text[i..i + n]), Map(Upper, Canonical(kind, text)[i..i + n]);
    forall k | 0 <= k < n ensures a[k] == b[k] {
      SubAt(kind, Upper, text, i + k);
    }
  }

  /** For every chunking: no text between two markers contains a secret, a marker stands for an occurrence of the tables
      and for nothing else, and putting back what the markers stand for gives exactly the input. */
  lemma NothingGetsThrough(t: Tables, chunks: seq<string>)
    requires WellFormed(t)
    ensures var pieces := Streamed(MatcherOf(t), "", chunks);
            && Original(pieces) == Concat(chunks)
            && AllClean(Secrets(t, Concat(chunks)), ClearSpans(pieces, 0, 0))
            && HiddenAre(Occurrences(t, Concat(chunks)), pieces, 0)
  {
    var text, m := Concat(chunks), MatcherOf(t);
    assert text[0..0] == "" && text[0..] == text;
    StreamedKeepsText(m, "", chunks);
    assert "" + text == text;
    SecretsAreCaught(t, text);
    assert Waiting(m, text, Secrets(t, text), 0, 0, 0);
    StreamedIsClean(m, text, Secrets(t, text), 0, 0, 0, chunks);
    OnlyOccurrencesAreFound(t, text);
    StreamedHides(m, text, Occurrences(t, text), 0, 0, chunks);
  }

  lemma {:induction false} HiddenIsVariant(t: Tables, text: string, pieces: seq<Piece>, at: nat, i: nat)
    requires WellFormed(t) && at <= |text| && Original(pieces) == text[at..]
    requires HiddenAre(Occurrences(t, text), pieces, at) && i < |pieces| && pieces[i].Hidden?
    ensures exists v :: v in t.variants && SameUpToCase(pieces[i].text, v)
  {
    SplitSuffix(text, at, pieces[0].text, Original(pieces[1..]));
    var next := at + |pieces[0].text|;
    if i == 0 {
      var v := OccurrenceIsVariant(t, text, at, next);
    } else {
      HiddenIsVariant(t, text, pieces[1..], next, i - 1);
    }
  }

  /** For every chunking, each marker stands for a variant, up to the case of letters. */
  lemma MarkersStandForVariants(t: Tables, chunks: seq<string>, i: nat)
    requires WellFormed(t) && i < |Streamed(MatcherOf(t), "", chunks)| && Streamed(MatcherOf(t), "", chunks)[i].Hidden?
    ensures exists v :: v in t.variants && SameUpToCase(Streamed(MatcherOf(t), "", chunks)[i].text, v)
  {
    var text := Concat(chunks);
    NothingGetsThrough(t, chunks);
    assert text[0..] == text;
    HiddenIsVariant(t, text, Streamed(MatcherOf(t), "", chunks), 0, i);
  }

  /** In particular no literal variant occurs in the text between two markers as the output shows it. */
  lemma NoVariantInOutput(t: Tables, chunks: seq<string>, i: nat, p: nat, n: nat)
    requires WellFormed(t) && i < |ClearRuns(Streamed(MatcherOf(t), "", chunks), "")|
    ensures !OccursIn(ClearRuns(Streamed(MatcherOf(t), "", chunks), "")[i], t.variants, p, n)
  {
    var text, pieces := Concat(chunks), Streamed(MatcherOf(t), "", chunks);
    NothingGetsThrough(t, chunks);
    assert text[0..0] == "" && text[0..] == text;
    RunsAreSpans(pieces, text, 0, 0);
    NoVariantInSpan(t, text, ClearSpans(pieces, 0, 0)[i], p, n);
  }

  lemma NoVariantInSpan(t: Tables, text: string, span: Span, p: nat, n: nat)
    requires span.first <= span.end <= |text| && Clean(Secrets(t, text), span.first, span.end)
    ensures !OccursIn(text[span.first..span.end], t.variants, p, n)
  {
    if span.first + p + n <= span.end {
      assert !Secrets(t, text)(span.first + p, span.first + p + n);
      SliceOfSlice(text, span.first, span.end, p, p + n);
    }
  }
}
