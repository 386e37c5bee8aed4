/** When streaming and one-shot redaction agree: exactly when no spelling of a variant holds another secret that ends
    before it does (evals/install/redaction.py). */
module RedactionExactness {
  import opened Options
  import opened Escapes
  import opened Redaction
  import opened RedactionChunks
  import opened RedactionSafety
  import opened RedactionStream
  import opened Strings

  function Forms(t: Tables, kind: Kind): seq<string> {
    if kind == JsonUnicode then t.canonicalJson else t.canonicalUrl
  }

  predicate Uncut(kind: Kind, text: string, p: nat, q: nat) {
    !Cut(kind, text, p) && !Cut(kind, text, q)
  }

  /** No form occurs in the text, in whatever case its escapes are written, so that it begins or ends inside an escape:
      what a buffer that begins or ends there makes of the rest of that escape is a matter of the chunks. */
  ghost predicate Apart(t: Tables, text: string) {
    forall kind, lo: nat, hi: nat, p: nat, n: nat ::
      lo <= hi <= |text| && OccursIn(Canonical(kind, text[lo..hi]), Forms(t, kind), p, n) ==>
          Uncut(kind, text, lo + p, lo + p + n)
  }

  /** A text that is a secret as a whole: a variant, in whatever case its escapes are written. */
  ghost predicate Spelling(t: Tables, word: string) {
    Apart(t, word) && Secret(t, word, 0, |word|)
  }

  /** No spelling of a variant holds another secret that ends before it does. */
  ghost predicate NoneNested(t: Tables) {
    forall word, i: nat, j: nat :: Spelling(t, word) && Secret(t, word, i, j) ==> j == |word|
  }

  // ----- What the matcher finds -----

  lemma HitIsSecret(t: Tables, text: string, lo: nat, hi: nat, p: nat, n: nat)
    requires Apart(t, text) && lo <= hi <= |text| && Hit(t, text[lo..hi], p, n)
    ensures lo + p + n <= hi && Secret(t, text, lo + p, lo + p + n)
  {
    var (first, end) := (lo + p, lo + p + n);
    assert |text[lo..hi]| == hi - lo;
    if OccursIn(text[lo..hi], t.variants, p, n) {
      SliceOfSlice(text, lo, hi, p, p + n);
    } else if OccursIn(Canonical(JsonUnicode, text[lo..hi]), Forms(t, JsonUnicode), p, n) {
      assert Uncut(JsonUnicode, text, first, end);
      WindowIsCanonical(JsonUnicode, text, lo, first, end, hi);
    } else {
      assert OccursIn(Canonical(Percent, text[lo..hi]), Forms(t, Percent), p, n);
      assert Uncut(Percent, text, first, end);
      WindowIsCanonical(Percent, text, lo, first, end, hi);
    }
  }

  lemma FindsSecrets(t: Tables, text: string, lo: nat, hi: nat)
    requires WellFormed(t) && Apart(t, text) && lo <= hi <= |text|
    ensures Finds(Secrets(t, text), lo, hi, Leftmost(t, text[lo..hi]))
  {
    var found := Leftmost(t, text[lo..hi]);
    LeftmostIsFirst(t, text[lo..hi], 0);
    if found.Some? { HitIsSecret(t, text, lo, hi, found.value.index, found.value.length); }
    forall p: nat, q: nat | lo <= p && q <= hi && Secret(t, text, p, q)
      ensures found.Some? && Before(found.value, p - lo, q - p)
    {
      SecretIsHit(t, text, lo, p, q, hi);
    }
  }

  lemma ExactOnSecrets(t: Tables, text: string)
    requires WellFormed(t) && Apart(t, text)
    ensures Exact(MatcherOf(t), text, Secrets(t, text))
  {
    forall p: nat, q: nat | Secret(t, text, p, q) ensures q - p <= LongestOf(t.variants) {
      SecretIsCaught(t, text, p, p, q, q);
    }
    forall lo: nat, hi: nat | lo <= hi <= |text| ensures Finds(Secrets(t, text), lo, hi, Leftmost(t, text[lo..hi])) {
      FindsSecrets(t, text, lo, hi);
    }
  }

  // ----- Secrets inside secrets -----

  lemma UncutInSlice(kind: Kind, text: string, lo: nat, hi: nat, i: nat)
    requires lo <= hi <= |text| && i <= hi - lo && !Cut(kind, text, lo + i)
    ensures !Cut(kind, text[lo..hi], i)
  {
    forall j | i - Length(kind) < j < i ensures !EscapeAt(kind, text[lo..hi], j) {
      EscapeInSlice(kind, text, lo, hi, j);
    }
  }

  lemma SecretInSlice(t: Tables, text: string, lo: nat, hi: nat, p: nat, q: nat)
    requires lo <= p && q <= hi <= |text| && Secret(t, text, p, q)
    ensures Secret(t, text[lo..hi], p - lo, q - lo)
  {
    SliceOfSlice(text, lo, hi, p - lo, q - lo);
    forall kind | Uncut(kind, text, p, q) ensures Uncut(kind, text[lo..hi], p - lo, q - lo) {
      UncutInSlice(kind, text, lo, hi, p - lo);
      UncutInSlice(kind, text, lo, hi, q - lo);
    }
    assert Uncut(JsonUnicode, text, p, q) ==> Uncut(JsonUnicode, text[lo..hi], p - lo, q - lo);
    assert Uncut(Percent, text, p, q) ==> Uncut(Percent, text[lo..hi], p - lo, q - lo);
  }

  lemma ApartInSlice(t: Tables, text: string, lo: nat, hi: nat)
    requires Apart(t, text) && lo <= hi <= |text|
    ensures Apart(t, text[lo..hi])
  {
    var slice := text[lo..hi];
    forall kind, a: nat, b: nat, p: nat, n: nat | a <= b <= |slice|
        && OccursIn(Canonical(kind, slice[a..b]), Forms(t, kind), p, n)
      ensures Uncut(kind, slice, a + p, a + p + n)
    {
      SliceOfSlice(text, lo, hi, a, b);
      assert Uncut(kind, text, (lo + a) + p, (lo + a) + p + n);
      assert |slice[a..b]| == b - a;
      UncutInSlice(kind, text, lo, hi, a + p);
      UncutInSlice(kind, text, lo, hi, a + p + n);
    }
  }

  lemma SecretsEndApart(t: Tables, text: string)
    requires NoneNested(t) && Apart(t, text)
    ensures NoneEndsInside(Secrets(t, text))
  {
    forall p: nat, q: nat, p': nat, q': nat | Secret(t, text, p, q) && Secret(t, text, p', q') && p <= p'
        ensures q <= q' {
      if q' <= q {
        ApartInSlice(t, text, p, q);
        SecretInSlice(t, text, p, q, p, q);
        SecretInSlice(t, text, p, q, p', q');
      }
    }
  }

  /** The spellings are few: each is a variant but for the case of letters. */
  lemma SpellingIsVariant(t: Tables, word: string) returns (v: string)
    requires WellFormed(t) && Spelling(t, word)
    ensures v in t.variants && SameUpToCase(word, v)
  {
    SecretIsHit(t, word, 0, 0, |word|, |word|);
    assert HitBetween(t, word, 0, |word|, 0, |word|);
    assert word[0..|word|] == word;
    v := OccurrenceIsVariant(t, word, 0, |word|);
  }

  /** A text that occurs in another one, and ends before its last character. */
  predicate EndsInside(inner: string, outer: string) {
    exists i: nat :: i < |outer| - |inner| && StartsAt(outer, inner, i)
  }

  lemma InsideIsVariant(t: Tables, word: string, i: nat, j: nat) returns (u: string)
    requires WellFormed(t) && Secret(t, word, i, j)
    ensures u in t.variants && |u| == j - i && StartsAt(Map(Upper, word), Map(Upper, u), i)
  {
    SecretIsHit(t, word, 0, i, j, |word|);
    assert HitBetween(t, word, 0, |word|, i, j);
    u := OccurrenceIsVariant(t, word, i, j);
    assert Map(Upper, word)[i..j] == Map(Upper, word[i..j]);
  }

  /** It is enough that no variant ends inside another one when case is ignored. */
  lemma EnoughIgnoringCase(t: Tables)
    requires WellFormed(t)
    requires forall u, v :: u in t.variants && v in t.variants ==> !EndsInside(Map(Upper, u), Map(Upper, v))
    ensures NoneNested(t)
  {
    forall word, i: nat, j: nat | Spelling(t, word) && Secret(t, word, i, j) ensures j == |word| {
      var v := SpellingIsVariant(t, word);
      var u := InsideIsVariant(t, word, i, j);
      assert !EndsInside(Map(Upper, u), Map(Upper, v));
    }
  }

  /** It is necessary that no variant, as it stands, ends inside another one that is free of cut escapes. */
  lemma NecessaryAsItStands(t: Tables, u: string, v: string)
    requires WellFormed(t) && NoneNested(t) && u in t.variants && v in t.variants && Apart(t, v)
    ensures !EndsInside(u, v)
  {
    assert v[0..|v|] == v && v != "" && u != "" && Spelling(t, v);
    forall i: nat | i < |v| - |u| && StartsAt(v, u, i) ensures false {
      assert Secret(t, v, i, i + |u|);
    }
  }

  lemma {:induction false} NothingToHide(m: Matcher, chunks: seq<string>, marker: string)
    requires Sound(m) && m.longest == 0
    ensures Render(Streamed(m, "", chunks), marker) == Concat(chunks)
    ensures ClearSpans(Streamed(m, "", chunks), 0, 0) == [Span(0, |Concat(chunks)|)]
  {
    AllClear(m, chunks, 0, marker);
  }

  lemma {:induction false} AllClear(m: Matcher, chunks: seq<string>, at: nat, marker: string)
    requires Sound(m) && m.longest == 0
    ensures Render(Streamed(m, "", chunks), marker) == Concat(chunks)
    ensures ClearSpans(Streamed(m, "", chunks), 0, at) == [Span(0, at + |Concat(chunks)|)]
  {
    if chunks == [] {
      RenderOne(Clear(""), marker);
      ReleaseAll("", 0, at);
    } else {
      AllClear(m, chunks[1..], at + |chunks[0]|, marker);
      var later := Streamed(m, "", chunks[1..]);
      assert Streamed(m, "", chunks) == [Clear(chunks[0])] + later;
      assert ([Clear(chunks[0])] + later)[1..] == later;
    }
  }

  /** One-shot redaction of the whole text. */
  ghost function OneShot(t: Tables, text: string): seq<Piece>
    requires WellFormed(t)
  {
    Fed(MatcherOf(t), "", text, true).0
  }

  lemma OneShotIsWhole(t: Tables, text: string)
    requires WellFormed(t) && LongestOf(t.variants) > 0
    ensures OneShot(t, text) == Whole(MatcherOf(t), text, 0)
  {
    assert "" + text == text && text[0..|text|] == text;
    var cut := Consumed(MatcherOf(t), text);
    assert cut.1[..|cut.1|] == cut.1;
  }

  /** With no secret nested in another, no chunking changes what is hidden or what is written. */
  lemma ChunkingIsInvisible(t: Tables, chunks: seq<string>, marker: string)
    requires WellFormed(t) && NoneNested(t) && Apart(t, Concat(chunks))
    ensures ClearSpans(Streamed(MatcherOf(t), "", chunks), 0, 0) == ClearSpans(OneShot(t, Concat(chunks)), 0, 0)
    ensures Render(Streamed(MatcherOf(t), "", chunks), marker) == Render(OneShot(t, Concat(chunks)), marker)
  {
    var m, text := MatcherOf(t), Concat(chunks);
    if m.longest == 0 {
      NothingToHide(m, chunks, marker);
      RenderOne(Clear(text), marker);
      ReleaseAll(text, 0, 0);
    } else {
      ExactOnSecrets(t, text);
      SecretsEndApart(t, text);
      assert text[0..0] == "" && text[0..] == text;
      SameSpans(m, text, Secrets(t, text), 0, 0, 0, chunks);
      OneShotIsWhole(t, text);
      SameSpansSameText(t, chunks, marker);
    }
  }

  lemma SameSpansSameText(t: Tables, chunks: seq<string>, marker: string)
    requires WellFormed(t)
    requires ClearSpans(Streamed(MatcherOf(t), "", chunks), 0, 0) == ClearSpans(OneShot(t, Concat(chunks)), 0, 0)
    ensures Render(Streamed(MatcherOf(t), "", chunks), marker) == Render(OneShot(t, Concat(chunks)), marker)
  {
    var m, text := MatcherOf(t), Concat(chunks);
    assert text[0..0] == "" && text[0..] == text;
    StreamedKeepsText(m, "", chunks);
    FedKeepsText(m, "", text, true);
    assert "" + text == text;
    OneShotLeavesNothing(t, text);
    RenderIsSpans(Streamed(m, "", chunks), text, 0, 0, marker);
    RenderIsSpans(OneShot(t, text), text, 0, 0, marker);
    assert "" + Render(Streamed(m, "", chunks), marker) == Render(Streamed(m, "", chunks), marker);
    assert "" + Render(OneShot(t, text), marker) == Render(OneShot(t, text), marker);
  }

  lemma OneShotLeavesNothing(t: Tables, text: string)
    requires WellFormed(t)
    ensures Original(OneShot(t, text)) == text
  {
    var m := MatcherOf(t);
    FedKeepsText(m, "", text, true);
    var fed := Fed(m, "", text, true);
    assert fed.1 == "" by {
      if m.longest > 0 {
        var cut := Consumed(m, "" + text);
        assert cut.1[|cut.1|..] == "";
      }
    }
    assert Original(fed.0) + "" == Original(fed.0);
    assert "" + text == text;
  }

  // ----- The converse -----

  lemma {:induction false} SomethingIsWritten(pieces: seq<Piece>, marker: string)
    requires marker != "" && Original(pieces) != ""
    ensures Render(pieces, marker) != ""
  {
    if pieces != [] && pieces[0] == Clear("") {
      SomethingIsWritten(pieces[1..], marker);
    }
  }

  /** A spelling with a secret ending inside it, fed all but its last character first: the inner one is hidden and what
      follows it is not, where one-shot redaction hides the whole. */
  lemma NestedIsVisible(t: Tables, word: string, i: nat, j: nat, marker: string)
    requires WellFormed(t) && Spelling(t, word) && Secret(t, word, i, j) && j < |word| && marker != ""
    ensures var chunks := [word[..|word| - 1], word[|word| - 1..]];
            && Concat(chunks) == word
            && Render(OneShot(t, word), marker) == marker
            && Render(Streamed(MatcherOf(t), "", chunks), marker) != marker
  {
    var chunks := [word[..|word| - 1], word[|word| - 1..]];
    ConcatTwo(chunks[0], chunks[1]);
    TakeDrop(word, |word| - 1);
    SpellingAlone(t, word, marker);
    InnerComesFirst(t, word, i, j, marker);
  }

  lemma ConcatTwo(a: string, b: string)
    ensures Concat([a, b]) == a + b
  {
    assert [a, b][1..] == [b] && [b][1..] == [];
    assert Concat([b]) == b + "" == b;
  }

  lemma SpellingAlone(t: Tables, v: string, marker: string)
    requires WellFormed(t) && Spelling(t, v)
    ensures Render(OneShot(t, v), marker) == marker
  {
    SpellingIsFound(t, v);
    MatchToTheEnd(MatcherOf(t), v, 0, |v|, marker);
    assert v[..0] + marker == marker;
  }

  lemma SpellingIsFound(t: Tables, v: string)
    requires WellFormed(t) && Spelling(t, v)
    ensures v != "" && Finding(MatcherOf(t), v, Some(Match(0, |v|))) && Finding(MatcherOf(t), "", None)
    ensures Sound(MatcherOf(t)) && MatcherOf(t).longest > 0
  {
    assert v != "" && v[0..|v|] == v;
    FindsSecrets(t, v, 0, |v|);
    SecretIsCaught(t, v, 0, 0, |v|, |v|);
    assert Secrets(t, v)(0, |v|);
    EmptyHasNoMatch(t, "");
  }

  predicate Finding(m: Matcher, text: string, found: Option<Match>) {
    m.find(text) == found
  }

  /** One-shot redaction of a text whose first match reaches its end. */
  lemma MatchToTheEnd(m: Matcher, text: string, i: nat, n: nat, marker: string)
    requires Sound(m) && m.longest > 0 && i + n == |text|
    requires Finding(m, text, Some(Match(i, n))) && Finding(m, "", None)
    ensures Render(Fed(m, "", text, true).0, marker) == text[..i] + marker
  {
    var a := [Clear(text[..i]), Hidden(text[i..])];
    assert "" + text == text && text[i..|text|] == text[i..] && text[|text|..] == "";
    assert Consumed(m, "") == ([], "") && a + [] == a;
    assert Consumed(m, text) == (a, "");
    RenderMatch(text[..i], text[i..], [Clear("")], marker);
    RenderOne(Clear(""), marker);
    assert (text[..i] + marker) + "" == text[..i] + marker && ""[..0] == "";
  }

  lemma EmptyHasNoMatch(t: Tables, buffer: string)
    requires buffer == ""
    ensures Leftmost(t, buffer) == None
  {
  }

  lemma InnerComesFirst(t: Tables, v: string, i: nat, j: nat, marker: string)
    requires WellFormed(t) && Spelling(t, v) && Secret(t, v, i, j) && j < |v| && marker != ""
    ensures Render(Streamed(MatcherOf(t), "", [v[..|v| - 1], v[|v| - 1..]]), marker) != marker
  {
    var m, chunks := MatcherOf(t), [v[..|v| - 1], v[|v| - 1..]];
    InnerIsFound(t, v, i, j);
    ConcatTwo(chunks[0], chunks[1]);
    MarkerAndMore(m, chunks, m.find(chunks[0]).value, marker);
  }

  /** A match that ends before the input does is written as its marker and something else. */
  lemma MarkerAndMore(m: Matcher, chunks: seq<string>, found: Match, marker: string)
    requires Sound(m) && m.longest > 0 && chunks != [] && m.find(chunks[0]) == Some(found)
    requires |chunks[0]| < |Concat(chunks)|
    requires marker != ""
    ensures Render(Streamed(m, "", chunks), marker) != marker
  {
    var b := chunks[0];
    var rest := StreamedStart(m, chunks, found);
    var end := found.index + found.length;
    var a := [Clear(b[..found.index]), Hidden(b[found.index..end])];
    StreamedKeepsText(m, "", chunks);
    OriginalConcat(a, rest);
    OriginalOfMatch(b, found.index, end);
    assert |Original(rest)| == |"" + Concat(chunks)| - end;
    SomethingIsWritten(rest, marker);
    RenderMatch(b[..found.index], b[found.index..end], rest, marker);
  }

  lemma InnerIsFound(t: Tables, v: string, i: nat, j: nat)
    requires WellFormed(t) && Secret(t, v, i, j) && j < |v|
    ensures LongestOf(t.variants) > 0 && Leftmost(t, v[..|v| - 1]).Some?
  {
    assert v[..|v| - 1] == v[0..|v| - 1];
    SecretIsCaught(t, v, 0, i, j, |v| - 1);
  }

  lemma StreamedStart(m: Matcher, chunks: seq<string>, found: Match) returns (rest: seq<Piece>)
    requires Sound(m) && m.longest > 0 && chunks != [] && m.find(chunks[0]) == Some(found)
    ensures found.index + found.length <= |chunks[0]|
    ensures var b := chunks[0];
            Streamed(m, "", chunks) ==
                [Clear(b[..found.index]), Hidden(b[found.index..found.index + found.length])] + rest
  {
    var b, end := chunks[0], found.index + found.length;
    assert "" + b == b;
    var a, later := [Clear(b[..found.index]), Hidden(b[found.index..end])], Consumed(m, b[end..]);
    var fed := Fed(m, "", b, false);
    var released := [Clear(later.1[..Releasable(m, later.1, false)])];
    assert Consumed(m, b) == (a + later.0, later.1);
    rest := (later.0 + released) + Streamed(m, fed.1, chunks[1..]);
    assert fed.0 == (a + later.0) + released;
    PiecesAssoc(a, later.0, released, Streamed(m, fed.1, chunks[1..]));
  }

  lemma PiecesAssoc(a: seq<Piece>, b: seq<Piece>, c: seq<Piece>, d: seq<Piece>)
    ensures ((a + b) + c) + d == a + ((b + c) + d)
  {
  }

  /** Streaming and one-shot redaction write the same, for every text in which no form is cut by an escape and every
      chunking of it, exactly when no spelling of a variant holds another secret that ends before it does. */
  lemma ChunkingExactly(t: Tables, marker: string)
    requires WellFormed(t) && marker != ""
    ensures NoneNested(t) <==>
      (forall chunks :: Apart(t, Concat(chunks)) ==>
        Render(Streamed(MatcherOf(t), "", chunks), marker) == Render(OneShot(t, Concat(chunks)), marker))
  {
    if NoneNested(t) {
      forall chunks | Apart(t, Concat(chunks))
        ensures Render(Streamed(MatcherOf(t), "", chunks), marker) == Render(OneShot(t, Concat(chunks)), marker)
      {
        ChunkingIsInvisible(t, chunks, marker);
      }
    } else {
      var word, i: nat, j: nat :| Spelling(t, word) && Secret(t, word, i, j) && j != |word|;
      NestedIsVisible(t, word, i, j, marker);
    }
  }

  // ----- Why forms cut by an escape are left out -----

  /** The tables of the one-letter secret F. */
  const ONE_LETTER := Tables(["F"], ["F"], ["F"])

  /** The last letter of the escape `%2f` is the secret in the other case: it is hidden when the escape arrives whole,
      and let through when the buffer begins inside it. */
  lemma CutFormsDiffer(marker: string)
    requires marker != "f"
    ensures WellFormed(ONE_LETTER) && NoneNested(ONE_LETTER)
    ensures Render(Streamed(MatcherOf(ONE_LETTER), "", ["%2", "f"]), marker) !=
              Render(OneShot(ONE_LETTER, "%2f"), marker)
  {
    EnoughIgnoringCase(ONE_LETTER);
    NoneFound("%2");
    NoneFound("f");
    NoneFound("");
    WholeEscape("%2f");
    LetterIsCut(MatcherOf(ONE_LETTER), marker);
  }

  lemma LetterIsCut(m: Matcher, marker: string)
    requires Sound(m) && m.longest == 1 && marker != "f"
    requires Finding(m, "%2", None) && Finding(m, "f", None) && Finding(m, "", None)
    requires Finding(m, "%2f", Some(Match(2, 1)))
    ensures Render(Streamed(m, "", ["%2", "f"]), marker) != Render(Fed(m, "", "%2f", true).0, marker)
  {
    LetThrough(m, "%2", "f", marker);
    MatchToTheEnd(m, "%2f", 2, 1, marker);
    assert "%2f"[..2] == "%2" && ("%2" + marker)[2..] == marker && ("%2" + "f")[2..] == "f";
  }

  lemma LetThrough(m: Matcher, a: string, b: string, marker: string)
    requires Sound(m) && m.longest == 1 && Finding(m, a, None) && Finding(m, b, None) && Finding(m, "", None)
    ensures Render(Streamed(m, "", [a, b]), marker) == a + b
  {
    UnmatchedIsReleased(m, a, false);
    UnmatchedIsReleased(m, b, false);
    UnmatchedIsReleased(m, "", true);
    assert [a, b][1..] == [b] && [b][1..] == [];
    assert Streamed(m, "", [b]) == [Clear(b)] + [Clear("")];
    assert Streamed(m, "", [a, b]) == [Clear(a)] + ([Clear(b)] + [Clear("")]);
    RenderConcat([Clear(a)], [Clear(b)] + [Clear("")], marker);
    RenderConcat([Clear(b)], [Clear("")], marker);
    RenderOne(Clear(a), marker);
    RenderOne(Clear(b), marker);
    RenderOne(Clear(""), marker);
    assert b + "" == b;
  }

  lemma UnmatchedIsReleased(m: Matcher, text: string, final: bool)
    requires Sound(m) && m.longest == 1 && Finding(m, text, None)
    ensures Fed(m, "", text, final) == ([Clear(text)], "")
  {
    assert "" + text == text && text[..|text|] == text && text[|text|..] == "";
    assert [] + [Clear(text)] == [Clear(text)];
  }

  lemma WholeEscape(text: string)
    requires text == "%2f"
    ensures Leftmost(ONE_LETTER, text) == Some(Match(2, 1))
  {
    assert EscapeAt(Percent, text, 0);
    SubAt(Percent, Upper, text, 0);
    SubAt(Percent, Upper, text, 1);
    SubAt(Percent, Upper, text, 2);
    FreeIsCanonical(JsonUnicode, text);
    var canonical := Canonical(Percent, text);
    assert canonical == "%2F";
    assert canonical[2..3] == "F" && Hit(ONE_LETTER, text, 2, 1);
    forall p: nat, n: nat | Hit(ONE_LETTER, text, p, n) ensures Before(Match(2, 1), p, n) {
      assert p < 3;
      assert n == 1 ==> canonical[p..p + n][0] == canonical[p] && text[p..p + n][0] == text[p];
    }
    LeftmostIsUnique(ONE_LETTER, text, Some(Match(2, 1)));
  }

  lemma NoneFound(buffer: string)
    requires buffer in ["%2", "f", ""]
    ensures Leftmost(ONE_LETTER, buffer) == None
  {
    FreeIsCanonical(JsonUnicode, buffer);
    FreeIsCanonical(Percent, buffer);
    forall p: nat, n: nat ensures !Hit(ONE_LETTER, buffer, p, n) {
      assert p + n <= |buffer| && n == 1 ==> buffer[p..p + n][0] == buffer[p];
    }
    LeftmostIsUnique(ONE_LETTER, buffer, None);
  }
}
