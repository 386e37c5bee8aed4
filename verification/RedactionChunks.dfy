/** When the cut into chunks makes no difference to what a stream redactor hides. */
module RedactionChunks {
  import opened Options
  import opened Strings
  import opened RedactionStream

  /** The matcher reports the leftmost stretch of the set in every slice of the text, and the longest one there. */
  ghost predicate Exact(m: Matcher, text: string, stretch: Stretches) {
    && (forall p: nat, q: nat :: stretch(p, q) ==> p < q <= |text| && q - p <= m.longest)
    && (forall lo: nat, hi: nat :: lo <= hi <= |text| ==> Finds(stretch, lo, hi, m.find(text[lo..hi])))
  }

  ghost predicate Finds(stretch: Stretches, lo: nat, hi: nat, found: Option<Match>) {
    && (found.None? ==> forall p: nat, q: nat :: lo <= p && q <= hi ==> !stretch(p, q))
    && (found.Some? ==>
          var f := found.value;
          && 0 < f.length && lo + f.index + f.length <= hi && stretch(lo + f.index, lo + f.index + f.length)
          && forall p: nat, q: nat :: lo <= p && p < q <= hi && stretch(p, q) ==> Before(f, p - lo, q - p))
  }

  /** No stretch holds another one that ends before it does. */
  ghost predicate NoneEndsInside(stretch: Stretches) {
    forall p: nat, q: nat, p': nat, q': nat :: stretch(p, q) && stretch(p', q') && p <= p' ==> q <= q'
  }

  /** A match found in the part of the text that has arrived is the match of the whole text. */
  lemma FoundEarly(m: Matcher, text: string, stretch: Stretches, lo: nat, hi: nat)
    requires Exact(m, text, stretch) && NoneEndsInside(stretch) && lo <= hi <= |text| && m.find(text[lo..hi]).Some?
    ensures m.find(text[lo..|text|]) == m.find(text[lo..hi])
  {
    var f := m.find(text[lo..hi]).value;
    assert Finds(stretch, lo, hi, Some(f)) && Finds(stretch, lo, |text|, m.find(text[lo..|text|]));
    assert stretch(lo + f.index, lo + f.index + f.length);
    var g := m.find(text[lo..|text|]).value;
    assert stretch(lo + g.index, lo + g.index + g.length);
  }

  /** A match still to come begins no earlier than what is let through, and is found from there as well. */
  lemma FoundLater(m: Matcher, text: string, stretch: Stretches, lo: nat, hi: nat, n: nat)
    requires Exact(m, text, stretch) && lo <= hi <= |text| && m.find(text[lo..hi]).None?
    requires n == Releasable(m, text[lo..hi], false) && m.longest > 0
    ensures var f := m.find(text[lo..|text|]);
            m.find(text[lo + n..|text|]) ==
              if f.Some? && n <= f.value.index then Some(Match(f.value.index - n, f.value.length)) else None
    ensures m.find(text[lo..|text|]).Some? ==> n <= m.find(text[lo..|text|]).value.index
  {
    assert |text[lo..hi]| == hi - lo;
    var f, g := m.find(text[lo..|text|]), m.find(text[lo + n..|text|]);
    assert Finds(stretch, lo, hi, None) && Finds(stretch, lo, |text|, f) && Finds(stretch, lo + n, |text|, g);
    if f.Some? {
      assert stretch(lo + f.value.index, lo + f.value.index + f.value.length);
    }
    if g.Some? {
      assert stretch(lo + n + g.value.index, lo + n + g.value.index + g.value.length);
    }
  }

  /** One-shot redaction of the text from position `at` on. */
  ghost function Whole(m: Matcher, text: string, at: nat): seq<Piece>
    requires Sound(m) && at <= |text|
  {
    var cut := Consumed(m, text[at..|text|]);
    cut.0 + [Clear(cut.1)]
  }

  lemma WholeAtMatch(m: Matcher, text: string, first: nat, at: nat, start: nat, end: nat)
    requires Sound(m) && at <= start <= end <= |text|
    requires m.find(text[at..|text|]) == Some(Match(start - at, end - start))
    ensures ClearSpans(Whole(m, text, at), first, at) ==
              [Span(first, start)] + ClearSpans(Whole(m, text, end), end, end)
  {
    WholePieces(m, text, at, start, end);
    SpansOfMatch(text, first, at, start, end, Whole(m, text, end));
  }

  lemma WholePieces(m: Matcher, text: string, at: nat, start: nat, end: nat)
    requires Sound(m) && at <= start <= end <= |text|
    requires m.find(text[at..|text|]) == Some(Match(start - at, end - start))
    ensures Whole(m, text, at) == MatchPieces(text, at, start, end) + Whole(m, text, end)
  {
    ConsumedMatch(m, text, at, |text|, start, end);
    var later := Consumed(m, text[end..|text|]);
    var a := MatchPieces(text, at, start, end);
    assert (a + later.0) + [Clear(later.1)] == a + (later.0 + [Clear(later.1)]);
  }

  lemma WholeWithoutMatch(m: Matcher, text: string, first: nat, at: nat)
    requires Sound(m) && at <= |text| && m.find(text[at..|text|]).None?
    ensures ClearSpans(Whole(m, text, at), first, at) == [Span(first, |text|)]
  {
    assert [] + [Clear(text[at..|text|])] == [Clear(text[at..|text|])];
    ReleaseAll(text[at..|text|], first, at);
  }

  /** Letting through what can be let through changes nothing about the rest. */
  lemma WholeAfterRelease(m: Matcher, text: string, stretch: Stretches, first: nat, at: nat, more: nat, n: nat,
                          next: nat)
    requires next == at + n
    requires Sound(m) && Exact(m, text, stretch) && at <= more <= |text| && m.find(text[at..more]).None?
    requires n == Releasable(m, text[at..more], false) && m.longest > 0
    ensures next <= more
    ensures ClearSpans(Whole(m, text, at), first, at) == ClearSpans(Whole(m, text, next), first, next)
  {
    assert |text[at..more]| == more - at;
    FoundLater(m, text, stretch, at, more, n);
    WholeFromFurtherOn(m, text, first, at, n);
  }

  lemma WholeFromFurtherOn(m: Matcher, text: string, first: nat, at: nat, n: nat)
    requires Sound(m) && at + n <= |text|
    requires var f := m.find(text[at..|text|]);
             if f.Some? then n <= f.value.index
                 && m.find(text[at + n..|text|]) == Some(Match(f.value.index - n, f.value.length))
             else m.find(text[at + n..|text|]).None?
    ensures ClearSpans(Whole(m, text, at), first, at) == ClearSpans(Whole(m, text, at + n), first, at + n)
  {
    assert |text[at..|text|]| == |text| - at;
    match m.find(text[at..|text|])
    case None =>
      WholeWithoutMatch(m, text, first, at);
      WholeWithoutMatch(m, text, first, at + n);
      Transitive(ClearSpans(Whole(m, text, at), first, at), [Span(first, |text|)],
          ClearSpans(Whole(m, text, at + n), first, at + n));
    case Some(found) =>
      var start := at + found.index;
      var end := start + found.length;
      WholeAtMatch(m, text, first, at, start, end);
      WholeAtMatch(m, text, first, at + n, start, end);
      Transitive(ClearSpans(Whole(m, text, at), first, at), [Span(first, start)] +
          ClearSpans(Whole(m, text, end), end, end),
                 ClearSpans(Whole(m, text, at + n), first, at + n));
  }

  lemma Transitive(a: seq<Span>, b: seq<Span>, c: seq<Span>)
    requires a == b && c == b
    ensures a == c
  {
  }

  /** What holds once the matches are cut out of what has arrived: redacting the rest in one go completes it. */
  ghost predicate CutAgrees(m: Matcher, text: string, first: nat, at: nat, more: nat, pieces: seq<Piece>, rest: string)
    requires Sound(m) && at <= |text|
  {
    var end := After(pieces, first, at);
    && end.0 <= end.1 <= more <= |text| && rest == text[end.1..more] && m.find(rest).None?
    && Completes(ClearSpans(pieces, first, at), ClearSpans(Whole(m, text, end.1), end.0, end.1),
        ClearSpans(Whole(m, text, at), first, at))
  }

  ghost predicate CutIsWhole(m: Matcher, text: string, first: nat, at: nat, more: nat)
    requires Sound(m) && at <= more <= |text|
  {
    var cut := Consumed(m, text[at..more]);
    CutAgrees(m, text, first, at, more, cut.0, cut.1)
  }

  /** Cutting the matches out of what has arrived, and redacting the rest in one go, is redacting all in one go. */
  lemma {:induction false} WholeAfterCut(m: Matcher, text: string, stretch: Stretches, first: nat, at: nat, more: nat)
    requires Sound(m) && Exact(m, text, stretch) && NoneEndsInside(stretch) && first <= at <= more <= |text|
    ensures CutIsWhole(m, text, first, at, more)
    decreases more - at
  {
    if m.find(text[at..more]).None? {
      NothingCut(m, text, first, at, more);
    } else {
      var start, end := MatchFound(m, text, stretch, at, more);
      WholeAfterCut(m, text, stretch, end, end, more);
      MatchCut(m, text, first, at, more, start, end);
    }
  }

  lemma MatchFound(m: Matcher, text: string, stretch: Stretches, at: nat, more: nat) returns (start: nat, end: nat)
    requires Sound(m) && Exact(m, text, stretch) && NoneEndsInside(stretch) && at <= more <= |text|
    requires m.find(text[at..more]).Some?
    ensures at <= start < end <= more
    ensures m.find(text[at..more]) == Some(Match(start - at, end - start)) == m.find(text[at..|text|])
  {
    var found := m.find(text[at..more]).value;
    assert |text[at..more]| == more - at;
    start, end := at + found.index, at + found.index + found.length;
    FoundEarly(m, text, stretch, at, more);
  }

  lemma NothingCut(m: Matcher, text: string, first: nat, at: nat, more: nat)
    requires Sound(m) && first <= at <= more <= |text| && m.find(text[at..more]).None?
    ensures CutIsWhole(m, text, first, at, more)
  {
    assert After([], first, at) == (first, at) && ClearSpans([], first, at)[..0] == [];
  }

  lemma MatchCut(m: Matcher, text: string, first: nat, at: nat, more: nat, start: nat, end: nat)
    requires Sound(m) && first <= at <= start <= end <= more <= |text|
    requires m.find(text[at..more]) == Some(Match(start - at, end - start)) == m.find(text[at..|text|])
    requires CutIsWhole(m, text, end, end, more)
    ensures CutIsWhole(m, text, first, at, more)
  {
    WholeAtMatch(m, text, first, at, start, end);
    CutAtMatch(m, text, first, at, more, start, end);
    var (cut, later) := (Consumed(m, text[at..more]), Consumed(m, text[end..more]));
    JoinAgrees(m, text, first, at, more, start, end, cut, later);
  }

  lemma JoinAgrees(m: Matcher, text: string, first: nat, at: nat, more: nat, start: nat, end: nat,
                   cut: (seq<Piece>, string), later: (seq<Piece>, string))
    requires Sound(m) && first <= at <= start <= end <= more <= |text|
    requires ClearSpans(Whole(m, text, at), first, at) ==
              [Span(first, start)] + ClearSpans(Whole(m, text, end), end, end)
    requires After(cut.0, first, at) == After(later.0, end, end) && cut.1 == later.1
    requires ClearSpans(cut.0, first, at) == [Span(first, start)] + ClearSpans(later.0, end, end)
    requires CutAgrees(m, text, end, end, more, later.0, later.1)
    ensures CutAgrees(m, text, first, at, more, cut.0, cut.1)
  {
    var last := After(later.0, end, end);
    JoinSpans(Span(first, start), ClearSpans(later.0, end, end), ClearSpans(Whole(m, text, last.1), last.0, last.1),
              ClearSpans(Whole(m, text, end), end, end));
  }

  lemma CutAtMatch(m: Matcher, text: string, first: nat, at: nat, more: nat, start: nat, end: nat)
    requires Sound(m) && at <= start <= end <= more <= |text|
    requires m.find(text[at..more]) == Some(Match(start - at, end - start))
    ensures var (cut, later) := (Consumed(m, text[at..more]), Consumed(m, text[end..more]));
            && After(cut.0, first, at) == After(later.0, end, end) && cut.1 == later.1
            && ClearSpans(cut.0, first, at) == [Span(first, start)] + ClearSpans(later.0, end, end)
  {
    ConsumedMatch(m, text, at, more, start, end);
    SpansOfMatch(text, first, at, start, end, Consumed(m, text[end..more]).0);
  }

  /** Streaming hides exactly what one-shot redaction hides. */
  lemma {:induction false} SameSpans(m: Matcher, text: string, stretch: Stretches, first: nat, at: nat, fed: nat,
                                     chunks: seq<string>)
    requires Sound(m) && m.longest > 0 && Exact(m, text, stretch) && NoneEndsInside(stretch)
    requires first <= at <= fed <= |text| && text[fed..] == Concat(chunks)
    ensures ClearSpans(Streamed(m, text[at..fed], chunks), first, at) == ClearSpans(Whole(m, text, at), first, at)
    decreases |chunks|
  {
    if chunks == [] {
      assert |text[fed..]| == 0;
      FinishIsWhole(m, text, at);
    } else {
      var more := fed + |chunks[0]|;
      SplitSuffix(text, fed, chunks[0], Concat(chunks[1..]));
      JoinSlices(text, at, fed, more);
      var open, next := FeedReduces(m, text, stretch, first, at, fed, more, chunks);
      SameSpans(m, text, stretch, open, next, more, chunks[1..]);
    }
  }

  /** One feed reduces the question to the buffer it leaves. */
  lemma FeedReduces(m: Matcher, text: string, stretch: Stretches, first: nat, at: nat, fed: nat, more: nat,
                    chunks: seq<string>)
    returns (open: nat, next: nat)
    requires Sound(m) && m.longest > 0 && Exact(m, text, stretch) && NoneEndsInside(stretch)
    requires first <= at <= fed <= more <= |text| && chunks != [] && text[at..more] == text[at..fed] + chunks[0]
    ensures open <= next <= more
    ensures ClearSpans(Streamed(m, text[next..more], chunks[1..]), open, next) ==
              ClearSpans(Whole(m, text, next), open, next)
            ==> ClearSpans(Streamed(m, text[at..fed], chunks), first, at) == ClearSpans(Whole(m, text, at), first, at)
  {
    var cut := Consumed(m, text[at..more]);
    var end := After(cut.0, first, at);
    var n := Releasable(m, cut.1, false);
    open, next := end.0, end.1 + n;
    ReleasePoint(m, text, stretch, first, at, more, cut, end, n, next);
    if ClearSpans(Streamed(m, text[next..more], chunks[1..]), open, next) ==
        ClearSpans(Whole(m, text, next), open, next) {
      SameStep(m, text, first, at, fed, more, chunks, cut, end, n, next);
    }
  }

  /** Where the buffer begins after a feed, and what one-shot redaction from there on still has to do. */
  lemma ReleasePoint(m: Matcher, text: string, stretch: Stretches, first: nat, at: nat, more: nat,
                     cut: (seq<Piece>, string), end: (nat, nat), n: nat, next: nat)
    requires Sound(m) && m.longest > 0 && Exact(m, text, stretch) && NoneEndsInside(stretch)
    requires first <= at <= more <= |text|
    requires cut == Consumed(m, text[at..more]) && end == After(cut.0, first, at)
    requires n == Releasable(m, cut.1, false) && next == end.1 + n
    ensures CutIsWhole(m, text, first, at, more)
    ensures end.0 <= next <= more && end.1 <= more && cut.1[n..] == text[next..more]
    ensures ClearSpans(Whole(m, text, end.1), end.0, end.1) == ClearSpans(Whole(m, text, next), end.0, next)
  {
    WholeAfterCut(m, text, stretch, first, at, more);
    assert CutAgrees(m, text, first, at, more, cut.0, cut.1);
    WholeAfterRelease(m, text, stretch, end.0, end.1, more, n, next);
    SliceOfSlice(text, end.1, more, n, more - end.1);
  }

  lemma StreamedStep(m: Matcher, text: string, at: nat, fed: nat, more: nat, chunks: seq<string>, next: nat,
                     cut: (seq<Piece>, string), n: nat)
    requires Sound(m) && m.longest > 0 && at <= fed <= more <= |text| && next <= more
    requires chunks != [] && text[at..more] == text[at..fed] + chunks[0]
    requires cut == Consumed(m, text[at..more]) && n == Releasable(m, cut.1, false) && cut.1[n..] == text[next..more]
    ensures Streamed(m, text[at..fed], chunks) ==
              (cut.0 + [Clear(cut.1[..n])]) + Streamed(m, text[next..more], chunks[1..])
  {
    assert Fed(m, text[at..fed], chunks[0], false) == (cut.0 + [Clear(cut.1[..n])], cut.1[n..]);
  }

  lemma SameStep(m: Matcher, text: string, first: nat, at: nat, fed: nat, more: nat, chunks: seq<string>,
                 cut: (seq<Piece>, string), end: (nat, nat), n: nat, next: nat)
    requires Sound(m) && m.longest > 0 && first <= at <= fed <= more <= |text| && next == end.1 + n <= more
    requires chunks != [] && text[at..more] == text[at..fed] + chunks[0]
    requires cut == Consumed(m, text[at..more]) && n == Releasable(m, cut.1, false) && cut.1[n..] == text[next..more]
    requires CutIsWhole(m, text, first, at, more) && end == After(cut.0, first, at)
    requires ClearSpans(Streamed(m, text[next..more], chunks[1..]), end.0, next) ==
              ClearSpans(Whole(m, text, next), end.0, next)
    requires ClearSpans(Whole(m, text, end.1), end.0, end.1) == ClearSpans(Whole(m, text, next), end.0, next)
    ensures ClearSpans(Streamed(m, text[at..fed], chunks), first, at) == ClearSpans(Whole(m, text, at), first, at)
  {
    StreamedStep(m, text, at, fed, more, chunks, next, cut, n);
    assert CutAgrees(m, text, first, at, more, cut.0, cut.1);
    SpansOfStep(ClearSpans(Whole(m, text, at), first, at), ClearSpans(Whole(m, text, end.1), end.0, end.1),
                cut.0, cut.1[..n], Streamed(m, text[next..more], chunks[1..]), first, at, end, next);
  }

  lemma SpansOfStep(whole: seq<Span>, last: seq<Span>, pieces: seq<Piece>, released: string, later: seq<Piece>,
                    first: nat, at: nat, end: (nat, nat), next: nat)
    requires end == After(pieces, first, at) && next == end.1 + |released|
    requires Completes(ClearSpans(pieces, first, at), last, whole)
    requires last == ClearSpans(later, end.0, next)
    ensures ClearSpans((pieces + [Clear(released)]) + later, first, at) == whole
  {
    SpansOfFeed(pieces, released, later, first, at);
  }

  lemma FinishIsWhole(m: Matcher, text: string, at: nat)
    requires Sound(m) && m.longest > 0 && at <= |text|
    ensures Streamed(m, text[at..|text|], []) == Whole(m, text, at)
  {
    assert text[at..|text|] + "" == text[at..|text|];
    var cut := Consumed(m, text[at..|text|]);
    assert cut.1[..|cut.1|] == cut.1;
  }

  lemma SpansOfFeed(pieces: seq<Piece>, released: string, later: seq<Piece>, first: nat, at: nat)
    ensures var end := After(pieces, first, at);
            ClearSpans((pieces + [Clear(released)]) + later, first, at)
            == ClearSpans(pieces, first, at)[..|ClearSpans(pieces, first, at)| - 1]
               + ClearSpans(later, end.0, end.1 + |released|)
  {
    SpansConcat(pieces, [Clear(released)] + later, first, at);
    assert ([Clear(released)] + later)[1..] == later;
    assert (pieces + [Clear(released)]) + later == pieces + ([Clear(released)] + later);
  }

  /** The output is determined by the positions of the clear runs. */
  function RenderSpans(text: string, spans: seq<Span>, marker: string): string
    requires forall i :: 0 <= i < |spans| ==> spans[i].first <= spans[i].end <= |text|
  {
    if spans == [] then ""
    else
      text[spans[0].first..spans[0].end]
      + (if |spans| == 1 then "" else marker + RenderSpans(text, spans[1..], marker))
  }

  lemma {:induction false} RenderIsSpans(pieces: seq<Piece>, text: string, first: nat, at: nat, marker: string)
    requires first <= at <= |text| && Original(pieces) == text[at..]
    ensures var spans := ClearSpans(pieces, first, at);
            && (forall i :: 0 <= i < |spans| ==> spans[i].first <= spans[i].end <= |text|)
            && text[first..at] + Render(pieces, marker) == RenderSpans(text, spans, marker)
  {
    if pieces == [] {
      assert text[first..at] + "" == text[first..at];
    } else {
      SplitSuffix(text, at, pieces[0].text, Original(pieces[1..]));
      var next := at + |pieces[0].text|;
      if pieces[0].Clear? {
        RenderIsSpans(pieces[1..], text, first, next, marker);
        JoinSlices(text, first, at, next);
        Assoc(text[first..at], pieces[0].text, Render(pieces[1..], marker));
      } else {
        RenderIsSpans(pieces[1..], text, next, next, marker);
        var later := ClearSpans(pieces[1..], next, next);
        assert ([Span(first, at)] + later)[1..] == later;
        assert text[next..next] + Render(pieces[1..], marker) == Render(pieces[1..], marker);
      }
    }
  }
}
