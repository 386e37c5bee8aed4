/** Cutting matches out of a stream: a buffer, a function that finds the leftmost match in it, and the pieces let
    through (evals/install/redaction.py). Nothing here depends on what a match is. */
module RedactionStream {
  import opened Options
  import opened Strings

  datatype Match = Match(index: nat, length: nat)

  type Finder = string -> Option<Match>

  /** A finder and the length of the longest match it can report. */
  datatype Matcher = Matcher(find: Finder, longest: nat)

  ghost predicate Sound(m: Matcher) {
    forall b :: m.find(b).Some? ==> 0 < m.find(b).value.length && m.find(b).value.index + m.find(b).value.length <= |b|
  }

  // ----- Output -----

  /** What the redactor emits: text let through, and hidden text a marker stands for. */
  datatype Piece = Clear(text: string) | Hidden(text: string)

  function Render(pieces: seq<Piece>, marker: string): string {
    if pieces == [] then ""
    else (if pieces[0].Clear? then pieces[0].text else marker) + Render(pieces[1..], marker)
  }

  /** The input: every marker replaced by the text it stands for. */
  function Original(pieces: seq<Piece>): string {
    if pieces == [] then "" else pieces[0].text + Original(pieces[1..])
  }

  lemma {:induction false} RenderConcat(a: seq<Piece>, b: seq<Piece>, marker: string)
    ensures Render(a + b, marker) == Render(a, marker) + Render(b, marker)
  {
    if a == [] {
      assert a + b == b;
    } else {
      assert (a + b)[1..] == a[1..] + b;
      RenderConcat(a[1..], b, marker);
    }
  }

  lemma RenderOne(a: Piece, marker: string)
    ensures Render([a], marker) == if a.Clear? then a.text else marker
  {
    assert [a][1..] == [];
  }

  lemma RenderTwo(a: Piece, b: Piece, marker: string)
    ensures Render([a, b], marker) == Render([a], marker) + Render([b], marker)
  {
    RenderConcat([a], [b], marker);
    assert [a] + [b] == [a, b];
  }

  lemma RenderMatch(before: string, hidden: string, later: seq<Piece>, marker: string)
    ensures Render([Clear(before), Hidden(hidden)] + later, marker) == before + marker + Render(later, marker)
  {
    var a, b := Clear(before), Hidden(hidden);
    RenderConcat([a, b], later, marker);
    RenderTwo(a, b, marker);
    RenderOne(a, marker);
    RenderOne(b, marker);
  }

  lemma RenderConsumed(m: Matcher, buffer: string, marker: string)
    requires Sound(m) && m.find(buffer).Some?
    ensures var found := m.find(buffer).value;
            Render(Consumed(m, buffer).0, marker)
            == buffer[..found.index] + marker + Render(Consumed(m, buffer[found.index + found.length..]).0, marker)
  {
    var Match(index, length) := m.find(buffer).value;
    RenderMatch(buffer[..index], buffer[index..index + length], Consumed(m, buffer[index + length..]).0, marker);
  }

  lemma {:induction false} OriginalConcat(a: seq<Piece>, b: seq<Piece>)
    ensures Original(a + b) == Original(a) + Original(b)
  {
    if a == [] {
      assert a + b == b;
    } else {
      assert (a + b)[1..] == a[1..] + b;
      OriginalConcat(a[1..], b);
    }
  }

  lemma OriginalOfMatch(buffer: string, i: nat, end: nat)
    requires i <= end <= |buffer|
    ensures Original([Clear(buffer[..i]), Hidden(buffer[i..end])]) == buffer[..end]
  {
    var a := [Clear(buffer[..i]), Hidden(buffer[i..end])];
    assert a[1..] == [Hidden(buffer[i..end])] && a[1..][1..] == [];
    assert Original(a[1..]) == buffer[i..end];
    assert buffer[..i] + buffer[i..end] == buffer[..end];
  }

  // ----- One feed, as a function of the buffer -----

  /** Every match in the buffer cut out, leftmost first; what is left of the buffer comes second. */
  ghost function Consumed(m: Matcher, buffer: string): (seq<Piece>, string)
    requires Sound(m)
    decreases |buffer|
  {
    match m.find(buffer)
    case None => ([], buffer)
    case Some(found) =>
      var end := found.index + found.length;
      var later := Consumed(m, buffer[end..]);
      ([Clear(buffer[..found.index]), Hidden(buffer[found.index..end])] + later.0, later.1)
  }

  /** How much of a match-free buffer can be let through: no match that starts there can still be completed. */
  function Releasable(m: Matcher, rest: string, final: bool): (n: nat)
    ensures n <= |rest|
  {
    if final || m.longest == 0 then |rest|
    else if |rest| > m.longest - 1 then |rest| - (m.longest - 1)
    else 0
  }

  ghost function Fed(m: Matcher, buffer: string, text: string, final: bool): (seq<Piece>, string)
    requires Sound(m)
  {
    if m.longest == 0 then ([Clear(text)], buffer)
    else
      var cut := Consumed(m, buffer + text);
      var n := Releasable(m, cut.1, final);
      (cut.0 + [Clear(cut.1[..n])], cut.1[n..])
  }

  /** The pieces of a whole stream: every chunk fed in turn, then finish. */
  ghost function Streamed(m: Matcher, buffer: string, chunks: seq<string>): seq<Piece>
    requires Sound(m)
    decreases |chunks|
  {
    if chunks == [] then Fed(m, buffer, "", true).0
    else
      var fed := Fed(m, buffer, chunks[0], false);
      fed.0 + Streamed(m, fed.1, chunks[1..])
  }

  function Concat(chunks: seq<string>): string {
    if chunks == [] then "" else chunks[0] + Concat(chunks[1..])
  }

  // ----- Positions -----

  /** A stretch of the input, from its first position to the one past its last. */
  datatype Span = Span(first: nat, end: nat)

  /** The input positions of the clear runs: `first` is where the run that reaches position `at` began. */
  function ClearSpans(pieces: seq<Piece>, first: nat, at: nat): (spans: seq<Span>)
    ensures spans != [] && spans[0].first == first
  {
    if pieces == [] then [Span(first, at)]
    else
      var next := at + |pieces[0].text|;
      if pieces[0].Clear? then ClearSpans(pieces[1..], first, next)
      else [Span(first, at)] + ClearSpans(pieces[1..], next, next)
  }

  /** The text between two markers, as it appears in the output. */
  function ClearRuns(pieces: seq<Piece>, run: string): seq<string> {
    if pieces == [] then [run]
    else if pieces[0].Clear? then ClearRuns(pieces[1..], run + pieces[0].text)
    else [run] + ClearRuns(pieces[1..], "")
  }

  // ----- What must not get through -----

  /** A set of stretches of the text, by first position and the position past the last. */
  type Stretches = (nat, nat) -> bool

  /** The matcher sees every stretch of the set in every buffer that contains it. */
  ghost predicate Catches(m: Matcher, text: string, secret: Stretches) {
    && (forall p: nat, q: nat :: secret(p, q) ==> p < q <= |text| && q - p <= m.longest)
    && (forall lo: nat, p: nat, q: nat, hi: nat {:trigger secret(p, q), text[lo..hi]} ::
          lo <= p && secret(p, q) && q <= hi <= |text| ==>
            m.find(text[lo..hi]).Some? && Before(m.find(text[lo..hi]).value, p - lo, q - p))
  }

  predicate Before(found: Match, p: nat, n: nat) {
    found.index < p || (found.index == p && found.length >= n)
  }

  /** No stretch of the set lies within positions first..end. */
  ghost predicate Clean(secret: Stretches, first: nat, end: nat) {
    forall p: nat, q: nat :: first <= p && q <= end ==> !secret(p, q)
  }

  ghost predicate AllClean(secret: Stretches, spans: seq<Span>) {
    forall i :: 0 <= i < |spans| ==> Clean(secret, spans[i].first, spans[i].end)
  }

  /** No stretch of the set begins in the part of the open run that was let through already and ends by `fed`. */
  ghost predicate NoneOpen(secret: Stretches, first: nat, at: nat, fed: nat) {
    forall p: nat, q: nat :: first <= p < at && q <= fed ==> !secret(p, q)
  }

  /** Where the open run began and where the buffer begins after the pieces. */
  function After(pieces: seq<Piece>, first: nat, at: nat): (end: (nat, nat))
    ensures first <= at ==> end.0 <= end.1 && at <= end.1
  {
    if pieces == [] then (first, at)
    else
      var next := at + |pieces[0].text|;
      After(pieces[1..], if pieces[0].Clear? then first else next, next)
  }

  /** All the runs are those that are closed and the ones that come of the open run. */
  predicate Completes(spans: seq<Span>, last: seq<Span>, all: seq<Span>) {
    |spans| > 0 && all == spans[..|spans| - 1] + last
  }

  lemma JoinSpans(span: Span, spans: seq<Span>, last: seq<Span>, all: seq<Span>)
    requires Completes(spans, last, all)
    ensures Completes([span] + spans, last, [span] + all)
  {
  }

  lemma {:induction false} SpansConcat(a: seq<Piece>, b: seq<Piece>, first: nat, at: nat)
    ensures After(a + b, first, at) == After(b, After(a, first, at).0, After(a, first, at).1)
    ensures Completes(ClearSpans(a, first, at), ClearSpans(b, After(a, first, at).0, After(a, first, at).1),
              ClearSpans(a + b, first, at))
  {
    if a == [] {
      assert a + b == b;
    } else {
      assert (a + b)[0] == a[0] && (a + b)[1..] == a[1..] + b;
      var next := at + |a[0].text|;
      if a[0].Clear? {
        SpansConcat(a[1..], b, first, next);
      } else {
        SpansConcat(a[1..], b, next, next);
        var end := After(a[1..], next, next);
        JoinSpans(Span(first, at), ClearSpans(a[1..], next, next), ClearSpans(b, end.0, end.1),
            ClearSpans(a[1..] + b, next, next));
      }
    }
  }

  /** Before the leftmost match of the buffer, and anywhere when there is none, no secret lies. */
  lemma CleanBeforeMatch(m: Matcher, text: string, secret: Stretches, first: nat, at: nat, fed: nat)
    requires Sound(m) && Catches(m, text, secret) && first <= at <= fed <= |text| && NoneOpen(secret, first, at, fed)
    ensures var found := m.find(text[at..fed]);
            Clean(secret, first, if found.Some? then at + found.value.index else fed)
  {
    var found := m.find(text[at..fed]);
    var end := if found.Some? then at + found.value.index else fed;
    forall p: nat, q: nat | first <= p && q <= end ensures !secret(p, q) {
      if p >= at && secret(p, q) { IsCaught(m, text, secret, at, p, q, fed); }
    }
  }

  lemma IsCaught(m: Matcher, text: string, secret: Stretches, lo: nat, p: nat, q: nat, hi: nat)
    requires Catches(m, text, secret) && lo <= p && secret(p, q) && q <= hi <= |text|
    ensures p < q && m.find(text[lo..hi]).Some? && Before(m.find(text[lo..hi]).value, p - lo, q - p)
  {
  }

  /** The pieces leave clean runs, and no secret at all in what stays open. */
  ghost predicate Cleaned(m: Matcher, text: string, secret: Stretches, first: nat, at: nat, fed: nat,
                          pieces: seq<Piece>, rest: string) {
    var end := After(pieces, first, at);
    && end.1 <= fed <= |text| && rest == text[end.1..fed] && Clean(secret, end.0, fed)
    && AllClean(secret, ClearSpans(pieces, first, at))
    && (if pieces == [] then end == (first, at) else end.0 == end.1)
  }

  ghost predicate LeavesClean(m: Matcher, text: string, secret: Stretches, first: nat, at: nat, fed: nat)
    requires Sound(m) && at <= fed <= |text|
  {
    var result := Consumed(m, text[at..fed]);
    Cleaned(m, text, secret, first, at, fed, result.0, result.1)
  }

  lemma NoMatchIsClean(m: Matcher, text: string, secret: Stretches, first: nat, at: nat, fed: nat)
    requires Sound(m) && first <= at <= fed <= |text| && Clean(secret, first, fed) && m.find(text[at..fed]).None?
    ensures LeavesClean(m, text, secret, first, at, fed)
  {
    assert forall p: nat, q: nat :: first <= p && q <= at ==> !secret(p, q);
  }

  lemma MatchIsClean(m: Matcher, text: string, secret: Stretches, first: nat, at: nat, fed: nat, start: nat, end: nat)
    requires Sound(m) && first <= at <= start <= end <= fed <= |text|
    requires m.find(text[at..fed]) == Some(Match(start - at, end - start)) && Clean(secret, first, start)
    requires LeavesClean(m, text, secret, end, end, fed)
    ensures LeavesClean(m, text, secret, first, at, fed)
  {
    var (all, later) := (Consumed(m, text[at..fed]), Consumed(m, text[end..fed]));
    assert Cleaned(m, text, secret, end, end, fed, later.0, later.1);
    ConsumedMatch(m, text, at, fed, start, end);
    SpansOfMatch(text, first, at, start, end, later.0);
    MatchCleans(m, text, secret, first, at, fed, start, end, all, later);
  }

  lemma MatchCleans(m: Matcher, text: string, secret: Stretches, first: nat, at: nat, fed: nat, start: nat, end: nat,
                    all: (seq<Piece>, string), later: (seq<Piece>, string))
    requires first <= at <= fed <= |text| && all.0 != [] && Clean(secret, first, start)
    requires Cleaned(m, text, secret, end, end, fed, later.0, later.1) && all.1 == later.1
    requires After(all.0, first, at) == After(later.0, end, end)
    requires ClearSpans(all.0, first, at) == [Span(first, start)] + ClearSpans(later.0, end, end)
    ensures Cleaned(m, text, secret, first, at, fed, all.0, all.1)
  {
  }

  /** Cutting out the matches cleans the buffer. */
  lemma {:induction false} ConsumedIsClean(m: Matcher, text: string, secret: Stretches, first: nat, at: nat, fed: nat)
    requires Sound(m) && Catches(m, text, secret) && first <= at <= fed <= |text| && NoneOpen(secret, first, at, fed)
    ensures LeavesClean(m, text, secret, first, at, fed)
    decreases fed - at
  {
    CleanBeforeMatch(m, text, secret, first, at, fed);
    match m.find(text[at..fed])
    case None =>
      NoMatchIsClean(m, text, secret, first, at, fed);
    case Some(found) =>
      var start := at + found.index;
      var end := start + found.length;
      assert |text[at..fed]| == fed - at;
      ConsumedIsClean(m, text, secret, end, end, fed);
      MatchIsClean(m, text, secret, first, at, fed, start, end);
  }

  /** The two pieces the match at start..end leaves of the buffer that begins at position `at`. */
  function MatchPieces(text: string, at: nat, start: nat, end: nat): seq<Piece>
    requires at <= start <= end <= |text|
  {
    [Clear(text[at..start]), Hidden(text[start..end])]
  }

  lemma ConsumedMatch(m: Matcher, text: string, at: nat, more: nat, start: nat, end: nat)
    requires Sound(m) && at <= start <= end <= more <= |text|
    requires m.find(text[at..more]) == Some(Match(start - at, end - start))
    ensures var later := Consumed(m, text[end..more]);
            Consumed(m, text[at..more]) == (MatchPieces(text, at, start, end) + later.0, later.1)
  {
    BufferSlices(text, at, more, start, end);
  }

  lemma BufferSlices(text: string, at: nat, more: nat, start: nat, end: nat)
    requires at <= start <= end <= more <= |text|
    ensures var buffer := text[at..more];
            buffer[..start - at] == text[at..start] && buffer[start - at..end - at] == text[start..end]
                && buffer[end - at..] == text[end..more]
  {
    SliceOfSlice(text, at, more, 0, start - at);
    SliceOfSlice(text, at, more, start - at, end - at);
    SliceOfSlice(text, at, more, end - at, more - at);
  }

  lemma SpansOfMatch(text: string, first: nat, at: nat, start: nat, end: nat, later: seq<Piece>)
    requires at <= start <= end <= |text|
    ensures After(MatchPieces(text, at, start, end) + later, first, at) == After(later, end, end)
    ensures ClearSpans(MatchPieces(text, at, start, end) + later, first, at) ==
              [Span(first, start)] + ClearSpans(later, end, end)
  {
    var a := MatchPieces(text, at, start, end);
    assert (a + later)[1..] == [a[1]] + later && ([a[1]] + later)[1..] == later;
  }

  /** Between feeds: the open run holds no secret, and the buffer is as long as a secret can reach back. */
  ghost predicate Waiting(m: Matcher, text: string, secret: Stretches, first: nat, at: nat, fed: nat) {
    && first <= at <= fed <= |text| && Clean(secret, first, fed)
    && (m.longest == 0 ==> at == fed)
    && (first < at && m.longest != 0 ==> fed - at == m.longest - 1)
  }

  lemma SecretsReachNoFurther(m: Matcher, text: string, secret: Stretches, first: nat, at: nat, fed: nat, more: nat)
    requires Sound(m) && Catches(m, text, secret) && Waiting(m, text, secret, first, at, fed) && fed <= more <= |text|
    ensures NoneOpen(secret, first, at, more)
    ensures m.longest == 0 ==> forall p, q :: !secret(p, q)
  {
  }

  ghost predicate FedCleaned(m: Matcher, text: string, secret: Stretches, first: nat, at: nat, more: nat, final: bool,
                             pieces: seq<Piece>, rest: string) {
    var end := After(pieces, first, at);
    && end.1 <= more <= |text| && rest == text[end.1..more] && AllClean(secret, ClearSpans(pieces, first, at))
    && (if final then end.1 == more else Waiting(m, text, secret, end.0, end.1, more))
  }

  lemma FedIsClean(m: Matcher, text: string, secret: Stretches, first: nat, at: nat, fed: nat, more: nat, final: bool)
    requires Sound(m) && Catches(m, text, secret) && Waiting(m, text, secret, first, at, fed) && fed <= more <= |text|
    ensures var result := Fed(m, text[at..fed], text[fed..more], final);
            FedCleaned(m, text, secret, first, at, more, final, result.0, result.1)
  {
    JoinSlices(text, at, fed, more);
    SecretsReachNoFurther(m, text, secret, first, at, fed, more);
    if m.longest == 0 {
      ReleaseAll(text[fed..more], first, at);
      assert text[more..more] == "" && text[at..fed] == "";
    } else {
      ConsumedIsClean(m, text, secret, first, at, more);
      var cut := Consumed(m, text[at..more]);
      assert cut.0 == [] && first < at ==> |cut.1| >= m.longest - 1;
      ReleasedIsClean(m, text, secret, first, at, more, final, cut.0, cut.1);
    }
  }

  lemma ReleasedIsClean(m: Matcher, text: string, secret: Stretches, first: nat, at: nat, more: nat, final: bool,
                        pieces: seq<Piece>, rest: string)
    requires Sound(m) && Catches(m, text, secret) && m.longest != 0 && first <= at
    requires Cleaned(m, text, secret, first, at, more, pieces, rest)
    requires pieces == [] && first < at ==> |rest| >= m.longest - 1
    ensures var n := Releasable(m, rest, final);
            FedCleaned(m, text, secret, first, at, more, final, pieces + [Clear(rest[..n])], rest[n..])
  {
    var n := Releasable(m, rest, final);
    var end := After(pieces, first, at);
    SpansConcat(pieces, [Clear(rest[..n])], first, at);
    ReleaseAll(rest[..n], end.0, end.1);
    SliceOfSlice(text, end.1, more, n, more - end.1);
    var spans := ClearSpans(pieces, first, at);
    assert forall i :: 0 <= i < |spans| - 1 ==> Clean(secret, spans[i].first, spans[i].end);
    assert Clean(secret, end.0, end.1 + n);
  }

  lemma ReleaseAll(text: string, first: nat, at: nat)
    ensures After([Clear(text)], first, at) == (first, at + |text|)
    ensures ClearSpans([Clear(text)], first, at) == [Span(first, at + |text|)]
  {
    assert [Clear(text)][1..] == [];
  }

  /** No more text is held back than a match can still begin in, and none at the end. */
  lemma BufferStaysShort(m: Matcher, buffer: string, text: string, final: bool)
    requires Sound(m) && (m.longest == 0 ==> buffer == "")
    ensures var rest := Fed(m, buffer, text, final).1;
            if final || m.longest == 0 then rest == "" else |rest| < m.longest
  {
  }

  lemma AllCleanConcat(m: Matcher, text: string, secret: Stretches, a: seq<Piece>, b: seq<Piece>, first: nat, at: nat)
    requires AllClean(secret, ClearSpans(a, first, at))
    requires AllClean(secret, ClearSpans(b, After(a, first, at).0, After(a, first, at).1))
    ensures AllClean(secret, ClearSpans(a + b, first, at))
  {
    SpansConcat(a, b, first, at);
  }

  lemma {:induction false} StreamedIsClean(m: Matcher, text: string, secret: Stretches, first: nat, at: nat,
                                           fed: nat, chunks: seq<string>)
    requires Sound(m) && Catches(m, text, secret) && Waiting(m, text, secret, first, at, fed)
    requires text[fed..] == Concat(chunks)
    ensures AllClean(secret, ClearSpans(Streamed(m, text[at..fed], chunks), first, at))
    decreases |chunks|
  {
    if chunks == [] {
      FedIsClean(m, text, secret, first, at, fed, fed, true);
      assert text[fed..fed] == "";
    } else {
      var more := fed + |chunks[0]|;
      SplitSuffix(text, fed, chunks[0], Concat(chunks[1..]));
      FedIsClean(m, text, secret, first, at, fed, more, false);
      var result := Fed(m, text[at..fed], chunks[0], false);
      var end := After(result.0, first, at);
      StreamedIsClean(m, text, secret, end.0, end.1, more, chunks[1..]);
      AllCleanConcat(m, text, secret, result.0, Streamed(m, result.1, chunks[1..]), first, at);
    }
  }

  lemma {:induction false} StreamedKeepsText(m: Matcher, buffer: string, chunks: seq<string>)
    requires Sound(m) && (m.longest == 0 ==> buffer == "")
    ensures Original(Streamed(m, buffer, chunks)) == buffer + Concat(chunks)
    decreases |chunks|
  {
    if chunks == [] {
      FedKeepsText(m, buffer, "", true);
    } else {
      FedKeepsText(m, buffer, chunks[0], false);
      var result := Fed(m, buffer, chunks[0], false);
      StreamedKeepsText(m, result.1, chunks[1..]);
      OriginalConcat(result.0, Streamed(m, result.1, chunks[1..]));
      Assoc(Original(result.0), result.1, Concat(chunks[1..]));
      Assoc(buffer, chunks[0], Concat(chunks[1..]));
    }
  }

  lemma {:induction false} ConsumedKeepsText(m: Matcher, buffer: string)
    requires Sound(m)
    ensures var (pieces, rest) := Consumed(m, buffer); Original(pieces) + rest == buffer
    decreases |buffer|
  {
    match m.find(buffer)
    case None =>
    case Some(found) =>
      var end := found.index + found.length;
      ConsumedKeepsText(m, buffer[end..]);
      var later := Consumed(m, buffer[end..]);
      var a := [Clear(buffer[..found.index]), Hidden(buffer[found.index..end])];
      assert Consumed(m, buffer) == (a + later.0, later.1);
      OriginalConcat(a, later.0);
      OriginalOfMatch(buffer, found.index, end);
      Assoc(buffer[..end], Original(later.0), later.1);
      TakeDrop(buffer, end);
  }

  lemma FedKeepsText(m: Matcher, buffer: string, text: string, final: bool)
    requires Sound(m) && (m.longest == 0 ==> buffer == "")
    ensures var (pieces, rest) := Fed(m, buffer, text, final); Original(pieces) + rest == buffer + text
  {
    if m.longest == 0 {
      assert [Clear(text)][1..] == [];
    } else {
      ConsumedKeepsText(m, buffer + text);
      var cut := Consumed(m, buffer + text);
      var n := Releasable(m, cut.1, final);
      var released := [Clear(cut.1[..n])];
      OriginalConcat(cut.0, released);
      assert released[1..] == [] && Original(released) == cut.1[..n];
      assert Fed(m, buffer, text, final) == (cut.0 + released, cut.1[n..]);
      Assoc(Original(cut.0), cut.1[..n], cut.1[n..]);
      TakeDrop(cut.1, n);
    }
  }

  lemma {:induction false} RunsAreSpans(pieces: seq<Piece>, text: string, first: nat, at: nat)
    requires first <= at <= |text| && Original(pieces) == text[at..]
    ensures |ClearRuns(pieces, text[first..at])| == |ClearSpans(pieces, first, at)|
    ensures forall i :: 0 <= i < |ClearSpans(pieces, first, at)| ==>
              var span := ClearSpans(pieces, first, at)[i];
              span.first <= span.end <= |text| && ClearRuns(pieces, text[first..at])[i] == text[span.first..span.end]
  {
    if pieces != [] {
      SplitSuffix(text, at, pieces[0].text, Original(pieces[1..]));
      var next := at + |pieces[0].text|;
      if pieces[0].Clear? {
        JoinSlices(text, first, at, next);
        RunsAreSpans(pieces[1..], text, first, next);
      } else {
        assert text[next..next] == "";
        RunsAreSpans(pieces[1..], text, next, next);
      }
    }
  }

  // ----- Only what was found is hidden -----

  /** Every text a marker stands for is a stretch of the set, at its place in the input. */
  ghost predicate HiddenAre(stretch: Stretches, pieces: seq<Piece>, at: nat) {
    pieces != [] ==>
      var next := at + |pieces[0].text|;
      (pieces[0].Hidden? ==> stretch(at, next)) && HiddenAre(stretch, pieces[1..], next)
  }

  /** The matcher reports stretches of the set only. */
  ghost predicate FindsOnly(m: Matcher, text: string, stretch: Stretches) {
    forall lo: nat, hi: nat :: lo <= hi <= |text| ==> ReportsOnly(m.find(text[lo..hi]), lo, stretch)
  }

  ghost predicate ReportsOnly(found: Option<Match>, lo: nat, stretch: Stretches) {
    found.Some? ==> stretch(lo + found.value.index, lo + found.value.index + found.value.length)
  }

  /** The buffer begins where the pieces end. */
  ghost predicate HidesUpTo(stretch: Stretches, text: string, at: nat, more: nat, pieces: seq<Piece>, rest: string) {
    var end := After(pieces, at, at).1;
    HiddenAre(stretch, pieces, at) && end <= more <= |text| && rest == text[end..more]
  }

  lemma {:induction false} HiddenConcat(stretch: Stretches, a: seq<Piece>, b: seq<Piece>, first: nat, at: nat)
    ensures HiddenAre(stretch, a + b, at) <==> HiddenAre(stretch, a, at) && HiddenAre(stretch, b, After(a, first, at).1)
    ensures After(a + b, first, at).1 == After(b, first, After(a, first, at).1).1
  {
    if a == [] {
      assert a + b == b;
    } else {
      assert (a + b)[0] == a[0] && (a + b)[1..] == a[1..] + b;
      var next := at + |a[0].text|;
      HiddenConcat(stretch, a[1..], b, if a[0].Clear? then first else next, next);
      EndIsTheSame(b, if a[0].Clear? then first else next, first, After(a, first, at).1);
    }
  }

  lemma {:induction false} EndIsTheSame(pieces: seq<Piece>, first: nat, other: nat, at: nat)
    ensures After(pieces, first, at).1 == After(pieces, other, at).1
  {
    if pieces != [] {
      var next := at + |pieces[0].text|;
      if pieces[0].Clear? { EndIsTheSame(pieces[1..], first, other, next); }
    }
  }

  ghost predicate CutHides(m: Matcher, text: string, stretch: Stretches, at: nat, more: nat)
    requires Sound(m) && at <= more <= |text|
  {
    var cut := Consumed(m, text[at..more]);
    HidesUpTo(stretch, text, at, more, cut.0, cut.1)
  }

  lemma {:induction false} ConsumedHides(m: Matcher, text: string, stretch: Stretches, at: nat, more: nat)
    requires Sound(m) && FindsOnly(m, text, stretch) && at <= more <= |text|
    ensures CutHides(m, text, stretch, at, more)
    decreases more - at
  {
    var found := m.find(text[at..more]);
    if found.Some? {
      assert |text[at..more]| == more - at && ReportsOnly(m.find(text[at..more]), at, stretch);
      var start := at + found.value.index;
      var end := start + found.value.length;
      ConsumedHides(m, text, stretch, end, more);
      MatchHides(m, text, stretch, at, more, start, end);
    }
  }

  lemma MatchHides(m: Matcher, text: string, stretch: Stretches, at: nat, more: nat, start: nat, end: nat)
    requires Sound(m) && at <= start <= end <= more <= |text|
    requires m.find(text[at..more]) == Some(Match(start - at, end - start))
    requires stretch(start, end) && CutHides(m, text, stretch, end, more)
    ensures CutHides(m, text, stretch, at, more)
  {
    var later := Consumed(m, text[end..more]);
    assert HidesUpTo(stretch, text, end, more, later.0, later.1);
    ConsumedMatch(m, text, at, more, start, end);
    PiecesHide(stretch, text, at, more, start, end, later);
  }

  lemma PiecesHide(stretch: Stretches, text: string, at: nat, more: nat, start: nat, end: nat, later: (seq<Piece>,
                   string))
    requires at <= start <= end <= more <= |text| && stretch(start, end)
    requires HidesUpTo(stretch, text, end, more, later.0, later.1)
    ensures HidesUpTo(stretch, text, at, more, MatchPieces(text, at, start, end) + later.0, later.1)
  {
    var a := MatchPieces(text, at, start, end);
    SpansOfMatch(text, at, at, start, end, later.0);
    assert a[1..] == [a[1]] && a[1..][1..] == [];
    HiddenConcat(stretch, a, later.0, at, at);
  }

  lemma FedHides(m: Matcher, text: string, stretch: Stretches, at: nat, fed: nat, more: nat, final: bool)
    requires Sound(m) && FindsOnly(m, text, stretch) && at <= fed <= more <= |text| && (m.longest == 0 ==> at == fed)
    ensures var result := Fed(m, text[at..fed], text[fed..more], final);
            HidesUpTo(stretch, text, at, more, result.0, result.1)
  {
    JoinSlices(text, at, fed, more);
    if m.longest == 0 {
      ReleaseAll(text[fed..more], at, at);
      assert [Clear(text[fed..more])][1..] == [];
    } else {
      ConsumedHides(m, text, stretch, at, more);
      var cut := Consumed(m, text[at..more]);
      ReleaseHides(stretch, text, at, more, cut.0, cut.1, Releasable(m, cut.1, final));
    }
  }

  lemma ReleaseHides(stretch: Stretches, text: string, at: nat, more: nat, pieces: seq<Piece>, rest: string, n: nat)
    requires HidesUpTo(stretch, text, at, more, pieces, rest) && n <= |rest|
    ensures HidesUpTo(stretch, text, at, more, pieces + [Clear(rest[..n])], rest[n..])
  {
    var end := After(pieces, at, at).1;
    assert [Clear(rest[..n])][1..] == [];
    ReleaseAll(rest[..n], at, end);
    HiddenConcat(stretch, pieces, [Clear(rest[..n])], at, at);
    SliceOfSlice(text, end, more, n, more - end);
  }

  /** For every chunking, a marker stands for a stretch the matcher reports, and for nothing else. */
  lemma {:induction false} StreamedHides(m: Matcher, text: string, stretch: Stretches, at: nat, fed: nat,
                                         chunks: seq<string>)
    requires Sound(m) && FindsOnly(m, text, stretch) && at <= fed <= |text| && (m.longest == 0 ==> at == fed)
    requires text[fed..] == Concat(chunks)
    ensures HiddenAre(stretch, Streamed(m, text[at..fed], chunks), at)
    decreases |chunks|
  {
    if chunks == [] {
      assert text[fed..fed] == "";
      FedHides(m, text, stretch, at, fed, fed, true);
    } else {
      var more := fed + |chunks[0]|;
      SplitSuffix(text, fed, chunks[0], Concat(chunks[1..]));
      FedHides(m, text, stretch, at, fed, more, false);
      var result := Fed(m, text[at..fed], chunks[0], false);
      var end := After(result.0, at, at).1;
      assert m.longest == 0 ==> end == more by {
        if m.longest == 0 { ReleaseAll(text[fed..more], at, at); }
      }
      StreamedHides(m, text, stretch, end, more, chunks[1..]);
      HiddenConcat(stretch, result.0, Streamed(m, result.1, chunks[1..]), at, at);
    }
  }
}
