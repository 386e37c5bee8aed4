/** The streaming redactor (evals/install/redaction.py): its tables, its matcher and its buffer. */
module Redaction {
  import opened Options
  import opened Escapes
  import opened RedactionStream
  import opened Strings

  // ----- Tables -----

  /** The forms searched for: as they are, and with the escapes of text and form in canonical case. */
  datatype Tables = Tables(variants: seq<string>, canonicalJson: seq<string>, canonicalUrl: seq<string>)

  function NonEmpty(secrets: seq<string>): (r: seq<string>)
    ensures NoneEmpty(r) && forall s :: s in r <==> s in secrets && s != ""
  {
    if secrets == [] then []
    else (if secrets[0] == "" then [] else [secrets[0]]) + NonEmpty(secrets[1..])
  }

  predicate NoneEmpty(forms: seq<string>) {
    forall i :: 0 <= i < |forms| ==> forms[i] != ""
  }

  function CaseVariants(kind: Kind, forms: seq<string>): (r: seq<string>)
    ensures NoneEmpty(forms) ==> NoneEmpty(r)
    ensures forall f :: f in forms ==> f in r && Canonical(kind, f) in r
  {
    if forms == [] then []
    else
      [forms[0], Sub(kind, Lower, forms[0]), Canonical(kind, forms[0])] + CaseVariants(kind, forms[1..])
  }

  function Canonicals(kind: Kind, forms: seq<string>): (r: seq<string>)
    ensures |r| == |forms| && forall i :: 0 <= i < |forms| ==> r[i] == Canonical(kind, forms[i])
  {
    seq(|forms|, i requires 0 <= i < |forms| => Canonical(kind, forms[i]))
  }

  /** The redactor's tables, from the secrets and the forms a JSON and a URL encoder give them. */
  function MakeTables(secrets: seq<string>, jsonForms: seq<string>, urlForms: seq<string>): (t: Tables)
    requires NoneEmpty(jsonForms) && NoneEmpty(urlForms)
    ensures WellFormed(t)
    ensures forall s :: s in secrets && s != "" ==> s in t.variants
  {
    var variants := NonEmpty(secrets) + CaseVariants(JsonUnicode, jsonForms) + CaseVariants(Percent, urlForms);
    Tables(variants, Canonicals(JsonUnicode, jsonForms), Canonicals(Percent, urlForms))
  }

  ghost predicate WellFormed(t: Tables) {
    && NoneEmpty(t.variants) && NoneEmpty(t.canonicalJson) && NoneEmpty(t.canonicalUrl)
    && (forall v :: v in t.canonicalJson ==> v in t.variants)
    && (forall v :: v in t.canonicalUrl ==> v in t.variants)
  }

  function LongestOf(variants: seq<string>): (n: nat)
    ensures forall v :: v in variants ==> |v| <= n
  {
    if variants == [] then 0
    else
      var rest := LongestOf(variants[1..]);
      if |variants[0]| < rest then rest else |variants[0]|
  }

  // ----- What a match is -----

  predicate OccursIn(text: string, forms: seq<string>, p: nat, m: nat) {
    0 < m && p + m <= |text| && text[p..p + m] in forms
  }

  predicate Hit(t: Tables, buffer: string, p: nat, m: nat) {
    || OccursIn(buffer, t.variants, p, m)
    || OccursIn(Canonical(JsonUnicode, buffer), t.canonicalJson, p, m)
    || OccursIn(Canonical(Percent, buffer), t.canonicalUrl, p, m)
  }

  lemma HitIsBounded(t: Tables, buffer: string, p: nat, m: nat)
    requires WellFormed(t) && Hit(t, buffer, p, m)
    ensures m <= LongestOf(t.variants)
  {
    if OccursIn(buffer, t.variants, p, m) {
      assert buffer[p..p + m] in t.variants;
    } else if OccursIn(Canonical(JsonUnicode, buffer), t.canonicalJson, p, m) {
      assert Canonical(JsonUnicode, buffer)[p..p + m] in t.variants;
    } else {
      assert Canonical(Percent, buffer)[p..p + m] in t.variants;
    }
  }

  /** The longest match at position p among those of length at most m, 0 for none. */
  function LongestAt(t: Tables, buffer: string, p: nat, m: nat): (n: nat)
    ensures n <= m
  {
    if m == 0 then 0 else if Hit(t, buffer, p, m) then m else LongestAt(t, buffer, p, m - 1)
  }

  /** The leftmost match at or after position p, and the longest one there. */
  function LeftmostFrom(t: Tables, buffer: string, p: nat): (found: Option<Match>)
    requires p <= |buffer|
    ensures found.Some? ==> p <= found.value.index && 0 < found.value.length
                            && found.value.index + found.value.length <= |buffer|
    decreases |buffer| - p
  {
    var n := LongestAt(t, buffer, p, |buffer| - p);
    if n > 0 then Some(Match(p, n))
    else if p == |buffer| then None
    else LeftmostFrom(t, buffer, p + 1)
  }

  function Leftmost(t: Tables, buffer: string): Option<Match> {
    LeftmostFrom(t, buffer, 0)
  }

  lemma {:induction false} LongestIsLongest(t: Tables, buffer: string, p: nat, m: nat)
    ensures LongestAt(t, buffer, p, m) > 0 ==> Hit(t, buffer, p, LongestAt(t, buffer, p, m))
    ensures forall k: nat :: LongestAt(t, buffer, p, m) < k <= m ==> !Hit(t, buffer, p, k)
  {
    if m != 0 && !Hit(t, buffer, p, m) { LongestIsLongest(t, buffer, p, m - 1); }
  }

  lemma {:induction false} LeftmostIsFirst(t: Tables, buffer: string, p: nat)
    requires p <= |buffer|
    ensures var found := LeftmostFrom(t, buffer, p);
            && (found.Some? ==> Hit(t, buffer, found.value.index, found.value.length))
            && forall q: nat, n: nat :: p <= q && Hit(t, buffer, q, n) ==> found.Some? && Before(found.value, q, n)
    decreases |buffer| - p
  {
    LongestIsLongest(t, buffer, p, |buffer| - p);
    if LongestAt(t, buffer, p, |buffer| - p) == 0 && p < |buffer| {
      LeftmostIsFirst(t, buffer, p + 1);
    }
  }

  lemma LeftmostIsUnique(t: Tables, buffer: string, found: Option<Match>)
    requires found.Some? ==> Hit(t, buffer, found.value.index, found.value.length)
    requires forall p: nat, m: nat :: Hit(t, buffer, p, m) ==> found.Some? && Before(found.value, p, m)
    ensures found == Leftmost(t, buffer)
  {
    LeftmostIsFirst(t, buffer, 0);
  }

  /** The tables as a matcher of the stream. */
  ghost function MatcherOf(t: Tables): (m: Matcher)
    ensures Sound(m) && m.longest == LongestOf(t.variants)
  {
    Matcher((buffer: string) => Leftmost(t, buffer), LongestOf(t.variants))
  }

  // ----- The redactor -----

  predicate StartsAt(text: string, form: string, p: nat) {
    p + |form| <= |text| && text[p..p + |form|] == form
  }

  /** str.find: the first place the form occurs. */
  function Find(text: string, form: string, p: nat): (index: Option<nat>)
    requires p <= |text|
    ensures index.Some? ==> p <= index.value && StartsAt(text, form, index.value)
    ensures forall q :: p <= q && StartsAt(text, form, q) ==> index.Some? && index.value <= q
    decreases |text| - p
  {
    if StartsAt(text, form, p) then Some(p)
    else if p == |text| then None
    else Find(text, form, p + 1)
  }

  /** No occurrence of a form comes before the selected match. */
  ghost predicate Dominates(selected: Option<Match>, text: string, forms: seq<string>) {
    forall p: nat, m: nat :: OccursIn(text, forms, p, m) ==> selected.Some? && Before(selected.value, p, m)
  }

  lemma DominatesOneMore(before: Option<Match>, after: Option<Match>, text: string, forms: seq<string>, i: nat)
    requires i < |forms| && Dominates(before, text, forms[..i])
    requires before.Some? ==> after.Some? && Before(after.value, before.value.index, before.value.length)
    requires var index := Find(text, forms[i], 0);
             index.Some? ==> after.Some? && Before(after.value, index.value, |forms[i]|)
    ensures Dominates(after, text, forms[..i + 1])
  {
    var more := forms[..i + 1];
    assert more == forms[..i] + [forms[i]];
    forall p: nat, m: nat | OccursIn(text, more, p, m) ensures after.Some? && Before(after.value, p, m) {
      if !OccursIn(text, forms[..i], p, m) {
        assert text[p..p + m] == forms[i] && StartsAt(text, forms[i], p);
      }
    }
  }

  /** What was cut out so far, followed by what is still to be cut out, is everything to be cut out. */
  ghost predicate CutSoFar(m: Matcher, start: string, output: string, buffer: string, marker: string)
    requires Sound(m)
  {
    && Render(Consumed(m, start).0, marker) == output + Render(Consumed(m, buffer).0, marker)
    && Consumed(m, start).1 == Consumed(m, buffer).1
  }

  lemma CutOne(m: Matcher, start: string, output: string, buffer: string, marker: string)
    requires Sound(m) && CutSoFar(m, start, output, buffer, marker) && m.find(buffer).Some?
    ensures var found := m.find(buffer).value;
            CutSoFar(m, start, output + (buffer[..found.index] + marker), buffer[found.index + found.length..], marker)
  {
    var found := m.find(buffer).value;
    var rest := buffer[found.index + found.length..];
    RenderConsumed(m, buffer, marker);
    ConsumedRest(m, buffer);
    CutStep(m, start, output, buffer[..found.index] + marker, buffer, rest, marker);
  }

  lemma ConsumedRest(m: Matcher, buffer: string)
    requires Sound(m) && m.find(buffer).Some?
    ensures Consumed(m, buffer).1 == Consumed(m, buffer[m.find(buffer).value.index + m.find(buffer).value.length..]).1
  {
  }

  lemma CutStep(m: Matcher, start: string, output: string, more: string, buffer: string, rest: string, marker: string)
    requires Sound(m) && CutSoFar(m, start, output, buffer, marker) && Consumed(m, buffer).1 == Consumed(m, rest).1
    requires Render(Consumed(m, buffer).0, marker) == more + Render(Consumed(m, rest).0, marker)
    ensures CutSoFar(m, start, output + more, rest, marker)
  {
    Assoc(output, more, Render(Consumed(m, rest).0, marker));
  }

  class SecretRedactor {
    const tables: Tables
    const marker: string
    const maxVariantLength: nat
    var buffer: string

    ghost const matcher: Matcher

    /** What holds of the tables, whatever is buffered. */
    ghost predicate Ready() {
      && WellFormed(tables) && (tables.variants == [] <==> maxVariantLength == 0)
      && Sound(matcher) && matcher.longest == maxVariantLength
      && (forall b {:trigger Leftmost(tables, b)} :: matcher.find(b) == Leftmost(tables, b))
    }

    ghost predicate Valid()
      reads this
    {
      Ready() && (maxVariantLength == 0 ==> buffer == "")
    }

    constructor (secrets: seq<string>, jsonForms: seq<string>, urlForms: seq<string>, marker: string)
      requires NoneEmpty(jsonForms) && NoneEmpty(urlForms)
      ensures Valid() && buffer == "" && this.marker == marker && tables == MakeTables(secrets, jsonForms, urlForms)
      ensures matcher == MatcherOf(tables)
    {
      matcher := MatcherOf(MakeTables(secrets, jsonForms, urlForms));
      tables := MakeTables(secrets, jsonForms, urlForms);
      this.marker := marker;
      buffer := "";
      maxVariantLength := LongestOf(MakeTables(secrets, jsonForms, urlForms).variants);
      var variants := MakeTables(secrets, jsonForms, urlForms).variants;
      assert variants != [] ==> variants[0] in variants && variants[0] != "";
    }

    /** The better of `selected` and the first place each form occurs. */
    method Select(searchable: string, forms: seq<string>, selected0: Option<Match>) returns (selected: Option<Match>)
      requires NoneEmpty(forms)
      ensures selected0.Some? ==>
                selected.Some? && Before(selected.value, selected0.value.index, selected0.value.length)
      ensures selected.Some? && selected != selected0 ==>
                OccursIn(searchable, forms, selected.value.index, selected.value.length)
      ensures Dominates(selected, searchable, forms)
    {
      selected := selected0;
      for i := 0 to |forms|
        invariant selected0.Some? ==>
                    selected.Some? && Before(selected.value, selected0.value.index, selected0.value.length)
        invariant selected.Some? && selected != selected0 ==>
                    OccursIn(searchable, forms, selected.value.index, selected.value.length)
        invariant Dominates(selected, searchable, forms[..i])
      {
        ghost var before := selected;
        var index := Find(searchable, forms[i], 0);
        if index.Some? {
          var candidate := Match(index.value, |forms[i]|);
          assert OccursIn(searchable, forms, candidate.index, candidate.length);
          if selected.None? || candidate.index < selected.value.index
             || (candidate.index == selected.value.index && candidate.length > selected.value.length) {
            selected := Some(candidate);
          }
        }
        DominatesOneMore(before, selected, searchable, forms, i);
      }
      assert forms[..|forms|] == forms;
    }

    method EarliestMatch() returns (selected: Option<Match>)
      requires Ready()
      ensures selected == matcher.find(buffer)
    {
      selected := Select(buffer, tables.variants, None);
      selected := Select(Canonical(JsonUnicode, buffer), tables.canonicalJson, selected);
      selected := Select(Canonical(Percent, buffer), tables.canonicalUrl, selected);
      LeftmostIsUnique(tables, buffer, selected);
    }

    method Feed(text: string, final: bool) returns (output: string)
      requires Valid()
      modifies `buffer
      ensures Valid()
      ensures var (pieces, rest) := Fed(matcher, old(buffer), text, final);
              output == Render(pieces, marker) && buffer == rest
    {
      if tables.variants == [] {
        return text;
      }
      buffer := buffer + text;
      ghost var (all, rest) := Consumed(matcher, buffer);
      output := CutOutMatches();
      ghost var n := Releasable(matcher, rest, final);
      RenderConcat(all, [Clear(rest[..n])], marker);
      RenderOne(Clear(rest[..n]), marker);
      if final {
        output := output + buffer;
        buffer := "";
      } else {
        var retained := maxVariantLength - 1;
        var safeLength := if |buffer| > retained then |buffer| - retained else 0;
        output := output + buffer[..safeLength];
        buffer := buffer[safeLength..];
      }
    }

    method CutOutMatches() returns (output: string)
      requires Ready()
      modifies `buffer
      ensures output == Render(Consumed(matcher, old(buffer)).0, marker) && buffer == Consumed(matcher, old(buffer)).1
    {
      output := "";
      ghost var start := buffer;
      var found := EarliestMatch();
      while found.Some?
        invariant found == matcher.find(buffer) && CutSoFar(matcher, start, output, buffer, marker)
        decreases |buffer|
      {
        CutOne(matcher, start, output, buffer, marker);
        output := output + (buffer[..found.value.index] + marker);
        buffer := buffer[found.value.index + found.value.length..];
        found := EarliestMatch();
      }
      assert output + "" == output;
    }

    method Finish() returns (output: string)
      requires Valid()
      modifies `buffer
      ensures Valid() && buffer == "" && output == Render(Fed(matcher, old(buffer), "", true).0, marker)
    {
      output := Feed("", true);
    }

    /** One-shot redaction, refused while streamed text is buffered. */
    method Redact(text: string) returns (output: Result<string, string>)
      requires Valid()
      modifies `buffer
      ensures Valid() && buffer == old(buffer)
      ensures output.Ok? <==> old(buffer) == ""
      ensures output.Ok? ==> output.value == Render(Fed(matcher, "", text, true).0, marker)
    {
      if buffer != "" {
        return Err("cannot use one-shot redaction while streaming data is buffered");
      }
      var redacted := Feed(text, true);
      return Ok(redacted);
    }
  }
}
