/** The byte-limited log a redacted stream is written to (evals/install/redaction.py, evals/install/runner.py). */
module BoundedLog {
  import opened Options
  import opened Redaction
  import opened RedactionStream
  import opened Strings
  import opened Utf8

  const TRUNCATION_MARKER: string := "\n[OUTPUT TRUNCATED: log content limit reached]\n"

  /** What a log of the stream holds: the whole stream when it fits, else the characters that fit and the marker. */
  function Bounded(stream: string, limit: nat): string {
    var k := Fitting(stream, limit);
    stream[..k] + if k == |stream| then "" else TRUNCATION_MARKER
  }

  /** The log's content is the longest prefix whose encoding fits, and the marker follows exactly when something was
      cut. */
  lemma BoundedIsLongest(stream: string, limit: nat) returns (kept: nat)
    ensures kept <= |stream|
              && Bounded(stream, limit) == stream[..kept] + (if kept == |stream| then "" else TRUNCATION_MARKER)
    ensures forall k: nat :: k <= |stream| ==> (|Encode(stream[..k])| <= limit <==> k <= kept)
  {
    kept := Fitting(stream, limit);
    forall k: nat | k <= |stream| ensures |Encode(stream[..k])| <= limit <==> k <= kept {
      FittingIsLongest(stream, limit, k);
    }
  }

  lemma WholeFits(text: string, limit: nat)
    ensures Fitting(text, limit) == |text| <==> |Encode(text)| <= limit
  {
    FittingIsLongest(text, limit, |text|);
    assert text[..|text|] == text;
  }

  method Utf8Prefix(text: string, byteLimit: int) returns (prefix: string, count: nat)
    ensures prefix == text[..Fitting(text, byteLimit)] && count == |Encode(prefix)|
  {
    if byteLimit <= 0 {
      return "", 0;
    }
    WholeFits(text, byteLimit);
    var encoded := Encode(text);
    if |encoded| <= byteLimit {
      assert text[..|text|] == text;
      return text, |encoded|;
    }
    CutDecodesToFitting(text, byteLimit);
    prefix := DecodeIgnoring(encoded[..byteLimit]);
    count := |Encode(prefix)|;
  }

  /** Once the stream does not fit, nothing that follows changes the log. */
  lemma CutStaysCut(stream: string, text: string, limit: nat)
    requires |Encode(stream)| > limit
    ensures Bounded(stream + text, limit) == Bounded(stream, limit) && |Encode(stream + text)| > limit
  {
    FittingConcat(stream, text, limit);
    EncodeConcat(stream, text);
    WholeFits(stream, limit);
    var k := Fitting(stream, limit);
    assert (stream + text)[..k] == stream[..k];
  }

  /** While the stream fits, the log grows by what of the new text fits the rest. */
  lemma LogGrows(stream: string, text: string, limit: nat)
    requires |Encode(stream)| <= limit
    ensures var k := Fitting(text, limit - |Encode(stream)|);
            && Bounded(stream + text, limit) == (stream + text[..k]) + (if k == |text| then "" else TRUNCATION_MARKER)
            && (k == |text| <==> |Encode(stream + text)| <= limit)
            && (k == |text| ==> |Encode(stream + text)| == |Encode(stream)| + |Encode(text)|)
  {
    var k := Fitting(text, limit - |Encode(stream)|);
    FittingConcat(stream, text, limit);
    EncodeConcat(stream, text);
    WholeFits(text, limit - |Encode(stream)|);
    assert (stream + text)[..|stream| + k] == stream + text[..k];
  }

  class RedactingLogWriter {
    const redactor: SecretRedactor
    const limit: nat
    var handle: string
    var contentBytesWritten: nat
    var truncated: bool

    /** The redacted text so far, cut or not. */
    ghost var stream: string

    ghost predicate Valid()
      reads this, redactor
    {
      redactor.Valid() && Logged()
    }

    ghost predicate Logged()
      reads this
    {
      && handle == Bounded(stream, limit)
      && (truncated <==> |Encode(stream)| > limit)
      && (!truncated ==> handle == stream && contentBytesWritten == |Encode(stream)|)
    }

    constructor (redactor: SecretRedactor, limit: nat)
      requires redactor.Valid()
      ensures Valid() && stream == "" && this.redactor == redactor && this.limit == limit
    {
      this.redactor := redactor;
      this.limit := limit;
      handle, contentBytesWritten, truncated, stream := "", 0, false, "";
    }

    method Write(text: string)
      requires Logged()
      modifies this
      ensures Logged() && stream == old(stream) + text
    {
      stream := stream + text;
      if text == "" {
        assert stream == old(stream);
        return;
      }
      if truncated {
        CutStaysCut(old(stream), text, limit);
        return;
      }
      LogGrows(old(stream), text, limit);
      var remaining := limit - contentBytesWritten;
      var prefix, byteCount := Utf8Prefix(text, remaining);
      if prefix != "" {
        handle := handle + prefix;
        contentBytesWritten := contentBytesWritten + byteCount;
      }
      assert handle == old(stream) + prefix;
      if prefix != text {
        truncated := true;
        handle := handle + TRUNCATION_MARKER;
      } else {
        assert handle + "" == handle;
      }
    }

    method Feed(text: string)
      requires Valid()
      modifies this, redactor
      ensures Valid()
      ensures var (pieces, rest) := Fed(redactor.matcher, old(redactor.buffer), text, false);
              stream == old(stream) + Render(pieces, redactor.marker) && redactor.buffer == rest
    {
      var redacted := redactor.Feed(text, false);
      Write(redacted);
    }

    method Finish()
      requires Valid()
      modifies this, redactor
      ensures Valid() && redactor.buffer == ""
      ensures stream == old(stream) + Render(Fed(redactor.matcher, old(redactor.buffer), "", true).0, redactor.marker)
    {
      var redacted := redactor.Finish();
      Write(redacted);
    }
  }

  /** What the log still has to hold: the redacted stream of the items not fed yet. */
  ghost function Remaining(writer: RedactingLogWriter, items: seq<string>): string
    requires writer.Valid()
    reads writer, writer.redactor
  {
    Render(Streamed(writer.redactor.matcher, writer.redactor.buffer, items), writer.redactor.marker)
  }

  method FeedOne(writer: RedactingLogWriter, items: seq<string>)
    requires writer.Valid() && items != []
    modifies writer, writer.redactor
    ensures writer.Valid()
    ensures writer.stream + Remaining(writer, items[1..]) == old(writer.stream + Remaining(writer, items))
  {
    ghost var (m, marker, before, buffer) := (writer.redactor.matcher, writer.redactor.marker, writer.stream,
        writer.redactor.buffer);
    RenderStreamed(m, buffer, items, marker);
    writer.Feed(items[0]);
    Assoc(before, Render(Fed(m, buffer, items[0], false).0, marker), Remaining(writer, items[1..]));
  }

  /** Every item a process wrote is fed, and the rest is flushed when it ends. */
  method Drain(writer: RedactingLogWriter, items: seq<string>)
    requires writer.Valid()
    modifies writer, writer.redactor
    ensures writer.Valid() && writer.stream == old(writer.stream + Remaining(writer, items))
  {
    assert items[0..] == items;
    for i := 0 to |items|
      invariant writer.Valid()
                  && writer.stream + Remaining(writer, items[i..]) == old(writer.stream + Remaining(writer, items))
    {
      assert items[i..][0] == items[i] && items[i..][1..] == items[i + 1..];
      FeedOne(writer, items[i..]);
    }
    writer.Finish();
  }

  /** The log of a process, whatever the pieces its output arrives in. */
  method RunLogged(redactor: SecretRedactor, items: seq<string>, limit: int) returns (log: Result<string, string>)
    requires redactor.Valid() && redactor.buffer == ""
    modifies redactor
    ensures log.Err? <==> limit < 0
    ensures log.Ok? ==> log.value == Bounded(Render(Streamed(redactor.matcher, "", items), redactor.marker), limit)
  {
    if limit < 0 {
      return Err("content_byte_limit must not be negative");
    }
    var writer := new RedactingLogWriter(redactor, limit);
    ghost var all := Remaining(writer, items);
    assert "" + all == all;
    Drain(writer, items);
    return Ok(writer.handle);
  }

  lemma RenderStreamed(m: Matcher, buffer: string, chunks: seq<string>, marker: string)
    requires Sound(m) && chunks != []
    ensures var fed := Fed(m, buffer, chunks[0], false);
            Render(Streamed(m, buffer, chunks), marker) ==
                Render(fed.0, marker) + Render(Streamed(m, fed.1, chunks[1..]), marker)
  {
    var fed := Fed(m, buffer, chunks[0], false);
    RenderConcat(fed.0, Streamed(m, fed.1, chunks[1..]), marker);
  }
}
