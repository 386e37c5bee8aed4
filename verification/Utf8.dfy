/** UTF-8 (RFC 3629, section 3) as str.encode and bytes.decode(errors="ignore") use it. */
module Utf8 {
  import opened Options

  type Byte = b: int | 0 <= b < 256

  function Width(c: char): (n: nat)
    ensures 1 <= n <= 4
  {
    var p := c as int;
    if p < 0x80 then 1 else if p < 0x800 then 2 else if p < 0x10000 then 3 else 4
  }

  function EncodeChar(c: char): (bytes: seq<Byte>)
    ensures |bytes| == Width(c)
  {
    var p := c as int;
    if p < 0x80 then [p]
    else if p < 0x800 then [0xC0 + p / 64, 0x80 + p % 64]
    else if p < 0x10000 then [0xE0 + p / 4096, 0x80 + p / 64 % 64, 0x80 + p % 64]
    else [0xF0 + p / 262144, 0x80 + p / 4096 % 64, 0x80 + p / 64 % 64, 0x80 + p % 64]
  }

  function Encode(text: string): seq<Byte> {
    if text == "" then [] else EncodeChar(text[0]) + Encode(text[1..])
  }

  /** What a lead or continuation byte carries above its marker bits. */
  function Payload(b: Byte, marker: int): int {
    b as int - marker
  }

  predicate IsContinuation(b: Byte) {
    0x80 <= b < 0xC0
  }

  /** The character at the head of the bytes, and how many bytes it takes; None when there is no whole one. */
  function Head(bytes: seq<Byte>): (head: Option<(char, nat)>)
    ensures head.Some? ==> 1 <= head.value.1 <= |bytes|
  {
    if bytes == [] then None
    else if bytes[0] < 0x80 then Some((bytes[0] as char, 1))
    else if 0xC0 <= bytes[0] < 0xE0 && |bytes| >= 2 && IsContinuation(bytes[1]) then
      var p := Payload(bytes[0], 0xC0) * 64 + Payload(bytes[1], 0x80);
      if p < 0x80 then None else Some((p as char, 2))
    else if 0xE0 <= bytes[0] < 0xF0 && |bytes| >= 3 && IsContinuation(bytes[1]) && IsContinuation(bytes[2]) then
      var p := Payload(bytes[0], 0xE0) * 4096 + Payload(bytes[1], 0x80) * 64 + Payload(bytes[2], 0x80);
      if p < 0x800 || 0xD800 <= p < 0xE000 then None else Some((p as char, 3))
    else if 0xF0 <= bytes[0] < 0xF8 && |bytes| >= 4
            && IsContinuation(bytes[1]) && IsContinuation(bytes[2]) && IsContinuation(bytes[3]) then
      var p := Payload(bytes[0], 0xF0) * 262144 + Payload(bytes[1], 0x80) * 4096 + Payload(bytes[2], 0x80) * 64 +
          Payload(bytes[3], 0x80);
      if p < 0x10000 || 0x110000 <= p then None else Some((p as char, 4))
    else None
  }

  /** Decoding that skips every byte that starts no whole character. */
  function DecodeIgnoring(bytes: seq<Byte>): string
    decreases |bytes|
  {
    if bytes == [] then ""
    else match Head(bytes)
      case Some((c, n)) => [c] + DecodeIgnoring(bytes[n..])
      case None => DecodeIgnoring(bytes[1..])
  }

  lemma Sixbits(p: nat)
    ensures p == p / 64 * 64 + p % 64 && p / 64 == p / 4096 * 64 + p / 64 % 64
    ensures p / 4096 == p / 262144 * 64 + p / 4096 % 64
  {
    assert p / 64 / 64 == p / 4096;
    assert p / 4096 / 64 == p / 262144;
  }

  lemma HeadOfEncoded(c: char, rest: seq<Byte>)
    ensures Head(EncodeChar(c) + rest) == Some((c, Width(c)))
  {
    var p, bytes := c as int, EncodeChar(c) + rest;
    Sixbits(p);
    assert forall i :: 0 <= i < Width(c) ==> bytes[i] == EncodeChar(c)[i];
    if Width(c) == 2 {
      assert Payload(bytes[0], 0xC0) * 64 + Payload(bytes[1], 0x80) == p;
    } else if Width(c) == 3 {
      assert Payload(bytes[0], 0xE0) * 4096 + Payload(bytes[1], 0x80) * 64 + Payload(bytes[2], 0x80) == p;
    } else if Width(c) == 4 {
      assert Payload(bytes[0], 0xF0) * 262144 + Payload(bytes[1], 0x80) * 4096 + Payload(bytes[2], 0x80) * 64
             + Payload(bytes[3], 0x80) == p;
    }
  }

  lemma DecodesHead(c: char, rest: seq<Byte>)
    ensures DecodeIgnoring(EncodeChar(c) + rest) == [c] + DecodeIgnoring(rest)
  {
    HeadOfEncoded(c, rest);
    assert (EncodeChar(c) + rest)[Width(c)..] == rest;
  }

  /** A character that lost its last bytes decodes to nothing. */
  lemma {:induction false} DecodesCutChar(bytes: seq<Byte>, c: char)
    requires |bytes| < Width(c)
    requires bytes == EncodeChar(c)[..|bytes|] || forall i :: 0 <= i < |bytes| ==> IsContinuation(bytes[i])
    ensures DecodeIgnoring(bytes) == ""
    decreases |bytes|
  {
    if bytes != [] {
      assert Head(bytes) == None;
      DecodesCutChar(bytes[1..], c);
    }
  }

  lemma {:induction false} RoundTrip(text: string)
    ensures DecodeIgnoring(Encode(text)) == text
  {
    if text != "" {
      DecodesHead(text[0], Encode(text[1..]));
      RoundTrip(text[1..]);
    }
  }

  /** How many leading characters of the text fit the limit when encoded. */
  function Fitting(text: string, limit: int): (k: nat)
    ensures k <= |text|
  {
    if text == "" || Width(text[0]) > limit then 0 else 1 + Fitting(text[1..], limit - Width(text[0]))
  }

  /** The fitting prefix is the longest one. */
  lemma {:induction false} FittingIsLongest(text: string, limit: nat, k: nat)
    requires k <= |text|
    ensures |Encode(text[..k])| <= limit <==> k <= Fitting(text, limit)
  {
    if text == "" || k == 0 {
      assert text[..k] == "";
    } else {
      assert text[..k][1..] == text[1..][..k - 1];
      if Width(text[0]) <= limit {
        FittingIsLongest(text[1..], limit - Width(text[0]), k - 1);
      }
    }
  }

  /** Cutting the encoding at the limit and dropping the broken character leaves exactly the fitting prefix. */
  lemma {:induction false} CutDecodesToFitting(text: string, limit: nat)
    requires limit <= |Encode(text)|
    ensures DecodeIgnoring(Encode(text)[..limit]) == text[..Fitting(text, limit)]
  {
    if text != "" {
      var head, rest := EncodeChar(text[0]), Encode(text[1..]);
      if Width(text[0]) > limit {
        assert Encode(text)[..limit] == head[..limit];
        DecodesCutChar(head[..limit], text[0]);
      } else {
        assert Encode(text)[..limit] == head + rest[..limit - |head|];
        DecodesHead(text[0], rest[..limit - |head|]);
        CutDecodesToFitting(text[1..], limit - |head|);
      }
    }
  }

  lemma {:induction false} EncodeConcat(a: string, b: string)
    ensures Encode(a + b) == Encode(a) + Encode(b)
  {
    if a == "" {
      assert a + b == b;
    } else {
      assert (a + b)[1..] == a[1..] + b;
      EncodeConcat(a[1..], b);
    }
  }

  lemma {:induction false} FittingConcat(a: string, b: string, limit: nat)
    ensures Fitting(a + b, limit) ==
              if |Encode(a)| <= limit then |a| + Fitting(b, limit - |Encode(a)|) else Fitting(a, limit)
  {
    if a == "" {
      assert a + b == b;
    } else {
      assert (a + b)[1..] == a[1..] + b;
      if Width(a[0]) <= limit {
        FittingConcat(a[1..], b, limit - Width(a[0]));
      }
    }
  }
}
