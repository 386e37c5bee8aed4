/** The bytes a source tree is hashed as: every file's path and content behind their lengths
    (evals/install/source.py). */
module SourceDigest {
  import opened Options
  import opened Strings
  import opened Utf8

  datatype File = File(path: string, content: seq<Byte>)

  const LIMIT := 0x1_0000_0000_0000_0000

  function Power(k: nat): (p: nat)
    ensures p > 0
  {
    if k == 0 then 1 else 256 * Power(k - 1)
  }

  /** int.to_bytes(k, "big"). */
  function BigEndian(n: nat, k: nat): (bytes: seq<Byte>)
    ensures |bytes| == k
  {
    if k == 0 then [] else BigEndian(n / 256, k - 1) + [n % 256]
  }

  function Value(bytes: seq<Byte>): nat {
    if bytes == [] then 0 else 256 * Value(bytes[..|bytes| - 1]) + bytes[|bytes| - 1] as nat
  }

  lemma {:induction false} ValueOfBigEndian(n: nat, k: nat)
    requires n < Power(k)
    ensures Value(BigEndian(n, k)) == n
  {
    if k > 0 {
      ValueOfBigEndian(n / 256, k - 1);
      assert BigEndian(n, k)[..k - 1] == BigEndian(n / 256, k - 1);
    }
  }

  lemma EightBytes()
    ensures Power(8) == LIMIT
  {
    assert Power(4) == 0x1_0000_0000;
    assert Power(5) == 0x100_0000_0000;
    assert Power(6) == 0x1_0000_0000_0000;
    assert Power(7) == 0x100_0000_0000_0000;
  }

  function Prefixed(bytes: seq<Byte>): seq<Byte> {
    BigEndian(|bytes|, 8) + bytes
  }

  function FileBytes(file: File): seq<Byte> {
    Prefixed(Encode(file.path)) + Prefixed(file.content)
  }

  /** What the hash is fed. */
  function Stream(files: seq<File>): seq<Byte> {
    if files == [] then [] else Stream(files[..|files| - 1]) + FileBytes(files[|files| - 1])
  }

  predicate Fits(file: File) {
    |Encode(file.path)| < LIMIT && |file.content| < LIMIT
  }

  /** Feed every file in order; None where a length does not fit eight bytes. */
  method SourceStream(files: seq<File>) returns (fed: Option<seq<Byte>>)
    ensures fed.Some? <==> forall i :: 0 <= i < |files| ==> Fits(files[i])
    ensures fed.Some? ==> fed.value == Stream(files)
  {
    var digest: seq<Byte> := [];
    for i := 0 to |files|
      invariant digest == Stream(files[..i])
      invariant forall j :: 0 <= j < i ==> Fits(files[j])
    {
      var relative, content := Encode(files[i].path), files[i].content;
      if |relative| >= LIMIT || |content| >= LIMIT {
        assert !Fits(files[i]);
        return None;
      }
      digest := digest + (Prefixed(relative) + Prefixed(content));
      assert files[..i + 1][..i] == files[..i];
    }
    assert files[..|files|] == files;
    return Some(digest);
  }

  // ----- Reading it back -----

  /** The field at the head of the bytes, and what follows it. */
  function TakeField(bytes: seq<Byte>): (field: Option<(seq<Byte>, seq<Byte>)>)
    ensures field.Some? ==> |field.value.1| < |bytes|
  {
    if |bytes| < 8 || |bytes| - 8 < Value(bytes[..8]) then None
    else Some((bytes[8..8 + Value(bytes[..8])], bytes[8 + Value(bytes[..8])..]))
  }

  /** The files a stream holds. */
  function Decode(bytes: seq<Byte>): Option<seq<File>>
    decreases |bytes|
  {
    if bytes == [] then Some([])
    else
      var path := TakeField(bytes);
      if path.None? then None
      else
        var content := TakeField(path.value.1);
        if content.None? then None
        else
          var rest := Decode(content.value.1);
          if rest.None? then None else Some([File(DecodeIgnoring(path.value.0), content.value.0)] + rest.value)
  }

  lemma FieldIsTaken(field: seq<Byte>, rest: seq<Byte>)
    requires |field| < LIMIT
    ensures TakeField(Prefixed(field) + rest) == Some((field, rest))
  {
    var bytes := Prefixed(field) + rest;
    EightBytes();
    ValueOfBigEndian(|field|, 8);
    assert bytes[..8] == BigEndian(|field|, 8);
    assert bytes[8..8 + |field|] == field && bytes[8 + |field|..] == rest;
  }

  lemma FileIsTaken(file: File, rest: seq<Byte>)
    requires Fits(file) && Decode(rest).Some?
    ensures Decode(FileBytes(file) + rest) == Some([file] + Decode(rest).value)
  {
    var path := Encode(file.path);
    var bytes := (Prefixed(path) + Prefixed(file.content)) + rest;
    assert bytes == Prefixed(path) + (Prefixed(file.content) + rest);
    FieldIsTaken(path, Prefixed(file.content) + rest);
    FieldIsTaken(file.content, rest);
    RoundTrip(file.path);
    assert |bytes| > 0;
  }

  lemma {:induction false} StreamFrom(files: seq<File>, rest: seq<Byte>)
    requires (forall i :: 0 <= i < |files| ==> Fits(files[i])) && Decode(rest).Some?
    ensures Decode(Stream(files) + rest) == Some(files + Decode(rest).value)
  {
    if files == [] {
      assert Stream(files) + rest == rest && files + Decode(rest).value == Decode(rest).value;
    } else {
      var before, last := files[..|files| - 1], files[|files| - 1];
      FileIsTaken(last, rest);
      StreamFrom(before, FileBytes(last) + rest);
      Assoc(Stream(before), FileBytes(last), rest);
      WithLast(files, Decode(rest).value);
    }
  }

  lemma WithLast(files: seq<File>, rest: seq<File>)
    requires files != []
    ensures files[..|files| - 1] + ([files[|files| - 1]] + rest) == files + rest
  {
  }

  /** Decoding gives back the files. */
  lemma DecodesStream(files: seq<File>)
    requires forall i :: 0 <= i < |files| ==> Fits(files[i])
    ensures Decode(Stream(files)) == Some(files)
  {
    StreamFrom(files, []);
    assert Stream(files) + [] == Stream(files) && files + [] == files;
  }

  // ----- Trees -----

  /** The order the files are fed in: by path, and no path twice. */
  predicate Ordered(files: seq<File>) {
    forall i, j :: 0 <= i < j < |files| ==> Less(files[i].path, files[j].path)
  }

  lemma FirstIsIn(files: seq<File>)
    requires files != []
    ensures exists f :: f in files
  {
    assert files[0] in files;
  }

  lemma {:induction false} OneOrder(a: seq<File>, b: seq<File>)
    requires Ordered(a) && Ordered(b) && forall f :: f in a <==> f in b
    ensures a == b
  {
    if a == [] {
      if b != [] { FirstIsIn(b); }
    } else {
      assert a[0] in b;
      SameFirst(a, b);
      OneOrder(a[1..], b[1..]);
    }
  }

  lemma SameFirst(a: seq<File>, b: seq<File>)
    requires Ordered(a) && Ordered(b) && a != [] && b != [] && forall f :: f in a <==> f in b
    ensures a[0] == b[0] && forall f :: f in a[1..] <==> f in b[1..]
  {
    assert a[0] in b && b[0] in a;
    LessIsTotal(a[0].path, b[0].path);
    LessIsTotal(b[0].path, a[0].path);
    assert a[0] == b[0];
    RestWithoutFirst(a);
    RestWithoutFirst(b);
  }

  lemma RestWithoutFirst(files: seq<File>)
    requires Ordered(files) && files != []
    ensures forall f :: f in files[1..] <==> f in files && f != files[0]
  {
    LessIsTotal(files[0].path, files[0].path);
    forall f | f in files[1..] ensures f in files && f != files[0] {
      var i :| 0 <= i < |files| - 1 && files[1..][i] == f;
      assert files[i + 1] == f && Less(files[0].path, f.path);
    }
  }

  /** Two trees are fed as the same bytes exactly when they hold the same files. */
  lemma StreamIdentifiesTree(a: seq<File>, b: seq<File>)
    requires Ordered(a) && Ordered(b)
    requires (forall i :: 0 <= i < |a| ==> Fits(a[i])) && (forall i :: 0 <= i < |b| ==> Fits(b[i]))
    ensures Stream(a) == Stream(b) <==> forall f :: f in a <==> f in b
  {
    DecodesStream(a);
    DecodesStream(b);
    if forall f :: f in a <==> f in b { OneOrder(a, b); }
  }
}
