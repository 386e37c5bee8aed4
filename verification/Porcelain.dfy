/** The records of `git status --porcelain -z` (tools/agent_review_loop.py). */
module Porcelain {
  import opened Options

  const NUL: char := '\0'

  /** str.split on NUL: the texts between the separators, one more than there are separators. */
  function Fields(raw: string): (fields: seq<string>)
    ensures fields != []
  {
    if NUL !in raw then [raw]
    else if raw[0] == NUL then [""] + Fields(raw[1..])
    else
      var rest := Fields(raw[1..]);
      [[raw[0]] + rest[0]] + rest[1..]
  }

  predicate Renames(record: string)
    requires |record| >= 2
  {
    'R' in record[..2] || 'C' in record[..2]
  }

  /** The destinations, and from source to destination what was renamed or copied; of two records for a source the later
      one counts. */
  function Records(fields: seq<string>): (set<string>, map<string, string>)
    decreases |fields|
  {
    if fields == [] then ({}, map[])
    else if |fields[0]| < 4 then Records(fields[1..])
    else
      var destination := fields[0][3..];
      if !Renames(fields[0]) then
        var rest := Records(fields[1..]);
        ({destination} + rest.0, rest.1)
      else if |fields| == 1 then ({destination}, map[])
      else
        var rest := Records(fields[2..]);
        ({destination} + rest.0, map[fields[1] := destination] + rest.1)
  }

  /** What a source went to is among the paths, whatever the output. */
  lemma {:induction false} MovesLandOnPaths(fields: seq<string>, source: string)
    requires source in Records(fields).1
    ensures Records(fields).1[source] in Records(fields).0
    decreases |fields|
  {
    if |fields[0]| < 4 || !Renames(fields[0]) {
      MovesLandOnPaths(fields[1..], source);
    } else if source in Records(fields[2..]).1 {
      MovesLandOnPaths(fields[2..], source);
    }
  }

  method PorcelainZRecords(raw: string) returns (paths: set<string>, moved: map<string, string>)
    ensures paths == Records(Fields(raw)).0 && moved == Records(Fields(raw)).1
  {
    var fields := Fields(raw);
    paths, moved := {}, map[];
    var index := 0;
    assert fields[0..] == fields;
    while index < |fields|
      invariant 0 <= index
      invariant index <= |fields| ==> paths + Records(fields[index..]).0 == Records(fields).0
      invariant index <= |fields| ==> moved + Records(fields[index..]).1 == Records(fields).1
      invariant index > |fields| ==> paths == Records(fields).0 && moved == Records(fields).1
    {
      var record := fields[index];
      ghost var at := index;
      assert fields[at..][1..] == fields[at + 1..];
      index := index + 1;
      if |record| >= 4 {
        var destination := record[3..];
        paths := paths + {destination};
        if Renames(record) {
          if index < |fields| {
            moved := moved[fields[index] := destination];
            assert fields[at..][2..] == fields[at + 2..] && fields[at..][1] == fields[index];
          }
          index := index + 1;
        }
      }
    }
  }

  // ----- What git prints -----

  /** A record as git prints it: a two-letter status, the path, and the source where the status is R or C. */
  datatype Record = Record(status: string, path: string, source: Option<string>)

  predicate Printable(r: Record) {
    && |r.status| == 2 && NUL !in r.status && r.path != "" && NUL !in r.path
    && (r.source.Some? <==> 'R' in r.status || 'C' in r.status)
    && (r.source.Some? ==> NUL !in r.source.value)
  }

  function Print(records: seq<Record>): string {
    if records == [] then ""
    else
      var r := records[0];
      (r.status + " " + r.path) +
          ([NUL] + (if r.source.Some? then r.source.value + ([NUL] + Print(records[1..])) else Print(records[1..])))
  }

  function Destinations(records: seq<Record>): set<string> {
    set r | r in records :: r.path
  }

  /** Where each source went by the last record that names it. */
  function Moves(records: seq<Record>): map<string, string> {
    if records == [] then map[]
    else
      var first := if records[0].source.Some? then map[records[0].source.value := records[0].path] else map[];
      first + Moves(records[1..])
  }

  lemma {:induction false} FirstField(field: string, rest: string)
    requires NUL !in field
    ensures Fields(field + ([NUL] + rest)) == [field] + Fields(rest)
  {
    var raw := field + ([NUL] + rest);
    assert raw[|field|] == NUL;
    if field == "" {
      assert raw[1..] == rest;
    } else {
      assert raw[1..] == field[1..] + ([NUL] + rest);
      FirstField(field[1..], rest);
      assert [raw[0]] + field[1..] == field;
    }
  }

  lemma FieldsOfOne(r: Record, rest: string)
    requires Printable(r)
    ensures var head := r.status + " " + r.path;
            && Fields(head + ([NUL] + (if r.source.Some? then r.source.value + ([NUL] + rest) else rest)))
               == [head] + (if r.source.Some? then [r.source.value] + Fields(rest) else Fields(rest))
            && |head| >= 4 && head[3..] == r.path && (Renames(head) <==> r.source.Some?)
  {
    var head := r.status + " " + r.path;
    assert head[..2] == r.status && head[3..] == r.path;
    if r.source.Some? {
      FirstField(r.source.value, rest);
      FirstField(head, r.source.value + ([NUL] + rest));
    } else {
      FirstField(head, rest);
    }
  }

  /** Parsing what git prints gives back exactly the destinations, and the moves. */
  lemma {:induction false} ParseInvertsPrint(records: seq<Record>)
    requires forall r :: r in records ==> Printable(r)
    ensures Records(Fields(Print(records))) == (Destinations(records), Moves(records))
  {
    if records == [] {
      var fields := Fields(Print(records));
      assert fields == [""] && fields[1..] == [] && Destinations(records) == {};
    } else {
      var r, rest := records[0], Print(records[1..]);
      ParseInvertsPrint(records[1..]);
      FieldsOfOne(r, rest);
      OneRecord(r, Fields(rest));
      assert Destinations(records) == {r.path} + Destinations(records[1..]);
    }
  }

  lemma OneRecord(r: Record, rest: seq<string>)
    requires Printable(r)
    ensures var head := r.status + " " + r.path;
            Records([head] + (if r.source.Some? then [r.source.value] + rest else rest))
            == ({r.path} + Records(rest).0,
                (if r.source.Some? then map[r.source.value := r.path] else map[]) + Records(rest).1)
  {
    var head := r.status + " " + r.path;
    assert head[..2] == r.status && head[3..] == r.path;
    if r.source.Some? {
      var fields := [head] + ([r.source.value] + rest);
      assert fields[2..] == rest && fields[1] == r.source.value;
    } else {
      assert ([head] + rest)[1..] == rest;
      assert map[] + Records(rest).1 == Records(rest).1;
    }
  }

  /** A source's destination is the path of the last record that names it. */
  lemma {:induction false} LastMoveCounts(records: seq<Record>, source: string)
    ensures source in Moves(records) <==> exists r :: r in records && r.source == Some(source)
    ensures source in Moves(records) ==>
      exists i :: 0 <= i < |records| && records[i].source == Some(source) && Moves(records)[source] == records[i].path
                  && forall j :: i < j < |records| ==> records[j].source != Some(source)
  {
    if records != [] {
      LastMoveCounts(records[1..], source);
      if source in Moves(records[1..]) {
        var i :| 0 <= i < |records| - 1 && records[1..][i].source == Some(source)
            && Moves(records[1..])[source] == records[1..][i].path
                 && forall j :: i < j < |records| - 1 ==> records[1..][j].source != Some(source);
        assert records[i + 1].source == Some(source) && Moves(records)[source] == records[i + 1].path;
        assert forall j :: i + 1 < j < |records| ==> records[j] == records[1..][j - 1];
      } else if records[0].source == Some(source) {
        assert Moves(records)[source] == records[0].path;
        assert forall j :: 0 < j < |records| ==> records[j] == records[1..][j - 1] && records[j] in records[1..];
      }
    }
  }
}
