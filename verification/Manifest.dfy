/** The two manifests of an exact-file operation: what the operator's package builder writes and what the
    quarantine helper parses. */
module Manifest {
  import opened Text
  import opened Records

  const TARGET_CAP: nat := 64
  const MANIFEST_CAP: nat := 65536
  const PATH_CAP: nat := 4096
  const MAX_U32: nat := 0xffff_ffff

  // ----- The helper's grammar -----

  predicate Space(c: char) { c == ' ' || '\t' <= c <= '\r' }

  function SkipSpaces(s: string): string { if |s| > 0 && Space(s[0]) then SkipSpaces(s[1..]) else s }

  /** number: strtoull in base ten, taken over the whole field. A minus sign wraps around. */
  function Number(s: string): Option<nat> {
    var t := SkipSpaces(s);
    var negative := |t| > 0 && t[0] == '-';
    var u := if |t| > 0 && (t[0] == '-' || t[0] == '+') then t[1..] else t;
    if |u| == 0 || !AllDigits(u) || ParseDecimal(u) > MAX_U64 then None
    else if negative then Some((MAX_U64 + 1 - ParseDecimal(u)) % (MAX_U64 + 1))
    else Some(ParseDecimal(u))
  }

  /** strstr. */
  predicate Contains(s: string, part: string) { exists i | 0 <= i <= |s| :: PartAt(s, part, i) }

  predicate PartAt(s: string, part: string, i: nat) { i + |part| <= |s| && s[i..i + |part|] == part }

  /** What the helper takes for a path below the root. */
  predicate PathAccepted(p: string) {
    && 0 < |p| <= PATH_CAP && (forall i | 0 <= i < |p| :: p[i] >= ' ')
    && p[0] != '/' && !Contains(p, "//") && p != "." && !Contains(p, "../") && !Contains(p, "/../")
    && !(|p| >= 3 && p[|p| - 3..] == "/..")
  }

  datatype Row = Row(path: string, sha: string, size: nat, mode: nat, uid: nat, gid: nat, dev: nat, ino: nat)

  /** The fields of one line, as far as the checks on that line go. */
  function RowOf(f: seq<string>): Option<Row> {
    if |f| != 8 || |f[0]| > 2 * PATH_CAP || !HexText(f[0]) || !HexDigest(f[1]) || !PathAccepted(Unhex(f[0])) then None
    else
      var size, mode, uid, gid, dev, ino := Number(f[2]), Number(f[3]), Number(f[4]), Number(f[5]), Number(f[6]),
        Number(f[7]);
      if size.None? || mode.None? || uid.None? || gid.None? || dev.None? || ino.None? then None
      else if mode.value > 4095 || uid.value > MAX_U32 || gid.value > MAX_U32 || ino.value == 0 then None
      else Some(Row(Unhex(f[0]), f[1], size.value, mode.value, uid.value, gid.value, dev.value, ino.value))
  }

  /** The line loop. */
  function RowsOf(lines: seq<string>, known: seq<Row>): Option<seq<Row>>
    decreases |lines|
  {
    if |lines| == 0 then Some(known)
    else
      var row := RowOf(Pieces(lines[0], TAB));
      if |known| >= TARGET_CAP || row.None? || (|known| > 0 && !Less(known[|known| - 1].path, row.value.path)) then None
      else RowsOf(lines[1..], known + [row.value])
  }

  /** The outer framing both manifests share: bounded hexadecimal of a text without NUL, with the given digest. */
  predicate Bound(hex: string, digest: string, sha: string -> string) {
    && 0 < |hex| <= 2 * MANIFEST_CAP && HexText(hex) && (0 as char) !in Unhex(hex) && sha(Unhex(hex)) == digest
  }

  function ParseTargets(hex: string, digest: string, sha: string -> string): Option<seq<Row>> {
    if !Bound(hex, digest, sha) then None
    else
      var rows := RowsOf(Pieces(Unhex(hex), '\n'), []);
      if rows == Some([]) then None else rows
  }

  datatype Parent = Parent(dev: nat, ino: nat)

  function ParentOf(line: string): Option<Parent> {
    var f := Split(line, TAB);
    if |f| != 2 then None
    else
      var dev, ino := Number(f[0]), Number(f[1]);
      if dev.None? || ino.None? || dev.value == 0 || ino.value == 0 then None else Some(Parent(dev.value, ino.value))
  }

  function ParentsOf(lines: seq<string>, known: seq<Parent>, count: nat): Option<seq<Parent>>
    decreases |lines|
  {
    if |lines| == 0 then (if |known| == count then Some(known) else None)
    else if |known| >= count || ParentOf(lines[0]).None? then None
    else ParentsOf(lines[1..], known + [ParentOf(lines[0]).value], count)
  }

  function ParseParents(hex: string, digest: string, sha: string -> string, count: nat): Option<seq<Parent>> {
    if !Bound(hex, digest, sha) then None else ParentsOf(Pieces(Unhex(hex), '\n'), [], count)
  }

  // ----- The parsers -----

  /** The field loop of one line: at most eight pieces, and nothing after them. */
  method FieldsOf(line: string) returns (fields: seq<string>, whole: bool)
    ensures whole <==> |Pieces(line, TAB)| == 8
    ensures whole ==> fields == Pieces(line, TAB)
  {
    hide Pieces;
    fields := [];
    var field, position := NextPiece(line, TAB, 0);
    assert line[0..] == line;
    assert Pieces(line, TAB) == fields + (if field.Some? then [field.value] else []) + Pieces(line[position..], TAB);
    while field.Some? && |fields| < 8
      invariant position <= |line| && |fields| <= 8
      invariant Pieces(line, TAB) == fields + (if field.Some? then [field.value] else [])
        + Pieces(line[position..], TAB)
      invariant field.None? ==> Pieces(line[position..], TAB) == []
      decreases 8 - |fields|
    {
      ghost var before := Pieces(line[position..], TAB);
      fields := fields + [field.value];
      field, position := NextPiece(line, TAB, position);
      assert before == (if field.Some? then [field.value] else []) + Pieces(line[position..], TAB);
    }
    whole := |fields| == 8 && field.None?;
  }

  /** parse_manifest: none stands for die. */
  method ParseManifest(hex: string, digest: string, sha: string -> string) returns (targets: Option<seq<Row>>)
    ensures targets == ParseTargets(hex, digest, sha)
  {
    hide Pieces, RowOf, Less, Bound, Unhex;
    if !Bound(hex, digest, sha) { return None; }
    BoundHex(hex, digest, sha);
    var raw := Unhex(hex);
    var rows: seq<Row> := [];
    var line, position := NextPiece(raw, '\n', 0);
    assert raw[0..] == raw;
    assert [] + Pieces(raw[position..], '\n') == Pieces(raw[position..], '\n');
    while line.Some?
      invariant position <= |raw|
      invariant RowsOf(Pieces(raw, '\n'),
        []) == RowsOf((if line.Some? then [line.value] else []) + Pieces(raw[position..], '\n'), rows)
      invariant line.None? ==> Pieces(raw[position..], '\n') == []
      decreases |raw| - position, if line.Some? then 1 else 0
    {
      ghost var rest := Pieces(raw[position..], '\n');
      assert ([line.value] + rest)[1..] == rest;
      if |rows| >= TARGET_CAP { return None; }
      var fields, whole := FieldsOf(line.value);
      WrongFields(Pieces(line.value, TAB));
      if !whole { return None; }
      var row := RowOf(fields);
      if row.None? || (|rows| > 0 && !Less(rows[|rows| - 1].path, row.value.path)) { return None; }
      rows := rows + [row.value];
      line, position := NextPiece(raw, '\n', position);
      assert rest == (if line.Some? then [line.value] else []) + Pieces(raw[position..], '\n');
    }
    targets := if |rows| == 0 then None else Some(rows);
  }

  lemma BoundHex(hex: string, digest: string, sha: string -> string)
    requires Bound(hex, digest, sha)
    ensures HexText(hex)
  {
  }

  lemma WrongFields(f: seq<string>)
    ensures |f| != 8 ==> RowOf(f).None?
  {
  }

  lemma ParentsStep(line: string, rest: seq<string>, found: seq<Parent>, count: nat)
    ensures ParentsOf([line] + rest, found, count) ==
      if |found| >= count || ParentOf(line).None? then None else ParentsOf(rest, found + [ParentOf(line).value], count)
  {
    hide ParentOf;
    assert ([line] + rest)[1..] == rest;
  }

  /** parse_parent_manifest. */
  method ParseParentManifest(hex: string, digest: string, sha: string -> string, count: nat)
    returns (parents: Option<seq<Parent>>)
    ensures parents == ParseParents(hex, digest, sha, count)
  {
    hide Pieces, ParentOf, Bound, Unhex;
    if !Bound(hex, digest, sha) { return None; }
    BoundHex(hex, digest, sha);
    var raw := Unhex(hex);
    var found: seq<Parent> := [];
    var line, position := NextPiece(raw, '\n', 0);
    assert raw[0..] == raw;
    assert [] + Pieces(raw[position..], '\n') == Pieces(raw[position..], '\n');
    while line.Some?
      invariant position <= |raw| && |found| <= count
      invariant ParentsOf(Pieces(raw, '\n'), [], count)
        == ParentsOf((if line.Some? then [line.value] else []) + Pieces(raw[position..], '\n'), found, count)
      invariant line.None? ==> Pieces(raw[position..], '\n') == []
      decreases |raw| - position, if line.Some? then 1 else 0
    {
      ghost var rest := Pieces(raw[position..], '\n');
      ParentsStep(line.value, rest, found, count);
      if |found| >= count { return None; }
      var parent := ParentOf(line.value);
      if parent.None? { return None; }
      found := found + [parent.value];
      line, position := NextPiece(raw, '\n', position);
      assert rest == (if line.Some? then [line.value] else []) + Pieces(raw[position..], '\n');
    }
    parents := if |found| == count then Some(found) else None;
  }
}
