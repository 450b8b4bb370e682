/** provenance: the evidence records a surface relies on, and the commitment that ties them to one inventory. */
module Evidence {
  import opened Text
  import opened Records
  import opened Sorting
  import opened Inventory
  import opened Volatile

  // ----- Rules and provenance -----

  datatype Ruleset = Ruleset(malicious: map<string, string>, uploadsRule: string, configNames: set<string>, suffixes: set<string>,
                             runtimeRoots: seq<string>, dropins: set<string>)

  datatype Record = Record(path: string, sha: string, disposition: string, source: string, identity: string)

  const DISPOSITIONS: set<(string, string)> := {
    ("OFFICIAL_UPSTREAM_EXACT", "WORDPRESS_ORG_CHECKSUMS_V1"),
    ("OFFICIAL_UPSTREAM_EXACT", "WORDPRESS_ORG_RELEASE_ARCHIVE_V1"),
    ("OFFICIAL_UPSTREAM_EXACT", "SIGNED_VENDOR_RELEASE_MANIFEST_V1"),
    ("RELEASED_RUNTIME_VERIFIED", "BOUNDED_VOLATILE_RUNTIME_DISPOSITION_V1")}

  type SourceCheck = Record -> bool

  /** The checks of provenance on one record; the test of its source artifact is the parameter. */
  predicate RecordOk(r: Record, source: SourceCheck) {
    RelativeOk(r.path) && source(r) && HexDigest(r.sha) && (r.disposition, r.source) in DISPOSITIONS
  }

  function RecordPath(): Record -> string { (r: Record) => r.path }

  type RecordIndex = map<string, Record>

  const MAX_OBJECTS: nat := 200000

  function IndexRecords(records: seq<Record>): RecordIndex {
    if |records| == 0 then map[]
      else IndexRecords(records[..|records| - 1])[records[|records| - 1].path := records[|records| - 1]]
  }

  lemma {:induction false} IndexHolds(records: seq<Record>, p: string)
    ensures p in IndexRecords(records) <==> exists i :: 0 <= i < |records| && records[i].path == p
    ensures p in IndexRecords(records) ==> IndexRecords(records)[p] in records && IndexRecords(records)[p].path == p
  {
    if |records| > 0 { IndexHolds(records[..|records| - 1], p); }
  }

  lemma {:induction false} DistinctOrdered(records: seq<Record>)
    requires DistinctKeys(records, RecordPath())
    ensures records == Sort(records, RecordPath()) <==> Ascending(records, RecordPath())
  {
    SortAscends(records, RecordPath());
    if Ascending(records, RecordPath()) { SortOfAscending(records, RecordPath()); }
  }

  /** The record checks of provenance: every record fine, no path twice, paths in order, and the scope that of this
      inventory. None stands for fail. */
  method CheckProvenance(records: seq<Record>, source: SourceCheck, scope: string, entries: seq<Fields>,
    sha: string -> string)
    returns (index: Option<RecordIndex>)
    requires forall i | 0 <= i < |entries| :: |entries[i]| == 16
    ensures index.Some? <==>
      && scope == sha(RegularText(entries)) && |records| <= MAX_OBJECTS
      && (forall i | 0 <= i < |records| :: RecordOk(records[i], source)) && Ascending(records, RecordPath())
    ensures index.Some? ==> index.value == IndexRecords(records)
  {
    hide RecordOk, RegularText, Less, Sort;
    if scope != sha(RegularText(entries)) || |records| > MAX_OBJECTS { return None; }
    var known: RecordIndex := map[];
    for i := 0 to |records|
      invariant known == IndexRecords(records[..i]) && DistinctKeys(records[..i], RecordPath())
      invariant forall k | 0 <= k < i :: RecordOk(records[k], source)
    {
      IndexHolds(records[..i], records[i].path);
      if !RecordOk(records[i], source) { return None; }
      if records[i].path in known {
        RepeatedPath(records, i);
        return None;
      }
      known := known[records[i].path := records[i]];
      assert records[..i + 1] == records[..i] + [records[i]];
      assert records[..i + 1][..i] == records[..i];
    }
    assert records[..|records|] == records;
    DistinctOrdered(records);
    index := if records == Sort(records, RecordPath()) then Some(known) else None;
  }

  lemma RepeatedPath(records: seq<Record>, i: nat)
    requires i < |records| && exists k :: 0 <= k < i && records[..i][k].path == records[i].path
    ensures !Ascending(records, RecordPath())
  {
    var k :| 0 <= k < i && records[..i][k].path == records[i].path;
    if Ascending(records, RecordPath()) { PathsDiffer(records); }
  }

  lemma PathsDiffer(records: seq<Record>)
    requires Ascending(records, RecordPath())
    ensures forall i, j | 0 <= i < j < |records| :: records[i].path != records[j].path
  {
    forall i, j | 0 <= i < j < |records| ensures records[i].path != records[j].path {
      LessIrreflexive(records[i].path);
      assert Less(RecordPath()(records[i]), RecordPath()(records[j]));
    }
  }

  // ----- regular_set_commitment -----

  function RegularRow(f: Fields): string requires |f| == 16 { f[1] + [TAB] + f[14] }

  function RegularRows(entries: seq<Fields>): seq<string>
    requires forall i | 0 <= i < |entries| :: |entries[i]| == 16
  {
    if |entries| == 0 then []
    else (if entries[0][3] == "REGULAR" then [RegularRow(entries[0])] else []) + RegularRows(entries[1..])
  }

  function RegularText(entries: seq<Fields>): string
    requires forall i | 0 <= i < |entries| :: |entries[i]| == 16
  {
    Join(Sort(RegularRows(entries), Self()), '\n') + "\n"
  }

  /** The regular files an inventory names, with their digests. */
  ghost predicate NamesFile(entries: seq<Fields>, path: string, sha: string) {
    exists i :: 0 <= i < |entries| && |entries[i]| == 16 && entries[i][3] == "REGULAR" && entries[i][1] == path && entries[i][14] == sha
  }

  ghost predicate RowsShaped(entries: seq<Fields>) {
    forall i | 0 <= i < |entries| :: |entries[i]| == 16 && EntryRowOk(entries[i])
  }

  lemma {:induction false} RegularRowsHold(entries: seq<Fields>, path: string, sha: string)
    requires RowsShaped(entries) && HexText(path) && (sha == "-" || HexDigest(sha))
    ensures path + [TAB] + sha in RegularRows(entries) <==> NamesFile(entries, path, sha)
    ensures forall i | 0 <= i < |RegularRows(entries)| ::
      Free(RegularRows(entries)[i], '\n') && |RegularRows(entries)[i]| > 0
  {
    if |entries| > 0 {
      var f, rest := entries[0], entries[1..];
      RegularRowsHold(rest, path, sha);
      assert EntryRowOk(f);
      RowPlain(f);
      hide EntryRowOk, HexText, HexDigest;
      if f[3] == "REGULAR" && RegularRow(f) == path + [TAB] + sha { RowParts(f, path, sha); }
      if NamesFile(entries, path, sha) {
        var i :| 0 <= i < |entries| && |entries[i]| == 16 && entries[i][3] == "REGULAR" && entries[i][1] == path
          && entries[i][14] == sha;
        if i > 0 { assert rest[i - 1] == entries[i]; }
      }
      if NamesFile(rest, path, sha) {
        var i :| 0 <= i < |rest| && |rest[i]| == 16 && rest[i][3] == "REGULAR" && rest[i][1] == path
          && rest[i][14] == sha;
        assert entries[i + 1] == rest[i];
      }
    }
  }

  lemma RowPlain(f: Fields)
    requires |f| == 16 && EntryRowOk(f)
    ensures Free(RegularRow(f), '\n') && |RegularRow(f)| > 0 && HexText(f[1]) && Free(f[1], TAB)
  {
  }

  lemma RowParts(f: Fields, path: string, sha: string)
    requires |f| == 16 && Free(f[1], TAB) && Free(path, TAB) && f[1] + [TAB] + f[14] == path + [TAB] + sha
    ensures f[1] == path && f[14] == sha
  {
    SplitStep(f[1], TAB, f[14]);
    SplitStep(path, TAB, sha);
    var s := path + [TAB] + sha;
    assert Split(s, TAB)[0] == path == f[1];
    assert s[|path| + 1..] == sha && s[|f[1]| + 1..] == f[14];
  }

  /** Unless the two lists of regular files collide under the digest, provenance accepted for one inventory is scoped to
      exactly its regular files and their contents. */
  lemma CommitmentBinds(sha: string -> string, a: seq<Fields>, b: seq<Fields>, path: string, digest: string)
    requires RowsShaped(a) && RowsShaped(b) && HexText(path) && (digest == "-" || HexDigest(digest))
    requires sha(RegularText(a)) == sha(RegularText(b)) ==> RegularText(a) == RegularText(b)
    requires sha(RegularText(a)) == sha(RegularText(b))
    ensures NamesFile(a, path, digest) <==> NamesFile(b, path, digest)
  {
    var x, y := Sort(RegularRows(a), Self()), Sort(RegularRows(b), Self());
    RegularRowsHold(a, path, digest);
    RegularRowsHold(b, path, digest);
    SortKeepsShape(a, x, path, digest);
    SortKeepsShape(b, y, path, digest);
    hide RegularRows, Sort, NamesFile, Pieces;
    PiecesLines(x, '\n');
    PiecesLines(y, '\n');
    assert Join(x, '\n') + "\n" == Join(y, '\n') + "\n";
  }

  lemma SortKeepsShape(a: seq<Fields>, x: seq<string>, path: string, digest: string)
    requires RowsShaped(a) && HexText(path) && (digest == "-" || HexDigest(digest))
    requires x == Sort(RegularRows(a), Self())
    ensures forall i | 0 <= i < |x| :: |x[i]| > 0 && Free(x[i], '\n')
    ensures path + [TAB] + digest in x <==> path + [TAB] + digest in RegularRows(a)
  {
    RegularRowsHold(a, path, digest);
    var rows := RegularRows(a);
    hide RegularRows, Sort, EntryRowOk, HexText, HexDigest;
    SameElements(x, rows, path + [TAB] + digest);
    forall i | 0 <= i < |x| ensures |x[i]| > 0 && Free(x[i], '\n') {
      SameElements(x, rows, x[i]);
    }
  }
}
