/** The snapshot text of the inventory helper, and the checks its independent reader repeats. */
module Inventory {
  import opened Text
  import opened Records
  import opened Sorting
  import opened Walk

  /** The runtime contract both sides pin. Everything below holds for any pin. */
  datatype Pin = Pin(mode: string, path: string)

  ghost predicate PinForm(pin: Pin) { ByteText(pin.path) && Above(pin.mode, TAB) }

  type Fields = seq<string>

  function Self(): string -> string { (s: string) => s }

  // ----- What the helper prints -----

  function EntryKey(root: ByteString): Entry -> string {
    (e: Entry) => if EntryForm(e) then EntryLine(root, e) else ""
  }

  function IssueKey(): Issue -> string { (i: Issue) => if IssueForm(i) then IssueLine(i) else "" }

  function RootFields(root: ByteString, s: Stat): (f: Fields)
    ensures |f| == 11
  {
    ["ROOT", Hex(root), Hex(root), Decimal(s.dev), Decimal(s.ino), Octal(s.mode), Decimal(s.uid), Decimal(s.gid),
     Decimal(s.nlink), SignedDecimal(s.mtime), SignedDecimal(s.ctime)]
  }

  function RuntimeFields(pin: Pin, runtimeSha: string, identitySha: string): (f: Fields)
    requires ByteText(pin.path)
    ensures |f| == 5
  {
    ["RUNTIME", pin.mode, Hex(pin.path), runtimeSha, identitySha]
  }

  function Truth(b: bool): string { if b then "true" else "false" }

  function Caps(seconds: nat): Fields {
    ["200000", "150000", "150000", "1073741824", "34359738368", "64", Decimal(seconds), "4096", "125829120"]
  }

  function SummaryFields(c: Counters, issues: nat, complete: bool, commitment: string, seconds: nat): (f: Fields)
    ensures |f| == 20
  {
    ["SUMMARY", Decimal(c.entries), Decimal(c.directories), Decimal(c.files), Decimal(c.hashed), Decimal(c.hashedBytes),
     Decimal(c.uploads), Decimal(c.other), Decimal(issues), Truth(complete), commitment] + Caps(seconds)
  }

  /** Every line followed by a newline. */
  function Concat(lines: seq<string>): string {
    if |lines| == 0 then "" else lines[0] + "\n" + Concat(lines[1..])
  }

  /** Bytes of a text, newlines included. */
  function Size(lines: seq<string>): nat { if |lines| == 0 then 0 else |lines[0]| + 1 + Size(lines[1..]) }

  function EntryLines(root: ByteString, rows: seq<Entry>): (lines: seq<string>)
    requires forall i | 0 <= i < |rows| :: EntryForm(rows[i])
    ensures |lines| == |rows|
  {
    seq(|rows|, i requires 0 <= i < |rows| => EntryLine(root, rows[i]))
  }

  function IssueLines(issues: seq<Issue>): (lines: seq<string>)
    requires forall i | 0 <= i < |issues| :: IssueForm(issues[i])
    ensures |lines| == |issues|
  {
    seq(|issues|, i requires 0 <= i < |issues| => IssueLine(issues[i]))
  }

  /** What a finished walk hands over: ordered rows, ordered issues without repeats. */
  datatype Result = Result(pin: Pin, root: ByteString, rootStat: Stat, rows: seq<Entry>, issues: seq<Issue>, complete: bool,
                           runtimeSha: string, identitySha: string, seconds: nat)

  ghost predicate ResultForm(r: Result) {
    && PinForm(r.pin) && |r.root| > 0 && r.root[0] == '/'
    && 0 < |r.rows| <= ENTRY_CAP
    && (forall i | 0 <= i < |r.rows| :: EntryForm(r.rows[i]) && Covered(r.issues, r.rows[i]))
    && DistinctPaths(r.rows) && Ascending(r.rows, EntryKey(r.root))
    && (forall i | 0 <= i < |r.issues| :: IssueForm(r.issues[i]))
    && Ascending(r.issues, IssueKey())
    && (exists i :: 0 <= i < |r.rows| && r.rows[i].path == [] && r.rows[i].stat == r.rootStat)
    && r.rootStat.kind == DIRECTORY
    && (r.complete <==> r.issues == [])
    && HexDigest(r.runtimeSha) && HexDigest(r.identitySha)
  }

  function Commitment(sha: string -> string, r: Result): string
    requires forall i | 0 <= i < |r.rows| :: EntryForm(r.rows[i])
  {
    sha(Concat(EntryLines(r.root, r.rows)))
  }

  function Bindings(sha: string -> string, r: Result): (lines: seq<string>)
    requires ByteText(r.pin.path)
    requires forall i | 0 <= i < |r.rows| :: EntryForm(r.rows[i])
    ensures |lines| == 3
  {
    [Join(RootFields(r.root, r.rootStat), TAB), Join(RuntimeFields(r.pin, r.runtimeSha, r.identitySha), TAB),
     Join(SummaryFields(CountersOf(r.rows), |r.issues|, r.complete, Commitment(sha, r), r.seconds), TAB)]
  }

  /** The snapshot, line by line. */
  function SnapshotLines(sha: string -> string, r: Result): seq<string>
    requires ByteText(r.pin.path)
    requires forall i | 0 <= i < |r.rows| :: EntryForm(r.rows[i])
    requires forall i | 0 <= i < |r.issues| :: IssueForm(r.issues[i])
  {
    EntryLines(r.root, r.rows) + Bindings(sha, r) + IssueLines(r.issues)
  }

  // ----- The reader: parse_inventory -----

  /** decode_relative. */
  predicate RelativeOk(hex: string) {
    && HexText(hex)
    && var raw := Unhex(hex);
       (0 as char) !in raw
       && (raw != "" ==> forall i | 0 <= i < |Split(raw, '/')| :: Split(raw, '/')[i] !in {"", ".", ".."})
  }

  predicate EntryRowOk(f: Fields) {
    && |f| == 16 && f[0] == "ENTRY" && HexText(f[1]) && HexText(f[2]) && f[3] in KINDS
    && CanonicalDecimal(f[4]) && ModeText(f[5]) && (forall i | 6 <= i < 13 :: CanonicalDecimal(f[i]))
    && (f[13] == "-" || HexText(f[13])) && (f[14] == "-" || HexDigest(f[14])) && f[15] in {"0", "1"}
    && RelativeOk(f[1])
  }

  predicate IssueRowOk(f: Fields) {
    && |f| == 4 && f[0] == "UNRESOLVED" && |f[1]| >= 1
    && (forall i | 0 <= i < |f[1]| :: 'A' <= f[1][i] <= 'Z' || Digit(f[1][i]) || f[1][i] == '_')
    && HexText(f[2]) && HexDigest(f[3])
  }

  predicate RootRowOk(f: Fields) {
    && |f| == 11 && f[0] == "ROOT" && HexText(f[1]) && HexText(f[2]) && CanonicalDecimal(f[3]) && CanonicalDecimal(f[4])
    && ModeText(f[5]) && forall i | 6 <= i < 11 :: CanonicalDecimal(f[i])
  }

  predicate RuntimeRowOk(f: Fields) {
    |f| == 5 && f[0] == "RUNTIME" && HexText(f[2]) && HexDigest(f[3]) && HexDigest(f[4])
  }

  predicate SummaryRowOk(f: Fields) {
    && |f| == 20 && f[0] == "SUMMARY" && (forall i | 1 <= i < 9 :: CanonicalDecimal(f[i]))
    && f[9] in {"true", "false"} && HexDigest(f[10]) && forall i | 11 <= i < 20 :: CanonicalDecimal(f[i])
  }

  predicate RowOk(f: Fields) {
    EntryRowOk(f) || IssueRowOk(f) || RootRowOk(f) || RuntimeRowOk(f) || SummaryRowOk(f)
  }

  function FirstField(line: string): string { Split(line, TAB)[0] }

  /** The lines of one row type, in order. */
  function TaggedLines(lines: seq<string>, tag: string): (r: seq<string>)
    ensures forall i | 0 <= i < |r| :: FirstField(r[i]) == tag
  {
    if |lines| == 0 then []
    else
      var last := lines[|lines| - 1];
      TaggedLines(lines[..|lines| - 1], tag) + if FirstField(last) == tag then [last] else []
  }

  function SplitAll(lines: seq<string>): (rows: seq<Fields>)
    ensures |rows| == |lines| && forall i | 0 <= i < |lines| :: rows[i] == Split(lines[i], TAB)
  {
    seq(|lines|, i requires 0 <= i < |lines| => Split(lines[i], TAB))
  }

  function Tagged(lines: seq<string>, tag: string): seq<Fields> { SplitAll(TaggedLines(lines, tag)) }

  function Value(s: string): nat { if CanonicalDecimal(s) then ParseDecimal(s) else 0 }

  function RowKind(k: string): Fields -> nat { (f: Fields) => if |f| == 16 && f[3] == k then 1 else 0 }
  function RowOther(): Fields -> nat {
    (f: Fields) => if |f| == 16 && f[3] != "REGULAR" && f[3] != "DIRECTORY" then 1 else 0
  }
  function RowHashed(): Fields -> nat { (f: Fields) => if |f| == 16 && f[3] == "REGULAR" && f[14] != "-" then 1 else 0 }
  function RowHashedSize(): Fields -> nat {
    (f: Fields) => if |f| == 16 && f[3] == "REGULAR" && f[14] != "-" then Value(f[4]) else 0
  }
  function RowUploads(): Fields -> nat { (f: Fields) => if |f| == 16 && f[15] == "1" then 1 else 0 }

  /** The eight counts re-derived from the rows. */
  function Derived(entries: seq<Fields>, unresolved: seq<Fields>): seq<nat> {
    [|entries|, Sum(entries, RowKind("DIRECTORY")), Sum(entries, RowKind("REGULAR")), Sum(entries, RowHashed()),
     Sum(entries, RowHashedSize()), Sum(entries, RowUploads()), Sum(entries, RowOther()), |unresolved|]
  }

  predicate Mentioned(unresolved: seq<Fields>, path: string) {
    exists i | 0 <= i < |unresolved| :: |unresolved[i]| == 4 && unresolved[i][2] == path
  }

  predicate MentionedAs(unresolved: seq<Fields>, reason: string, path: string) {
    exists i | 0 <= i < |unresolved| :: |unresolved[i]| == 4 && unresolved[i][1] == reason && unresolved[i][2] == path
  }

  /** The checks on one entry against the root and the unresolved rows. */
  predicate EntryConsistent(f: Fields, physical: string, unresolved: seq<Fields>)
    requires EntryRowOk(f)
  {
    var relative := Unhex(f[1]);
    && Unhex(f[2]) == (if relative == "" then physical else physical + "/" + relative)
    && (f[15] == "1" <==> "uploads" in Split(relative, '/'))
    && (f[3] == "REGULAR" ==>
          && (f[14] == "-" ==> Mentioned(unresolved, f[1]))
          && (Value(f[12]) != 1 ==> MentionedAs(unresolved, "HARDLINK_UNRESOLVED", f[1])))
    && (f[3] != "REGULAR" && f[3] != "DIRECTORY" ==> Mentioned(unresolved, f[1]))
  }

  /** Device, inode, mode, uid, gid, nlink, mtime, ctime of an entry row and of a root row. */
  function EntryIdentity(f: Fields): (seq<nat>, string) requires |f| == 16 {
    ([Value(f[10]), Value(f[11]), Value(f[6]), Value(f[7]), Value(f[12]), Value(f[8]), Value(f[9])], f[5])
  }

  function RootIdentity(f: Fields): (seq<nat>, string) requires |f| == 11 {
    ([Value(f[3]), Value(f[4]), Value(f[6]), Value(f[7]), Value(f[8]), Value(f[9]), Value(f[10])], f[5])
  }

  /** Framing, order, row grammar, singletons. */
  ghost predicate RowsAccepted(lines: seq<string>) {
    && |lines| > 0 && Ascending(lines, Self())
    && (forall i | 0 <= i < |lines| :: RowOk(Split(lines[i], TAB)))
    && |Tagged(lines, "ENTRY")| <= 200000
    && |Tagged(lines, "ROOT")| == 1 && |Tagged(lines, "RUNTIME")| == 1 && |Tagged(lines, "SUMMARY")| == 1
  }

  ghost predicate PathsUnique(entries: seq<Fields>) {
    forall i, j | 0 <= i < j < |entries| :: |entries[i]| == 16 && |entries[j]| == 16 ==> entries[i][1] != entries[j][1]
  }

  predicate BindingsAccepted(pin: Pin, root: Fields, runtime: Fields) {
    && RootRowOk(root) && RuntimeRowOk(runtime)
    && Unhex(root[1]) == Unhex(root[2]) && |Unhex(root[1])| > 0 && Unhex(root[1])[0] == '/'
    && runtime[1] == pin.mode && Unhex(runtime[2]) == pin.path
  }

  /** The commitment and the eight counts of the summary row, the coverage flag and the caps. */
  predicate SummaryAccepted(sha: string -> string, texts: seq<string>, entries: seq<Fields>, unresolved: seq<Fields>,
                            summary: Fields)
  {
    && SummaryRowOk(summary)
    && sha(Join(Sort(texts, Self()), '\n') + "\n") == summary[10]
    && (forall i | 0 <= i < 8 :: Value(summary[i + 1]) == Derived(entries, unresolved)[i])
    && (summary[9] == "true" <==> |unresolved| == 0)
    && summary[11..] == Caps(900)
  }

  predicate RootEntryAccepted(entries: seq<Fields>, root: Fields) {
    && |root| == 11
    && exists i | 0 <= i < |entries| ::
         && |entries[i]| == 16 && entries[i][1] == "" && entries[i][3] == "DIRECTORY" && entries[i][2] == root[2]
         && EntryIdentity(entries[i]) == RootIdentity(root)
  }

  /** Everything parse_inventory requires of a text, for a pinned runtime and a digest function. */
  ghost predicate Accepted(pin: Pin, sha: string -> string, lines: seq<string>) {
    && RowsAccepted(lines)
    && var entries, unresolved := Tagged(lines, "ENTRY"), Tagged(lines, "UNRESOLVED");
       var root, runtime, summary := Tagged(lines, "ROOT")[0], Tagged(lines, "RUNTIME")[0], Tagged(lines, "SUMMARY")[0];
       && PathsUnique(entries)
       && BindingsAccepted(pin, root, runtime)
       && SummaryAccepted(sha, TaggedLines(lines, "ENTRY"), entries, unresolved, summary)
       && (forall i | 0 <= i < |entries| ::
         EntryRowOk(entries[i]) && EntryConsistent(entries[i], Unhex(root[2]), unresolved))
       && RootEntryAccepted(entries, root)
  }
}
