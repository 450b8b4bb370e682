/** parse_raw_pass: the reader of a diagnostic stream. */
module RawPass {
  import opened Text
  import opened Records
  import opened Sorting
  import opened Inventory
  import opened Runtime

  const LINE_BYTE_CAP: nat := 40960
  const RAW_BYTE_CAP: nat := 125829120

  const CHANGES: set<string> := {"CREATED", "DELETED", "MODIFIED", "REPLACED"}

  // ----- Field grammars -----

  /** numeric. */
  predicate Numeric(s: string) { CanonicalDecimal(s) && ParseDecimal(s) <= MAX_U64 }

  /** signed_numeric. */
  predicate SignedNumeric(s: string) { CanonicalSigned(s) && -MAX_I64 - 1 <= ParseSigned(s) <= MAX_I64 }

  /** decode_hex, for a path relative to the root or for the root itself. */
  predicate PathOk(hex: string, absolute: bool) {
    && HexText(hex)
    && var raw := Unhex(hex);
       && (0 as char) !in raw && (absolute <==> |raw| > 0 && raw[0] == '/')
       && (raw == "" || forall i | (if absolute then 1 else 0) <= i < |Split(raw, '/')| ::
         Split(raw, '/')[i] !in {"", ".", ".."})
  }

  // ----- Records -----

  datatype PassState = PassState(kind: string, device: nat, inode: nat, size: nat, mode: string, uid: nat, gid: nat, nlink: nat,
                                 mtime: int, ctime: int, sha: Option<string>, target: Option<string>, uploads: bool)

  const DASHES: Fields := ["-", "-", "-", "-", "-", "-", "-", "-", "-", "-", "-", "-", "-"]

  predicate PassStateOk(v: Fields, exists_: bool) {
    if !exists_ then v == DASHES
    else
      && |v| == 13 && v[0] in KINDS && ModeText(v[4]) && (v[10] == "-" || HexDigest(v[10]))
      && (v[11] == "-" || (|v[11]| <= 8192 && HexText(v[11]))) && (v[0] != "SYMLINK" ==> v[11] == "-")
        && v[12] in {"0", "1"}
      && Numeric(v[1]) && Numeric(v[2]) && Numeric(v[3]) && Numeric(v[5]) && Numeric(v[6]) && Numeric(v[7])
      && SignedNumeric(v[8]) && SignedNumeric(v[9])
  }

  /** pass_state. */
  function PassStateOf(v: Fields, exists_: bool): Option<PassState>
    requires PassStateOk(v, exists_)
  {
    if !exists_ then None
    else
      Some(PassState(v[0], ParseDecimal(v[1]), ParseDecimal(v[2]), ParseDecimal(v[3]), v[4], ParseDecimal(v[5]),
        ParseDecimal(v[6]),
                     ParseDecimal(v[7]), ParseSigned(v[8]), ParseSigned(v[9]), if v[10] == "-" then None
                       else Some(v[10]),
                     if v[11] == "-" then None else Some(v[11]), v[12] == "1"))
  }

  datatype DeltaRecord = DeltaRecord(path: string, change: string, pass1: Option<PassState>, pass2: Option<PassState>)

  datatype IssueRecord = IssueRecord(path: string, reason: string, detail: string, pass1: bool, pass2: bool)

  function ExpectedChange(pass1: Option<PassState>, pass2: Option<PassState>): string {
    if pass1.None? then "CREATED"
    else if pass2.None? then "DELETED"
    else if pass1.value.kind != pass2.value.kind || pass1.value.device != pass2.value.device
      || pass1.value.inode != pass2.value.inode
    then "REPLACED"
    else "MODIFIED"
  }

  predicate DeltaOk(f: Fields) {
    && |f| == 31 && f[0] == "DRIFT" && f[2] in CHANGES && PathOk(f[1], false)
    && f[3] in {"true", "false"} && f[4] in {"true", "false"} && (f[3] == "true" || f[4] == "true")
    && PassStateOk(f[5..18], f[3] == "true") && PassStateOk(f[18..31], f[4] == "true")
    && var pass1, pass2 := PassStateOf(f[5..18], f[3] == "true"), PassStateOf(f[18..31], f[4] == "true");
       && f[2] == ExpectedChange(pass1, pass2) && !(pass1.Some? && pass2.Some? && pass1 == pass2)
  }

  /** parse_delta on a line whose checks pass. */
  function DeltaRecordOf(f: Fields): DeltaRecord requires DeltaOk(f) {
    DeltaRecord(f[1], f[2], PassStateOf(f[5..18], f[3] == "true"), PassStateOf(f[18..31], f[4] == "true"))
  }

  predicate IssueDeltaOk(f: Fields) {
    && |f| == 6 && f[0] == "DRIFT_ISSUE" && ReasonText(f[2]) && HexDigest(f[3]) && f[4] in {"true", "false"}
    && f[5] in {"true", "false"} && f[4] != f[5] && PathOk(f[1], false)
  }

  function IssueRecordOf(f: Fields): IssueRecord requires IssueDeltaOk(f) {
    IssueRecord(f[1], f[2], f[3], f[4] == "true", f[5] == "true")
  }

  // ----- The stream -----

  /** What the reader is told: the root it expects, the operation, the pinned helper and the pinned bootstrap. */
  datatype Expectation = Expectation(root: string, operation: string, helperSha: string, bootstrap: Bootstrap, sha: string -> string)

  /** The runtime a header names. */
  function HeaderIdentity(f: Fields, want: Expectation): Option<Identity> requires |f| == 16 {
    IdentityOf(f[11], f[10], f[9], want.sha, want.bootstrap)
  }

  /** BoundInput.lines: an ASCII line without NUL, short enough with its newline. */
  predicate Framed(line: string) {
    |line| < LINE_BYTE_CAP && forall i | 0 <= i < |line| :: 0 < line[i] as int < 128 && line[i] != '\n'
  }

  predicate HeaderOk(f: Fields, want: Expectation) {
    && |f| == 16 && f[0] == "DRIFT_DIAGNOSTIC" && f[1] == "SIGNED_DRIFT_DIAGNOSTIC_MODE_V1"
    && f[14] == "READ_ONLY" && f[15] == "NON_AUTHORIZING"
    && ByteText(want.root) && f[2] == Hex(want.root) && PathOk(f[2], true)
    && HexDigest(f[7]) && HexDigest(f[8]) && HexDigest(f[9]) && HexDigest(f[10]) && f[9] == want.helperSha
    && HeaderIdentity(f, want).Some?
    && Numeric(f[3]) && Numeric(f[4]) && Numeric(f[5]) && Numeric(f[6])
    && Numeric(f[12]) && Numeric(f[13])
    && ParseDecimal(f[12]) <= 200000 && ParseDecimal(f[13]) <= 200000 && ParseDecimal(f[12]) + ParseDecimal(f[13]) > 0
  }

  /** The order a delta line must keep: the decoded path. */
  function PathKey(): Fields -> string { (f: Fields) => if |f| == 31 && HexText(f[1]) then Unhex(f[1]) else "" }

  /** Python's order on (reason, path, detail). */
  predicate IssueBefore(f: Fields, g: Fields) {
    |f| == 6 && |g| == 6 && FieldsLess([f[2], f[1], f[3]], [g[2], g[1], g[3]])
  }

  /** Every step of the delta loop. */
  predicate DeltasOk(rows: seq<Fields>) {
    && (forall i | 0 <= i < |rows| :: DeltaOk(rows[i]))
    && forall i | 0 < i < |rows| :: Less(PathKey()(rows[i - 1]), PathKey()(rows[i]))
  }

  predicate IssuesOk(rows: seq<Fields>) {
    && (forall i | 0 <= i < |rows| :: IssueDeltaOk(rows[i]))
    && forall i | 0 < i < |rows| :: IssueBefore(rows[i - 1], rows[i])
  }

  predicate AllFramed(lines: seq<string>) { forall i | 0 <= i < |lines| :: Framed(lines[i]) }

  /** Nonce and header. */
  predicate HeadOk(lines: seq<string>, want: Expectation) {
    && |lines| >= 2 && Framed(lines[0]) && Framed(lines[1]) && lines[0] == "CAPTURE_NONCE\t" + want.operation
    && HeaderOk(Split(lines[1], TAB), want)
  }

  function DeltaCount(lines: seq<string>, want: Expectation): nat requires HeadOk(lines, want) {
    HeaderCounts(Split(lines[1], TAB), want);
    ParseDecimal(Split(lines[1], TAB)[12])
  }

  function IssueCount(lines: seq<string>, want: Expectation): nat requires HeadOk(lines, want) {
    HeaderCounts(Split(lines[1], TAB), want);
    ParseDecimal(Split(lines[1], TAB)[13])
  }

  /** The lines of a block, as many as are there. */
  function Portion(lines: seq<string>, from: nat, count: nat): seq<string> {
    if from >= |lines| then [] else if from + count >= |lines| then lines[from..] else lines[from..from + count]
  }

  function DeltaPart(lines: seq<string>, want: Expectation): seq<string> requires HeadOk(lines, want) {
    Portion(lines, 2, DeltaCount(lines, want))
  }

  function IssuePart(lines: seq<string>, want: Expectation): seq<string> requires HeadOk(lines, want) {
    Portion(lines, 2 + DeltaCount(lines, want), IssueCount(lines, want))
  }

  /** Both blocks are complete, what follows them is due, and everything is within the cap. */
  predicate TailOk(lines: seq<string>, want: Expectation) requires HeadOk(lines, want) {
    var end := 2 + DeltaCount(lines, want) + IssueCount(lines, want);
    && |lines| >= end && AllFramed(lines[end..]) && TailFits(lines[end..], Split(lines[1], TAB), want)
    && Size(lines) <= RAW_BYTE_CAP
  }

  predicate TailFits(trailing: seq<string>, header: Fields, want: Expectation) requires HeaderOk(header, want) {
    HeaderCounts(header, want);
    TrailingOk(trailing, want.operation, HeaderIdentity(header, want).value, header[10], want.sha, want.bootstrap)
  }

  /** The streams parse_raw_pass accepts. */
  predicate RawPassOk(lines: seq<string>, want: Expectation) {
    && HeadOk(lines, want)
    && AllFramed(DeltaPart(lines, want)) && DeltasOk(SplitAll(DeltaPart(lines, want)))
    && AllFramed(IssuePart(lines, want)) && IssuesOk(SplitAll(IssuePart(lines, want)))
    && TailOk(lines, want)
  }

  function DeltaRecords(rows: seq<Fields>): (records: seq<DeltaRecord>)
    requires forall i | 0 <= i < |rows| :: DeltaOk(rows[i])
    ensures |records| == |rows|
  {
    seq(|rows|, i requires 0 <= i < |rows| => DeltaRecordOf(rows[i]))
  }

  function IssueRecords(rows: seq<Fields>): (records: seq<IssueRecord>)
    requires forall i | 0 <= i < |rows| :: IssueDeltaOk(rows[i])
    ensures |records| == |rows|
  {
    seq(|rows|, i requires 0 <= i < |rows| => IssueRecordOf(rows[i]))
  }

  /** The loop over the delta lines: one record per line, the previous path carried along. */
  method ParseDeltas(lines: seq<string>) returns (ok: bool, records: seq<DeltaRecord>)
    ensures ok <==> DeltasOk(SplitAll(lines))
    ensures ok ==> records == DeltaRecords(SplitAll(lines))
  {
    hide DeltaOk, DeltaRecordOf, Less, Split, PathKey;
    records := [];
    var previous: Option<string> := None;
    for i := 0 to |lines|
      invariant forall k | 0 <= k < i :: DeltaOk(Split(lines[k], TAB))
      invariant forall k | 0 < k < i :: Less(PathKey()(Split(lines[k - 1], TAB)), PathKey()(Split(lines[k], TAB)))
      invariant |records| == i && forall k | 0 <= k < i :: records[k] == DeltaRecordOf(Split(lines[k], TAB))
      invariant previous == if i == 0 then None else Some(PathKey()(Split(lines[i - 1], TAB)))
    {
      var f := Split(lines[i], TAB);
      assert SplitAll(lines)[i] == f;
      if !DeltaOk(f) { return false, records; }
      var path := PathKey()(f);
      if previous.Some? && !Less(previous.value, path) { return false, records; }
      records := records + [DeltaRecordOf(f)];
      previous := Some(path);
    }
    ok := true;
  }

  method ParseIssues(lines: seq<string>) returns (ok: bool, records: seq<IssueRecord>)
    ensures ok <==> IssuesOk(SplitAll(lines))
    ensures ok ==> records == IssueRecords(SplitAll(lines))
  {
    hide IssueDeltaOk, IssueRecordOf, IssueBefore, Split;
    records := [];
    var previous: Option<Fields> := None;
    for i := 0 to |lines|
      invariant forall k | 0 <= k < i :: IssueDeltaOk(Split(lines[k], TAB))
      invariant forall k | 0 < k < i :: IssueBefore(Split(lines[k - 1], TAB), Split(lines[k], TAB))
      invariant |records| == i && forall k | 0 <= k < i :: records[k] == IssueRecordOf(Split(lines[k], TAB))
      invariant previous == if i == 0 then None else Some(Split(lines[i - 1], TAB))
    {
      var f := Split(lines[i], TAB);
      assert SplitAll(lines)[i] == f;
      if !IssueDeltaOk(f) { return false, records; }
      if previous.Some? && !IssueBefore(previous.value, f) { return false, records; }
      records := records + [IssueRecordOf(f)];
      previous := Some(f);
    }
    ok := true;
  }

  /** parse_raw_pass. */
  method ParseRawPass(lines: seq<string>, want: Expectation)
    returns (ok: bool, deltas: seq<DeltaRecord>, issues: seq<IssueRecord>)
    ensures ok <==> RawPassOk(lines, want)
    ensures ok ==>
      && deltas == DeltaRecords(SplitAll(DeltaPart(lines, want)))
      && issues == IssueRecords(SplitAll(IssuePart(lines, want)))
  {
    hide HeaderOk, Framed, DeltasOk, IssuesOk, DeltaRecords, IssueRecords, Split, Portion, TailOk, DeltaCount,
      IssueCount, HeadOk;
    deltas, issues := [], [];
    if !HeadOk(lines, want) { return false, deltas, issues; }
    if !AllFramed(DeltaPart(lines, want)) { return false, deltas, issues; }
    ok, deltas := ParseDeltas(DeltaPart(lines, want));
    if !ok || !AllFramed(IssuePart(lines, want)) { return false, deltas, issues; }
    ok, issues := ParseIssues(IssuePart(lines, want));
    if !ok { return; }
    ok := TailOk(lines, want);
  }

  lemma HeaderCounts(f: Fields, want: Expectation)
    requires HeaderOk(f, want)
    ensures |f| == 16 && CanonicalDecimal(f[12]) && CanonicalDecimal(f[13]) && HeaderIdentity(f, want).Some?
  {
  }
}
