/** The whole diagnostic run: two snapshots, their printed difference, and its reader. */
module Diagnosis {
  import opened Text
  import opened Records
  import opened Sorting
  import opened Walk
  import opened Inventory
  import opened Agreement
  import opened Snapshot
  import opened Drift
  import opened Diagnostic
  import opened RawPass
  import opened Runtime
  import opened Streams
  import opened DriftAgreement

  // ----- Issue records -----

  /** A difference of two issue streams: one issue, on one side. */
  ghost predicate TrueIssue(d: Delta, x: Issue) {
    && IssueForm(x) && ShortPath(x.path) && (d.left.Some? <==> d.right.None?)
    && (if d.left.Some? then d.left.value else if d.right.Some? then d.right.value else "") == IssueLine(x)
  }

  lemma IssueSide(r1: Result, r2: Result, i: nat) returns (x: Issue)
    requires Comparable(r1, r2) && i < |IssueLineDeltas(r1, r2)|
    ensures TrueIssue(IssueLineDeltas(r1, r2)[i], x)
  {
    MergeFrom(IssueRow, IssueLines(r1.issues), IssueLines(r2.issues));
    var d := IssueLineDeltas(r1, r2)[i];
    hide IssueForm, IssueLine, ShortPath, Merge;
    if d.left.Some? {
      var k :| 0 <= k < |r1.issues| && IssueLines(r1.issues)[k] == d.left.value;
      x := r1.issues[k];
    } else {
      var k :| 0 <= k < |r2.issues| && IssueLines(r2.issues)[k] == d.right.value;
      x := r2.issues[k];
    }
  }

  function IssueBack(r: IssueRecord): Delta {
    var line := Join(["UNRESOLVED", r.reason, r.path, r.detail], TAB);
    Delta(if r.pass1 then Some(line) else None, if r.pass2 then Some(line) else None)
  }

  function IssuesBack(records: seq<IssueRecord>): (ds: seq<Delta>)
    ensures |ds| == |records|
  {
    seq(|records|, i requires 0 <= i < |records| => IssueBack(records[i]))
  }

  ghost predicate IssueReadback(d: Delta) {
    && IssueDelta(d) && Framed(DriftIssueLine(d)) && Split(DriftIssueLine(d), TAB) == DriftIssueFields(d)
    && IssueDeltaOk(DriftIssueFields(d)) && IssueBack(IssueRecordOf(DriftIssueFields(d))) == d
  }

  lemma IssueFieldsAre(d: Delta, x: Issue)
    requires TrueIssue(d, x)
    ensures IssueDelta(d)
    ensures DriftIssueFields(d) == ["DRIFT_ISSUE", PathHex(x.path), x.reason, x.detail, Truth(d.left.Some?),
      Truth(d.right.Some?)]
  {
    IssueLineSplits(x);
    hide Split, Hex, IssueForm, IssueLine, ShortPath;
  }

  lemma IssueRowRead(path: string, reason: string, detail: string, left: bool, right: bool)
    requires PathOk(path, false) && |path| <= 8192 && ReasonText(reason) && HexDigest(detail) && left != right
    ensures var f := ["DRIFT_ISSUE", path, reason, detail, Truth(left), Truth(right)];
      IssueDeltaOk(f) && IssueRecordOf(f) == IssueRecord(path, reason, detail, left, right) && Framed(Join(f, TAB))
        && AllAbove(f)
  {
    var f := ["DRIFT_ISSUE", path, reason, detail, Truth(left), Truth(right)];
    assert AllPlain(f) by {
      assert HexText(path) && HexText(detail); hide PathOk, HexText; PlainIssue(path, reason, detail);
    }
    assert [f[0]] + f[2..] == ["DRIFT_ISSUE", reason, detail, Truth(left), Truth(right)];
    TotalBound([f[0]] + f[2..], 64);
    TotalFront(f);
    hide PathOk, Plain, Join, Framed, Above;
    JoinFramed(f);
    PlainAbove(f);
  }

  lemma PlainIssue(path: string, reason: string, detail: string)
    requires HexText(path) && ReasonText(reason) && HexText(detail)
    ensures Plain(path) && Plain(reason) && Plain(detail)
  {
  }

  /** The reader accepts a printed issue difference and reads it back. */
  lemma IssueRead(d: Delta, x: Issue)
    requires TrueIssue(d, x)
    ensures IssueReadback(d)
  {
    IssueFieldsAre(d, x);
    PathAccepted(x.path);
    RelativeBytes(x.path);
    var f := DriftIssueFields(d);
    IssueRowRead(PathHex(x.path), x.reason, x.detail, d.left.Some?, d.right.Some?);
    hide DriftIssueFields, PathOk, Split, Hex, Relative, IssueDeltaOk, IssueRecordOf, Framed, AllAbove, PathHex;
    RowSplits(f);
  }

  lemma IssueKeyIs(d: Delta, x: Issue)
    requires TrueIssue(d, x)
    ensures DeltaKey(IssueRow)(d) == IssueLine(x)
  {
    KeyOfIssue(IssueLine(x));
    hide IssueForm, IssueLine, ShortPath, RowKey;
    assert DeltaKey(IssueRow)(d) == RowKey(IssueRow)(if d.left.Some? then d.left.value else d.right.value);
  }

  lemma KeyOfIssue(line: string)
    ensures RowKey(IssueRow)(line) == line
  {
  }

  ghost predicate IssuesInOrder(d: Delta, e: Delta) {
    IssueDelta(d) && IssueDelta(e) && IssueBefore(DriftIssueFields(d), DriftIssueFields(e))
  }

  lemma IssueOrder(d: Delta, e: Delta, x: Issue, y: Issue)
    requires TrueIssue(d, x) && TrueIssue(e, y)
    requires Less(DeltaKey(IssueRow)(d), DeltaKey(IssueRow)(e))
    ensures IssuesInOrder(d, e)
  {
    IssueFieldsAre(d, x);
    IssueFieldsAre(e, y);
    IssueKeyIs(d, x);
    IssueKeyIs(e, y);
    IssueLineOrder(x, y);
    hide FieldsLess, Less, DriftIssueFields, IssueForm, IssueLine, ShortPath, Hex, PathHex, DeltaKey;
  }

  lemma IssuesAccepted(r1: Result, r2: Result)
    requires Comparable(r1, r2)
    ensures forall i | 0 <= i < |IssueLineDeltas(r1, r2)| :: IssueDelta(IssueLineDeltas(r1, r2)[i])
    ensures var lines := DriftIssueLines(IssueLineDeltas(r1, r2));
      && IssuesOk(SplitAll(lines)) && IssuesBack(IssueRecords(SplitAll(lines))) == IssueLineDeltas(r1, r2)
      && forall i | 0 <= i < |lines| :: Framed(lines[i])
  {
    RowsAscend(r1, r2);
    var ds := IssueLineDeltas(r1, r2);
    forall i | 0 <= i < |ds| ensures IssueReadback(ds[i]) {
      var x := IssueSide(r1, r2, i);
      IssueRead(ds[i], x);
    }
    hide *;
    forall i | 0 < i < |ds| ensures IssuesInOrder(ds[i - 1], ds[i]) { IssuePair(r1, r2, i); }
    IssuesCheck(ds);
  }

  lemma IssueDeltasAscend(r1: Result, r2: Result, i: nat, j: nat)
    requires Comparable(r1, r2) && i < j < |IssueLineDeltas(r1, r2)|
    ensures Less(DeltaKey(IssueRow)(IssueLineDeltas(r1, r2)[i]), DeltaKey(IssueRow)(IssueLineDeltas(r1, r2)[j]))
  {
    RowsAscend(r1, r2);
    hide Comparable, IssueLineDeltas, EntryLines, IssueLines, RowDeltas, Less, DeltaKey;
  }

  lemma IssuePair(r1: Result, r2: Result, i: nat)
    requires Comparable(r1, r2) && 0 < i < |IssueLineDeltas(r1, r2)|
    ensures IssuesInOrder(IssueLineDeltas(r1, r2)[i - 1], IssueLineDeltas(r1, r2)[i])
  {
    hide *;
    var ds := IssueLineDeltas(r1, r2);
    IssueDeltasAscend(r1, r2, i - 1, i);
    var x := IssueSide(r1, r2, i - 1);
    var y := IssueSide(r1, r2, i);
    IssueOrder(ds[i - 1], ds[i], x, y);
  }

  lemma IssuesCheck(ds: seq<Delta>)
    requires forall i | 0 <= i < |ds| :: IssueReadback(ds[i])
    requires forall i | 0 < i < |ds| :: IssuesInOrder(ds[i - 1], ds[i])
    ensures forall i | 0 <= i < |ds| :: IssueDelta(ds[i])
    ensures IssuesOk(SplitAll(DriftIssueLines(ds)))
    ensures forall i | 0 <= i < |ds| :: Framed(DriftIssueLines(ds)[i])
    ensures IssuesBack(IssueRecords(SplitAll(DriftIssueLines(ds)))) == ds
  {
    hide Framed, IssueDeltaOk, IssueRecordOf, DriftIssueFields, DriftIssueLine, IssueDelta, Split, IssueBefore,
      IssueBack;
    var rows := SplitAll(DriftIssueLines(ds));
    forall i | 0 <= i < |ds| ensures rows[i] == DriftIssueFields(ds[i]) {
      assert DriftIssueLines(ds)[i] == DriftIssueLine(ds[i]);
    }
  }

  // ----- The header -----

  /** valid_root on a C string. */
  predicate ValidRoot(root: ByteString) {
    && 2 <= |root| <= MAX_RELATIVE_BYTES && root[0] == '/' && (0 as char) !in root
    && |Split(root[1..], '/')| <= DEPTH_CAP
    && forall i | 0 <= i < |Split(root[1..], '/')| :: SafeComponent(Split(root[1..], '/')[i])
  }

  lemma RootAccepted(root: ByteString)
    requires ValidRoot(root)
    ensures PathOk(Hex(root), true)
  {
    hide Hex, Unhex, Split;
    UnhexHex(root);
    SplitStep("", '/', root[1..]);
    assert root == "" + ['/'] + root[1..];
    var rest := Split(root[1..], '/');
    assert forall i | 0 <= i < |rest| :: SafeComponent(rest[i]);
    assert forall i | 1 <= i < |rest| + 1 :: ([""] + rest)[i] == rest[i - 1];
  }

  /** The sixteen header fields of two snapshots of one run: root states and text digests. */
  function HeaderRow(run: Run, root: ByteString, s1: Stat, s2: Stat, sha1: string, sha2: string, n: nat,
    m: nat): (f: Fields)
    ensures |f| == 16
  {
    ["DRIFT_DIAGNOSTIC", "SIGNED_DRIFT_DIAGNOSTIC_MODE_V1", Hex(root), Decimal(s1.dev), Decimal(s1.ino),
      Decimal(s2.dev),
     Decimal(s2.ino), sha1, sha2, run.helperSha, run.sha(run.identity), Hex(run.identity), Decimal(n), Decimal(m),
     "READ_ONLY", "NON_AUTHORIZING"]
  }

  lemma HeaderRead(f: Fields, want: Expectation, root: ByteString, identity: ByteString, n: nat, m: nat)
    requires |f| == 16 && f[0] == "DRIFT_DIAGNOSTIC" && f[1] == "SIGNED_DRIFT_DIAGNOSTIC_MODE_V1" && f[2] == Hex(root)
    requires Numeric(f[3]) && Numeric(f[4]) && Numeric(f[5]) && Numeric(f[6])
    requires HexDigest(f[7]) && HexDigest(f[8]) && HexDigest(f[9]) && HexDigest(f[10]) && f[11] == Hex(identity)
    requires f[12] == Decimal(n) && f[13] == Decimal(m) && f[14] == "READ_ONLY" && f[15] == "NON_AUTHORIZING"
    requires n <= ENTRY_CAP && m <= ENTRY_CAP && n + m > 0 && ValidRoot(root)
    requires want.root == root && want.helperSha == f[9] && HeaderIdentity(f, want).Some?
    ensures HeaderOk(f, want) && ParseDecimal(f[12]) == n && ParseDecimal(f[13]) == m
  {
    hide PathOk, Numeric, HexDigest, Hex;
    RootAccepted(root);
    WordRoundTrip(n);
    WordRoundTrip(m);
    NumericCanonical(f[12]);
    NumericCanonical(f[13]);
  }

  lemma NumericCanonical(s: string)
    requires Numeric(s)
    ensures CanonicalDecimal(s)
  {
  }

  lemma HeaderFramed(f: Fields)
    requires |f| == 16 && |f[2]| <= 8192 && |f[11]| <= 1024 && AllPlain(f)
    requires forall i | 0 <= i < 16 && i != 2 && i != 11 :: |f[i]| <= 64
    ensures Framed(Join(f, TAB)) && AllAbove(f)
  {
    TotalBound(f[..2], 64);
    TotalBound(f[2..3], 8192);
    TotalBound(f[3..], 1024);
    TotalConcat(f[..2], f[2..3] + f[3..]);
    TotalConcat(f[2..3], f[3..]);
    assert f == f[..2] + (f[2..3] + f[3..]);
    JoinFramed(f);
    PlainAbove(f);
  }

  /** What main and the caller of the reader fix: a checked invocation, and an expectation that names it. */
  ghost predicate Launched(run: Run, root: ByteString, want: Expectation) {
    && HexDigest(run.nonce) && HexDigest(run.helperSha) && |run.identity| <= 512 && ValidRoot(root)
    && DigestForm(run.sha)
    && want.root == root && want.operation == run.nonce && want.helperSha == run.helperSha
    && want.sha == run.sha && LaunchedIdentity(run, want).Some?
  }

  /** The runtime that was launched, as the reader names it. */
  function LaunchedIdentity(run: Run, want: Expectation): Option<Identity> {
    IdentityOf(Hex(run.identity), run.sha(run.identity), run.helperSha, want.sha, want.bootstrap)
  }

  /** What the launcher of that runtime appends to the helper's report. */
  ghost predicate Appended(run: Run, want: Expectation, trailing: seq<string>)
    requires LaunchedIdentity(run, want).Some? {
    && TrailingOk(trailing, want.operation, LaunchedIdentity(run, want).value, run.sha(run.identity), want.sha,
      want.bootstrap)
    && forall i | 0 <= i < |trailing| :: Framed(trailing[i])
  }

  /** A report as it reaches the reader: with what the launcher appends, within the cap of the whole stream. */
  ghost predicate Delivered(run: Run, root: ByteString, want: Expectation, lines: seq<string>, trailing: seq<string>) {
    Launched(run, root, want) && Appended(run, want, trailing) && Size(lines + trailing) <= RAW_BYTE_CAP
  }

  /** A snapshot taken by that run. */
  ghost predicate TakenBy(run: Run, r: Result) {
    r.runtimeSha == run.helperSha && r.identitySha == run.sha(run.identity)
  }

  lemma HeaderAccepted(run: Run, root: ByteString, s1: Stat, s2: Stat, sha1: string, sha2: string, want: Expectation,
    n: nat, m: nat)
    requires Launched(run, root, want) && HexDigest(sha1) && HexDigest(sha2) && n <= ENTRY_CAP && m <= ENTRY_CAP
      && n + m > 0
    ensures var f := HeaderRow(run, root, s1, s2, sha1, sha2, n, m);
      && HeaderOk(f, want) && ParseDecimal(f[12]) == n && ParseDecimal(f[13]) == m
      && Framed(Join(f, TAB)) && Split(Join(f, TAB), TAB) == f
      && HeaderIdentity(f, want) == LaunchedIdentity(run, want) && f[10] == run.sha(run.identity)
  {
    var f := HeaderRow(run, root, s1, s2, sha1, sha2, n, m);
    HeaderParts(run, root, s1, s2, sha1, sha2, n, m);
    assert f[9] == run.helperSha && f[10] == run.sha(run.identity) && f[11] == Hex(run.identity);
    hide HeaderRow, Numeric, HexDigest, Split, Framed, HeaderOk, AllPlain, ValidRoot, Hex, Decimal, IdentityOf;
    HeaderRead(f, want, root, run.identity, n, m);
    HeaderFramed(f);
    RowSplits(f);
  }

  lemma HeaderParts(run: Run, root: ByteString, s1: Stat, s2: Stat, sha1: string, sha2: string, n: nat, m: nat)
    requires DigestForm(run.sha) && HexDigest(run.helperSha) && HexDigest(sha1) && HexDigest(sha2)
    requires |run.identity| <= 512 && n <= ENTRY_CAP && m <= ENTRY_CAP && |root| <= MAX_RELATIVE_BYTES
    ensures var f := HeaderRow(run, root, s1, s2, sha1, sha2, n, m);
      && f[0] == "DRIFT_DIAGNOSTIC" && f[1] == "SIGNED_DRIFT_DIAGNOSTIC_MODE_V1" && f[2] == Hex(root)
      && Numeric(f[3]) && Numeric(f[4]) && Numeric(f[5]) && Numeric(f[6]) && HexDigest(f[7]) && HexDigest(f[8])
      && f[9] == run.helperSha && HexDigest(f[9]) && f[10] == run.sha(run.identity) && HexDigest(f[10])
      && f[11] == Hex(run.identity)
      && f[12] == Decimal(n) && f[13] == Decimal(m) && f[14] == "READ_ONLY" && f[15] == "NON_AUTHORIZING"
      && |f[2]| <= 8192 && |f[11]| <= 1024 && AllPlain(f) && forall i | 0 <= i < 16 && i != 2 && i != 11 :: |f[i]| <= 64
  {
    hide Plain, Decimal, Hex, Numeric, HexText;
    HeaderWords();
    HeaderNumbers(s1);
    HeaderNumbers(s2);
    CountPlain(n);
    CountPlain(m);
    var f := HeaderRow(run, root, s1, s2, sha1, sha2, n, m);
    HexPlain(f[2]);
    HexPlain(f[7]);
    HexPlain(f[8]);
    HexPlain(f[9]);
    HexPlain(f[10]);
    HexPlain(f[11]);
  }

  lemma HeaderWords()
    ensures Plain("DRIFT_DIAGNOSTIC") && Plain("SIGNED_DRIFT_DIAGNOSTIC_MODE_V1") && Plain("READ_ONLY")
      && Plain("NON_AUTHORIZING")
  {
  }

  lemma HexPlain(s: string)
    requires HexText(s)
    ensures Plain(s)
  {
  }

  lemma CountPlain(n: nat)
    requires n <= MAX_U64
    ensures Numeric(Decimal(n)) && Plain(Decimal(n)) && |Decimal(n)| <= 20
  {
    WordRoundTrip(n);
    DecimalPlain(n);
    WordLength(n);
  }

  lemma HeaderNumbers(s: Stat)
    ensures Numeric(Decimal(s.dev)) && Plain(Decimal(s.dev)) && |Decimal(s.dev)| <= 20
    ensures Numeric(Decimal(s.ino)) && Plain(Decimal(s.ino)) && |Decimal(s.ino)| <= 20
  {
    CountPlain(s.dev);
    CountPlain(s.ino);
  }

  // ----- The stream of one run -----

  /** Two snapshots of one run: same root, runtime and identity. */
  ghost predicate OneRun(run: Run, r1: Result, r2: Result) {
    && Comparable(r1, r2) && DigestForm(run.sha) && TakenBy(run, r1) && TakenBy(run, r2) && r1.pin == r2.pin
  }

  lemma TextRead(run: Run, r: Result)
    requires ResultForm(r) && Readable(r) && DigestForm(run.sha)
    ensures Bindable(TextOf(run.sha, r)) && RootOf(TextOf(run.sha, r)) == RootFields(r.root, r.rootStat)
    ensures RuntimeOf(TextOf(run.sha, r)) == RuntimeFields(r.pin, r.runtimeSha, r.identitySha)
    ensures RowsIn(EntryRow, TextOf(run.sha, r)) == Some(EntryLines(r.root, r.rows))
    ensures RowsIn(IssueRow, TextOf(run.sha, r)) == Some(IssueLines(r.issues))
  {
    RootAndRuntime(run.sha, r);
    EntryStream(run.sha, r);
    IssueStream(run.sha, r);
    hide ResultForm, Readable, SnapshotLines, RowsIn, EntryLines, IssueLines, Bindable, RootOf, RuntimeOf;
  }

  /** The identity checks of diagnostic_delta never fail inside one run, and both texts can be read. */
  lemma OneRunReads(run: Run, r1: Result, r2: Result)
    requires OneRun(run, r1, r2)
    ensures Bindable(TextOf(run.sha, r1)) && Bindable(TextOf(run.sha, r2))
      && SameBinding(TextOf(run.sha, r1), TextOf(run.sha, r2), run.helperSha)
    ensures StreamsReadable(TextOf(run.sha, r1), TextOf(run.sha, r2))
    ensures EntryDeltas(TextOf(run.sha, r1), TextOf(run.sha, r2)) == RowDeltas(r1, r2)
    ensures IssueDeltas(TextOf(run.sha, r1), TextOf(run.sha, r2)) == IssueLineDeltas(r1, r2)
  {
    hide ResultForm, Readable, TextOf, RowsIn, Merge, EntryLines, IssueLines, Bindable, RootOf, RuntimeOf, Hex, Decimal,
      DigestForm;
    TextRead(run, r1);
    TextRead(run, r2);
  }

  lemma HeaderIs(run: Run, r1: Result, r2: Result, n: nat, m: nat)
    requires OneRun(run, r1, r2)
    ensures Bindable(TextOf(run.sha, r1)) && Bindable(TextOf(run.sha, r2))
    ensures HeaderFields(run, TextOf(run.sha, r1), TextOf(run.sha, r2), n, m) ==
      HeaderRow(run, r1.root, r1.rootStat, r2.rootStat, run.sha(Concat(TextOf(run.sha, r1))),
        run.sha(Concat(TextOf(run.sha, r2))), n, m)
  {
    hide ResultForm, Readable, TextOf, RowsIn, EntryLines, IssueLines, Bindable, RootOf, RuntimeOf, Hex, Decimal,
      DigestForm, Concat;
    TextRead(run, r1);
    TextRead(run, r2);
  }

  /** What the reader returns for a stream. */
  ghost predicate ReadsAs(lines: seq<string>, want: Expectation, root: ByteString, ds: seq<Delta>, us: seq<Delta>) {
    && RawPassOk(lines, want)
    && DeltasBack(root, DeltaRecords(SplitAll(DeltaPart(lines, want)))) == ds
    && IssuesBack(IssueRecords(SplitAll(IssuePart(lines, want)))) == us
  }

  lemma BlocksRead(want: Expectation, root: ByteString, header: Fields, a: seq<string>, b: seq<string>, c: seq<string>,
                   ds: seq<Delta>, us: seq<Delta>)
    requires |header| == 16 && HeaderOk(header, want) && ParseDecimal(header[12]) == |a|
      && ParseDecimal(header[13]) == |b|
    requires Split(Join(header, TAB), TAB) == header && Framed(Join(header, TAB))
      && Framed("CAPTURE_NONCE\t" + want.operation)
    requires AllFramed(a) && AllFramed(b) && AllFramed(c)
    requires DeltasOk(SplitAll(a)) && DeltasBack(root, DeltaRecords(SplitAll(a))) == ds
    requires IssuesOk(SplitAll(b)) && IssuesBack(IssueRecords(SplitAll(b))) == us
    requires TailFits(c, header, want)
    requires Size(["CAPTURE_NONCE\t" + want.operation, Join(header, TAB)] + a + b + c) <= RAW_BYTE_CAP
    ensures ReadsAs(["CAPTURE_NONCE\t" + want.operation, Join(header, TAB)] + a + b + c, want, root, ds, us)
  {
    var head := ["CAPTURE_NONCE\t" + want.operation, Join(header, TAB)];
    var lines := head + a + b + c;
    HeadRead(want, header, lines);
    hide HeaderOk, HeadOk, Framed, DeltaRecords, IssueRecords, DeltasOk, IssuesOk, SplitAll, DeltasBack, IssuesBack,
      Size, Join, Split, TailFits, DeltaPart, IssuePart, DeltaCount, IssueCount, TailOk;
    PartsRead(want, lines, head, a, b, c);
  }

  lemma HeadRead(want: Expectation, header: Fields, lines: seq<string>)
    requires |header| == 16 && HeaderOk(header, want)
    requires Split(Join(header, TAB), TAB) == header && Framed(Join(header, TAB))
      && Framed("CAPTURE_NONCE\t" + want.operation)
    requires |lines| >= 2 && lines[0] == "CAPTURE_NONCE\t" + want.operation && lines[1] == Join(header, TAB)
    ensures HeadOk(lines, want) && Split(lines[1], TAB) == header
    ensures CanonicalDecimal(header[12]) && DeltaCount(lines, want) == ParseDecimal(header[12])
    ensures CanonicalDecimal(header[13]) && IssueCount(lines, want) == ParseDecimal(header[13])
  {
    HeaderCounts(header, want);
    hide HeaderOk, Framed, Join, Split;
  }

  lemma PartsRead(want: Expectation, lines: seq<string>, head: seq<string>, a: seq<string>, b: seq<string>,
    c: seq<string>)
    requires HeadOk(lines, want) && DeltaCount(lines, want) == |a| && IssueCount(lines, want) == |b|
    requires |head| == 2 && lines == head + a + b + c && AllFramed(c) && TailFits(c, Split(lines[1], TAB), want)
      && Size(lines) <= RAW_BYTE_CAP
    ensures DeltaPart(lines, want) == a && IssuePart(lines, want) == b && TailOk(lines, want)
  {
    hide HeadOk, DeltaCount, IssueCount, AllFramed, TailFits, Size, Split;
    var n, m := |a|, |b|;
    assert lines[2..2 + n] == a && lines[2 + n..2 + n + m] == b && lines[2 + n + m..] == c;
    assert n == 0 ==> a == [];
    assert m == 0 ==> b == [];
  }

  lemma NonceFramed(nonce: string)
    requires HexDigest(nonce)
    ensures Framed("CAPTURE_NONCE\t" + nonce)
  {
  }

  /** The reader accepts what the helper prints about two snapshots of one run, and its records are the exact
      differences. */
  lemma StreamAccepted(run: Run, r1: Result, r2: Result, want: Expectation, trailing: seq<string>)
    requires OneRun(run, r1, r2) && Launched(run, r1.root, want) && Appended(run, want, trailing)
    requires Bindable(TextOf(run.sha, r1)) && Bindable(TextOf(run.sha, r2))
      && StreamsReadable(TextOf(run.sha, r1), TextOf(run.sha, r2))
    requires WithinCaps(run, TextOf(run.sha, r1), TextOf(run.sha, r2))
    requires Size(StreamLines(run, TextOf(run.sha, r1), TextOf(run.sha, r2)) + trailing) <= RAW_BYTE_CAP
    ensures ReadsAs(StreamLines(run, TextOf(run.sha, r1), TextOf(run.sha, r2)) + trailing, want, r1.root,
      RowDeltas(r1, r2),
              IssueLineDeltas(r1, r2))
  {
    var first, second, ds, us := TextOf(run.sha, r1), TextOf(run.sha, r2), RowDeltas(r1, r2), IssueLineDeltas(r1, r2);
    OneRunReads(run, r1, r2);
    HeaderIs(run, r1, r2, |ds|, |us|);
    StreamIs(run, first, second);
    DeltasAccepted(r1, r2);
    IssuesAccepted(r1, r2);
    NonceFramed(run.nonce);
    CapsAre(run, first, second);
    var sha1, sha2 := run.sha(Concat(first)), run.sha(Concat(second));
    assert HexDigest(sha1) && HexDigest(sha2);
    HeaderAccepted(run, r1.root, r1.rootStat, r2.rootStat, sha1, sha2, want, |ds|, |us|);
    assert want.operation == run.nonce;
    assert NonceLine(run) == "CAPTURE_NONCE\t" + want.operation;
    hide *;
    BlocksRead(want, r1.root, HeaderRow(run, r1.root, r1.rootStat, r2.rootStat, sha1, sha2, |ds|, |us|), DriftLines(ds),
      DriftIssueLines(us),
               trailing, ds, us);
  }

  lemma CapsAre(run: Run, first: seq<string>, second: seq<string>)
    requires Bindable(first) && Bindable(second) && StreamsReadable(first, second) && WithinCaps(run, first, second)
    ensures var ds, us := EntryDeltas(first, second), IssueDeltas(first, second);
      |ds| <= ENTRY_CAP && |us| <= ENTRY_CAP && |ds| + |us| > 0 && Size(StreamLines(run, first, second)) <= RAW_BYTE_CAP
  {
    hide EntryDeltas, IssueDeltas, StreamLines, Size;
  }

  // ----- What the records are worth -----

  /** Patching the rows of the first snapshot with what the reader extracted gives the rows of the second. */
  lemma ReportPatches(r1: Result, r2: Result)
    requires Comparable(r1, r2)
    ensures Patch(EntryRow, EntryLines(r1.root, r1.rows), RowDeltas(r1, r2)) == EntryLines(r2.root, r2.rows)
    ensures Patch(IssueRow, IssueLines(r1.issues), IssueLineDeltas(r1, r2)) == IssueLines(r2.issues)
  {
    RowsAscend(r1, r2);
    hide ResultForm, Readable, Patch, Merge, RowKey, DeltaKey, Ascending, EntryLines, IssueLines;
    PatchRestores(EntryRow, EntryLines(r1.root, r1.rows), EntryLines(r2.root, r2.rows));
    PatchRestores(IssueRow, IssueLines(r1.issues), IssueLines(r2.issues));
  }

  lemma RootRowFrom(root: ByteString, a: Entry, b: Entry)
    requires EntryForm(a) && EntryForm(b) && EntryFields(root, a) == EntryFields(root, b)
    ensures RootFields(root, a.stat) == RootFields(root, b.stat)
  {
    hide Decimal, SignedDecimal, Hex, Octal, KindName;
    var f, g := EntryFields(root, a), EntryFields(root, b);
    assert f[5] == g[5] && f[6] == g[6] && f[7] == g[7] && f[8] == g[8] && f[9] == g[9] && f[10] == g[10]
      && f[11] == g[11] && f[12] == g[12];
  }

  lemma SameFields(root: ByteString, a: seq<Entry>, b: seq<Entry>)
    requires (forall i | 0 <= i < |a| :: EntryForm(a[i])) && (forall i | 0 <= i < |b| :: EntryForm(b[i]))
    requires EntryLines(root, a) == EntryLines(root, b)
    ensures |a| == |b| && forall i | 0 <= i < |a| :: EntryFields(root, a[i]) == EntryFields(root, b[i])
  {
    EntryTags(root, a);
    EntryTags(root, b);
    hide EntryForm, EntryFields, Split, EntryLines;
    assert |EntryLines(root, a)| == |EntryLines(root, b)|;
    forall i | 0 <= i < |a| ensures EntryFields(root, a[i]) == EntryFields(root, b[i]) {
      assert Split(EntryLines(root, a)[i], TAB) == Split(EntryLines(root, b)[i], TAB);
    }
  }

  lemma SameCounters(root: ByteString, a: seq<Entry>, b: seq<Entry>)
    requires (forall i | 0 <= i < |a| :: EntryForm(a[i])) && (forall i | 0 <= i < |b| :: EntryForm(b[i])) && |a| == |b|
    requires forall i | 0 <= i < |a| :: EntryFields(root, a[i]) == EntryFields(root, b[i])
    ensures CountersOf(a) == CountersOf(b)
  {
    hide EntryForm, CountersOf, Derived, EntryFields;
    var fields := seq(|a|, i requires 0 <= i < |a| => EntryFields(root, a[i]));
    CountsAgree(root, a, fields, []);
    CountsAgree(root, b, fields, []);
    var c, d, v := CountersOf(a), CountersOf(b), Derived(fields, []);
    assert v[0] == c.entries == d.entries && v[1] == c.directories == d.directories && v[2] == c.files == d.files;
    assert v[3] == c.hashed == d.hashed && v[4] == c.hashedBytes == d.hashedBytes && v[5] == c.uploads == d.uploads;
    assert v[6] == c.other == d.other;
  }

  /** Equal rows have equal counters and equal root states. */
  lemma SameSummary(r1: Result, r2: Result)
    requires Comparable(r1, r2) && EntryLines(r1.root, r1.rows) == EntryLines(r2.root, r2.rows)
    ensures CountersOf(r1.rows) == CountersOf(r2.rows)
      && RootFields(r1.root, r1.rootStat) == RootFields(r2.root, r2.rootStat)
  {
    hide EntryForm, IssueForm, Covered, CountersOf, RootFields, EntryLines, Ascending, PinForm, ShortPath, EntryFields,
      DistinctPaths;
    SameFields(r1.root, r1.rows, r2.rows);
    SameCounters(r1.root, r1.rows, r2.rows);
    SameRoot(r1, r2);
  }

  lemma SameRoot(r1: Result, r2: Result)
    requires Comparable(r1, r2) && |r1.rows| == |r2.rows|
    requires forall i | 0 <= i < |r1.rows| :: EntryFields(r1.root, r1.rows[i]) == EntryFields(r1.root, r2.rows[i])
    ensures RootFields(r1.root, r1.rootStat) == RootFields(r2.root, r2.rootStat)
  {
    hide EntryForm, IssueForm, Covered, RootFields, EntryLines, Ascending, PinForm, ShortPath, Readable, EntryFields;
    var i :| 0 <= i < |r1.rows| && r1.rows[i].path == [] && r1.rows[i].stat == r1.rootStat;
    var j :| 0 <= j < |r2.rows| && r2.rows[j].path == [] && r2.rows[j].stat == r2.rootStat;
    SamePath(r1.root, r1.rows[i], r2.rows[i]);
    assert i == j;
    RootRowFrom(r1.root, r1.rows[i], r2.rows[j]);
  }

  lemma SamePath(root: ByteString, a: Entry, b: Entry)
    requires EntryForm(a) && EntryForm(b) && EntryFields(root, a) == EntryFields(root, b)
    ensures a.path == b.path
  {
    hide Hex, Decimal, SignedDecimal, Octal;
    assert EntryFields(root, a)[1] == EntryFields(root, b)[1];
    RelativeBytes(a.path);
    RelativeBytes(b.path);
    HexInjective(Relative(a.path), Relative(b.path));
    RelativeInjective(a.path, b.path);
  }

  lemma {:induction false} MergeSame(t: RowType, a: seq<string>)
    ensures Merge(t, a, a) == []
  {
    hide RowKey, Less;
    if |a| > 0 { MergeSame(t, a[1..]); }
  }

  lemma SameText(run: Run, r1: Result, r2: Result)
    requires OneRun(run, r1, r2) && r1.seconds == r2.seconds
    requires EntryLines(r1.root, r1.rows) == EntryLines(r2.root, r2.rows)
      && IssueLines(r1.issues) == IssueLines(r2.issues)
    ensures TextOf(run.sha, r1) == TextOf(run.sha, r2)
  {
    SameSummary(r1, r2);
    Parts(run.sha, r1);
    Parts(run.sha, r2);
    assert (r1.complete <==> r1.issues == []) && (r2.complete <==> r2.issues == []);
    hide ResultForm, Readable, EntryLines, IssueLines, EntryForm, IssueForm, CountersOf, RootFields, RuntimeFields,
      SummaryFields, TextOf, Concat, Join;
    assert |IssueLines(r1.issues)| == |IssueLines(r2.issues)|;
    assert Bindings(run.sha, r1) == Bindings(run.sha, r2);
  }

  /** Two snapshots of one run are the same text exactly when there is nothing to report. */
  lemma MismatchExplained(run: Run, r1: Result, r2: Result)
    requires OneRun(run, r1, r2) && r1.seconds == r2.seconds
    ensures RowDeltas(r1, r2) == [] && IssueLineDeltas(r1, r2) == [] <==> TextOf(run.sha, r1) == TextOf(run.sha, r2)
  {
    if RowDeltas(r1, r2) == [] && IssueLineDeltas(r1, r2) == [] {
      ReportPatches(r1, r2);
      assert Patch(EntryRow, EntryLines(r1.root, r1.rows), []) == EntryLines(r1.root, r1.rows);
      assert Patch(IssueRow, IssueLines(r1.issues), []) == IssueLines(r1.issues);
      SameText(run, r1, r2);
    }
    if TextOf(run.sha, r1) == TextOf(run.sha, r2) {
      EntryFilter(run.sha, r1);
      EntryFilter(run.sha, r2);
      IssueFilter(run.sha, r1);
      IssueFilter(run.sha, r2);
      MergeSame(EntryRow, EntryLines(r1.root, r1.rows));
      MergeSame(IssueRow, IssueLines(r1.issues));
    }
  }

  /** The differences of two snapshots of one run can be collected. */
  ghost predicate Gathered(r1: Result, r2: Result) requires Comparable(r1, r2) {
    DeltasAccepted(r1, r2);
    IssuesAccepted(r1, r2);
    Collectable(DriftLines(RowDeltas(r1, r2))) && Collectable(DriftIssueLines(IssueLineDeltas(r1, r2)))
  }

  /** They always can when no printed difference is longer than 313 bytes. */
  lemma ShortGathered(r1: Result, r2: Result)
    requires Comparable(r1, r2)
    requires forall i | 0 <= i < |RowDeltas(r1, r2)| ::
      EntryDelta(RowDeltas(r1, r2)[i]) && |DriftLine(RowDeltas(r1, r2)[i])| < 314
    requires forall i | 0 <= i < |IssueLineDeltas(r1, r2)| ::
      IssueDelta(IssueLineDeltas(r1, r2)[i]) && |DriftIssueLine(IssueLineDeltas(r1, r2)[i])| < 314
    ensures Gathered(r1, r2)
  {
    var ds, us := RowDeltas(r1, r2), IssueLineDeltas(r1, r2);
    assert forall i | 0 <= i < |ds| :: |DriftLines(ds)[i]| < 314;
    assert forall i | 0 <= i < |us| :: |DriftIssueLines(us)[i]| < 314;
    hide *;
    DeltaCounts(r1, r2);
    ShortLines(DriftLines(ds));
    ShortLines(DriftIssueLines(us));
    GatheredIs(r1, r2);
  }

  lemma DeltaCounts(r1: Result, r2: Result)
    requires Comparable(r1, r2)
    ensures |RowDeltas(r1, r2)| <= 400000 && |IssueLineDeltas(r1, r2)| <= 400000
  {
    MergeCount(EntryRow, EntryLines(r1.root, r1.rows), EntryLines(r2.root, r2.rows));
    MergeCount(IssueRow, IssueLines(r1.issues), IssueLines(r2.issues));
    hide Merge, EntryForm, IssueForm, Covered, EntryLine, IssueLine, Ascending, DistinctPaths;
  }

  lemma ShortLines(lines: seq<string>)
    requires |lines| <= 400000 && forall i | 0 <= i < |lines| :: |lines[i]| < 314
    ensures Collectable(lines)
  {
    ShortCollectable(lines, 314);
    hide Size;
  }

  lemma GatheredIs(r1: Result, r2: Result)
    requires Comparable(r1, r2)
    ensures forall i | 0 <= i < |RowDeltas(r1, r2)| :: EntryDelta(RowDeltas(r1, r2)[i])
    ensures forall i | 0 <= i < |IssueLineDeltas(r1, r2)| :: IssueDelta(IssueLineDeltas(r1, r2)[i])
    ensures Gathered(r1, r2) <==>
      Collectable(DriftLines(RowDeltas(r1, r2))) && Collectable(DriftIssueLines(IssueLineDeltas(r1, r2)))
  {
    hide RowDeltas, IssueLineDeltas, Comparable, Collectable, DriftLines, DriftIssueLines, EntryDelta, IssueDelta;
    DeltasAccepted(r1, r2);
    IssuesAccepted(r1, r2);
  }

  /** Between two different snapshots of one run, the helper finds the mismatch not fully explainable exactly when it could
      collect the differences and has more than 200000 records of one kind; never because it has none. */
  lemma UnexplainedIff(run: Run, r1: Result, r2: Result)
    requires OneRun(run, r1, r2) && r1.seconds == r2.seconds && TextOf(run.sha, r1) != TextOf(run.sha, r2)
    ensures !Explainable(|RowDeltas(r1, r2)|, |IssueLineDeltas(r1, r2)|) <==>
      |RowDeltas(r1, r2)| > ENTRY_CAP || |IssueLineDeltas(r1, r2)| > ENTRY_CAP
    ensures Unexplained(run, TextOf(run.sha, r1), TextOf(run.sha, r2)) <==>
      Gathered(r1, r2) && (|RowDeltas(r1, r2)| > ENTRY_CAP || |IssueLineDeltas(r1, r2)| > ENTRY_CAP)
  {
    MismatchExplained(run, r1, r2);
    UnexplainedIs(run, r1, r2);
    hide RowDeltas, IssueLineDeltas, TextOf, OneRun, Unexplained, Gathered, Comparable;
  }

  /** The helper's condition on the two texts, as one on the two walks. */
  lemma UnexplainedIs(run: Run, r1: Result, r2: Result)
    requires OneRun(run, r1, r2)
    ensures Unexplained(run, TextOf(run.sha, r1), TextOf(run.sha, r2)) <==>
      && TextOf(run.sha, r1) != TextOf(run.sha, r2) && Gathered(r1, r2)
      && !Explainable(|RowDeltas(r1, r2)|, |IssueLineDeltas(r1, r2)|)
  {
    OneRunReads(run, r1, r2);
    GatheredIs(r1, r2);
    hide RowDeltas, IssueLineDeltas, TextOf, OneRun, EntryDeltas, IssueDeltas, DriftLines, DriftIssueLines, SameBinding,
      Bindable, StreamsReadable, Collectable, Comparable, Gathered, Explainable;
  }

  /** It cannot happen while the rows of both snapshots together, and their issues together, are within the cap. */
  lemma FewAreExplained(run: Run, r1: Result, r2: Result)
    requires OneRun(run, r1, r2) && r1.seconds == r2.seconds && TextOf(run.sha, r1) != TextOf(run.sha, r2)
    requires |r1.rows| + |r2.rows| <= ENTRY_CAP && |r1.issues| + |r2.issues| <= ENTRY_CAP
    ensures Explainable(|RowDeltas(r1, r2)|, |IssueLineDeltas(r1, r2)|)
  {
    UnexplainedIff(run, r1, r2);
    MergeCount(EntryRow, EntryLines(r1.root, r1.rows), EntryLines(r2.root, r2.rows));
    MergeCount(IssueRow, IssueLines(r1.issues), IssueLines(r2.issues));
  }

  ghost predicate OnlyRootShared(r1: Result, r2: Result) {
    forall e, g | e in r1.rows && g in r2.rows && e.path == g.path :: e.path == []
  }

  /** The counts are beyond it when the rows are more than that and no path but the root is in both; the helper then dies
      there, or before that with the byte cap while it collects the differences. */
  lemma ManyAreUnexplained(run: Run, r1: Result, r2: Result)
    requires OneRun(run, r1, r2) && |r1.rows| + |r2.rows| > ENTRY_CAP + 2 && OnlyRootShared(r1, r2)
    ensures !Explainable(|RowDeltas(r1, r2)|, |IssueLineDeltas(r1, r2)|)
    ensures TextOf(run.sha, r1) != TextOf(run.sha, r2)
    ensures Unexplained(run, TextOf(run.sha, r1), TextOf(run.sha, r2)) <==> Gathered(r1, r2)
  {
    TailsApart(r1, r2);
    MergeAfterFirst(EntryRow, EntryLines(r1.root, r1.rows), EntryLines(r2.root, r2.rows));
    Counts(r1, r2);
    OneRunReads(run, r1, r2);
    UnexplainedIs(run, r1, r2);
    hide RowDeltas, IssueLineDeltas, OneRun, DriftLines, DriftIssueLines, SameBinding, Bindable, StreamsReadable,
      Collectable, Comparable, Gathered, Unexplained;
    if TextOf(run.sha, r1) == TextOf(run.sha, r2) { SameNothing(TextOf(run.sha, r1)); }
  }

  lemma SameNothing(text: seq<string>)
    requires StreamsReadable(text, text)
    ensures EntryDeltas(text, text) == []
  {
    hide RowsIn, Merge;
    MergeSame(EntryRow, RowsIn(EntryRow, text).value);
  }

  lemma Counts(r1: Result, r2: Result)
    requires Comparable(r1, r2) && |EntryLines(r1.root, r1.rows)| == |r1.rows|
      && |EntryLines(r2.root, r2.rows)| == |r2.rows|
    requires |Merge(EntryRow, EntryLines(r1.root, r1.rows), EntryLines(r2.root, r2.rows))| > ENTRY_CAP
    ensures !Explainable(|RowDeltas(r1, r2)|, |IssueLineDeltas(r1, r2)|)
  {
    hide Comparable, EntryLines, IssueLines, Merge;
  }

  lemma TailsApart(r1: Result, r2: Result)
    requires Comparable(r1, r2)
    requires OnlyRootShared(r1, r2)
    ensures var a, b := EntryLines(r1.root, r1.rows), EntryLines(r2.root, r2.rows);
      && |a| == |r1.rows| > 0 && |b| == |r2.rows| > 0 && RowKey(EntryRow)(a[0]) == RowKey(EntryRow)(b[0])
      && forall x, y | x in a[1..] && y in b[1..] :: RowKey(EntryRow)(x) != RowKey(EntryRow)(y)
  {
    var a, b := EntryLines(r1.root, r1.rows), EntryLines(r2.root, r2.rows);
    RootFirst(r1);
    RootFirst(r2);
    KeysArePaths(r1);
    KeysArePaths(r2);
    assert RowKey(EntryRow)(a[0]) == RowKey(EntryRow)(b[0]);
    hide *;
    forall x, y | x in a[1..] && y in b[1..] ensures RowKey(EntryRow)(x) != RowKey(EntryRow)(y) {
      TailPair(r1, r2, x, y);
    }
  }

  lemma TailPair(r1: Result, r2: Result, x: string, y: string)
    requires Comparable(r1, r2) && OnlyRootShared(r1, r2) && |EntryLines(r1.root, r1.rows)| > 0
      && |EntryLines(r2.root, r2.rows)| > 0
    requires x in EntryLines(r1.root, r1.rows)[1..] && y in EntryLines(r2.root, r2.rows)[1..]
    ensures RowKey(EntryRow)(x) != RowKey(EntryRow)(y)
  {
    KeysArePaths(r1);
    KeysArePaths(r2);
    assert ResultForm(r1) && ResultForm(r2);
    hide *;
    var i := TailIndex(EntryLines(r1.root, r1.rows), x);
    var j := TailIndex(EntryLines(r2.root, r2.rows), y);
    RowsApart(r1, r2, i, j);
  }

  lemma TailIndex(a: seq<string>, x: string) returns (i: nat)
    requires |a| > 0 && x in a[1..]
    ensures 0 < i < |a| && a[i] == x
  {
    i :| 0 < i < |a| && a[i] == x;
  }

  /** The root sorts first. */
  lemma RootFirst(r: Result)
    requires ResultForm(r)
    ensures |r.rows| > 0 && r.rows[0].path == []
  {
    var i :| 0 <= i < |r.rows| && r.rows[i].path == [];
    assert Relative([]) == "";
    hide EntryForm, EntryLine, Covered, IssueForm, PinForm;
    if r.rows[0].path != [] {
      EntryLineOrder(r.root, r.rows[0], r.rows[i]);
    }
  }

  lemma KeysArePaths(r: Result)
    requires ResultForm(r) && Readable(r)
    ensures |EntryLines(r.root, r.rows)| == |r.rows|
    ensures forall i | 0 <= i < |r.rows| ::
      SafePath(r.rows[i].path) && RowKey(EntryRow)(EntryLines(r.root, r.rows)[i]) == PathHex(r.rows[i].path)
  {
    hide RowForm, RowKey, EntryLine, ShortPath, Covered, IssueForm, PinForm;
    forall i | 0 <= i < |r.rows|
      ensures SafePath(r.rows[i].path) && RowKey(EntryRow)(EntryLines(r.root, r.rows)[i]) == PathHex(r.rows[i].path)
    {
      EntryRowForm(r.root, r.rows[i]);
    }
  }

  lemma RowsApart(r1: Result, r2: Result, i: nat, j: nat)
    requires ResultForm(r1) && ResultForm(r2) && 0 < i < |r1.rows| && 0 < j < |r2.rows|
    requires OnlyRootShared(r1, r2)
    requires SafePath(r1.rows[i].path) && SafePath(r2.rows[j].path)
    ensures PathHex(r1.rows[i].path) != PathHex(r2.rows[j].path)
  {
    RootFirst(r1);
    var e, g := r1.rows[i], r2.rows[j];
    assert DistinctPaths(r1.rows);
    hide EntryForm, Covered, IssueForm, PinForm, SafePath;
    assert r1.rows[0].path != e.path && e in r1.rows && g in r2.rows;
    if PathHex(e.path) == PathHex(g.path) {
      RelativeBytes(e.path);
      RelativeBytes(g.path);
      HexInjective(Relative(e.path), Relative(g.path));
      RelativeInjective(e.path, g.path);
    }
  }

  // ----- The whole mode -----

  predicate ShortPin(pin: Pin) { |pin.mode| < 1025 && 2 * |pin.path| < 1025 }

  /** Streams that could be read were made of paths and counts within the caps. */
  lemma LiveReadable(sha: string -> string, r: Result)
    requires ResultForm(r) && DigestForm(sha) && |r.root| <= MAX_RELATIVE_BYTES && ShortPin(r.pin)
    requires RowsIn(EntryRow, TextOf(sha, r)).Some? && RowsIn(IssueRow, TextOf(sha, r)).Some?
    ensures Readable(r)
  {
    EntryStream(sha, r);
    IssueStream(sha, r);
    hide TextOf, RowsIn, EntryForm, IssueForm, Covered, Ascending, DistinctPaths, ShortPath, EntryLines, IssueLines;
  }

  /** The diagnostic mode of main: two walks of a tree that may change between and during them, and their printed
      difference. Whenever it prints, the reader accepts the text and extracts the exact difference. */
  method Diagnose(run: Run, world1: World, world2: World, pin: Pin, root: ByteString, seconds: nat)
    returns (alive: bool, lines: seq<string>, r1: Result, r2: Result)
    requires WorldForm(world1) && WorldForm(world2) && world1.sha == run.sha && world2.sha == run.sha
    requires PinForm(pin) && ShortPin(pin) && ValidRoot(root) && HexDigest(run.helperSha)
    ensures alive ==> OneRun(run, r1, r2) && r1.root == root
    ensures alive ==> Size(lines) <= RAW_BYTE_CAP && forall want,
      trailing | Delivered(run, root, want, lines, trailing) ::
      ReadsAs(lines + trailing, want, root, RowDeltas(r1, r2), IssueLineDeltas(r1, r2))
    ensures alive ==>
      && Patch(EntryRow, EntryLines(root, r1.rows), RowDeltas(r1, r2)) == EntryLines(root, r2.rows)
      && Patch(IssueRow, IssueLines(r1.issues), IssueLineDeltas(r1, r2)) == IssueLines(r2.issues)
  {
    var text1, text2;
    lines := [];
    alive, r1, text1 := TakeSnapshot(world1, pin, root, run.helperSha, run.identity, seconds);
    r2 := r1;
    if !alive { return; }
    alive, r2, text2 := TakeSnapshot(world2, pin, root, run.helperSha, run.identity, seconds);
    if !alive { return; }
    var ending;
    alive, lines, ending := DiagnosticDelta(run, text1, text2);
    if alive { Diagnosed(run, r1, r2, text1, text2, lines); }
  }

  lemma Diagnosed(run: Run, r1: Result, r2: Result, text1: seq<string>, text2: seq<string>, lines: seq<string>)
    requires ResultForm(r1) && ResultForm(r2) && DigestForm(run.sha) && TakenBy(run, r1) && TakenBy(run, r2)
    requires r1.pin == r2.pin && ShortPin(r1.pin) && r1.root == r2.root && ValidRoot(r1.root)
    requires text1 == TextOf(run.sha, r1) && text2 == TextOf(run.sha, r2)
    requires SameBinding(text1, text2, run.helperSha) && StreamsReadable(text1, text2) && WithinCaps(run, text1, text2)
    requires lines == StreamLines(run, text1, text2)
    ensures OneRun(run, r1, r2)
    ensures Size(lines) <= RAW_BYTE_CAP && forall want, trailing | Delivered(run, r1.root, want, lines, trailing) ::
      ReadsAs(lines + trailing, want, r1.root, RowDeltas(r1, r2), IssueLineDeltas(r1, r2))
    ensures Patch(EntryRow, EntryLines(r1.root, r1.rows), RowDeltas(r1, r2)) == EntryLines(r1.root, r2.rows)
    ensures Patch(IssueRow, IssueLines(r1.issues), IssueLineDeltas(r1, r2)) == IssueLines(r2.issues)
  {
    StreamsAre(text1, text2);
    LiveReadable(run.sha, r1);
    LiveReadable(run.sha, r2);
    hide ResultForm, Readable, TextOf, RowsIn, Merge, EntryLines, IssueLines, Bindable, RootOf, RuntimeOf, DigestForm,
      StreamLines, WithinCaps, StreamsReadable, ReadsAs, SameBinding, Patch, Launched, Appended, EntryDeltas,
      IssueDeltas;
    ReportPatches(r1, r2);
    CapsAre(run, text1, text2);
    forall want, trailing | Delivered(run, r1.root, want, lines, trailing)
      ensures ReadsAs(lines + trailing, want, r1.root, RowDeltas(r1, r2), IssueLineDeltas(r1, r2))
    {
      StreamAccepted(run, r1, r2, want, trailing);
    }
  }
}
