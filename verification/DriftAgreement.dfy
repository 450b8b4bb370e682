/** What the diagnostic helper prints is accepted by parse_raw_pass, and what that reader extracts turns
    the first snapshot into the second. */
module DriftAgreement {
  import opened Text
  import opened Records
  import opened Sorting
  import opened Walk
  import opened Inventory
  import opened Agreement
  import opened Drift
  import opened Diagnostic
  import opened RawPass
  import opened Streams

  // ----- One side of one difference -----

  /** What the reader makes of an entry. */
  function StateOf(e: Entry): PassState requires EntryForm(e) {
    var s := e.stat;
    PassState(KindName(s.kind), s.dev, s.ino, s.size, Octal(s.mode), s.uid, s.gid, s.nlink, s.mtime, s.ctime, e.hash,
              if e.target.Some? then Some(Hex(e.target.value)) else None, HasUploads(e.path))
  }

  lemma WordRoundTrip(n: nat)
    requires n <= MAX_U64
    ensures Numeric(Decimal(n)) && ParseDecimal(Decimal(n)) == n
  {
    DecimalRoundTrip(n);
  }

  lemma TimeRoundTrip(n: int)
    requires -MAX_I64 - 1 <= n <= MAX_I64
    ensures SignedNumeric(SignedDecimal(n)) && ParseSigned(SignedDecimal(n)) == n
  {
    SignedRoundTrip(n);
  }

  lemma DigestNoDash(s: string)
    requires HexDigest(s) || HexText(s)
    ensures s != "-"
  {
  }

  /** The thirteen printed values of an entry are read back as that entry's state. */
  lemma ColumnsRead(root: ByteString, e: Entry)
    requires EntryForm(e)
    ensures var c := Columns(Some(EntryFields(root, e)));
      PassStateOk(c, true) && PassStateOf(c, true) == Some(StateOf(e))
  {
    hide Decimal, SignedDecimal, Hex, Octal, KindName, Numeric, SignedNumeric, ParseDecimal, ParseSigned, HexText,
      HexDigest, ModeText;
    var s, c := e.stat, Columns(Some(EntryFields(root, e)));
    KindNamed(s.kind);
    SymlinkNamed(s.kind);
    OctalRoundTrip(s.mode);
    WordRoundTrip(s.dev);
    WordRoundTrip(s.ino);
    WordRoundTrip(s.size);
    WordRoundTrip(s.uid);
    WordRoundTrip(s.gid);
    WordRoundTrip(s.nlink);
    TimeRoundTrip(s.mtime);
    TimeRoundTrip(s.ctime);
    if e.hash.Some? { DigestNoDash(e.hash.value); }
    if e.target.Some? { DigestNoDash(Hex(e.target.value)); }
    assert c[10] == OrDash(e.hash) && c[11] == TargetText(e) && c[12] == Flag(HasUploads(e.path));
  }

  lemma SymlinkNamed(k: Kind)
    ensures KindName(k) == "SYMLINK" <==> k == SYMLINK
  {
    assert "REGULAR"[0] == 'R' && "DIRECTORY"[0] == 'D' && "SYMLINK"[1] == 'Y' && "BLOCK_DEVICE"[0] == 'B';
    assert "CHAR_DEVICE"[0] == 'C' && "FIFO"[0] == 'F' && "SOCKET"[1] == 'O' && "OTHER"[0] == 'O';
  }

  /** The row text a state stands for, at a path below a root. */
  function RowText(root: ByteString, path: string, s: PassState): string
    requires HexText(path)
  {
    var raw := Unhex(path);
    Join(["ENTRY", path, Hex(if raw == "" then root else root + "/" + raw), s.kind, Decimal(s.size), s.mode,
      Decimal(s.uid),
          Decimal(s.gid), SignedDecimal(s.mtime), SignedDecimal(s.ctime), Decimal(s.device), Decimal(s.inode),
            Decimal(s.nlink),
          OrDash(s.target), OrDash(s.sha), Flag(s.uploads)], TAB)
  }

  /** Nothing a row says is lost in its state. */
  lemma RowTextRestores(root: ByteString, e: Entry)
    requires EntryForm(e)
    ensures RowText(root, PathHex(e.path), StateOf(e)) == EntryLine(root, e)
  {
    hide Hex, Unhex, Decimal, SignedDecimal, Join;
    RelativeBytes(e.path);
    UnhexHex(Relative(e.path));
    AbsoluteBytes(root, e.path);
    AbsoluteAgrees(root, e.path);
  }

  /** Two objects of one path with one state have one row. */
  lemma StateDetermines(root: ByteString, a: Entry, b: Entry)
    requires EntryForm(a) && EntryForm(b) && PathHex(a.path) == PathHex(b.path) && StateOf(a) == StateOf(b)
    ensures EntryLine(root, a) == EntryLine(root, b)
  {
    hide StateOf, EntryLine, RowText;
    RowTextRestores(root, a);
    RowTextRestores(root, b);
  }

  // ----- One difference -----

  /** A side of a difference of two snapshots: absent, or the row of an entry. */
  ghost predicate SideOf(root: ByteString, side: Option<string>, e: Option<Entry>) {
    && (side.Some? <==> e.Some?)
    && (e.Some? ==> EntryForm(e.value) && side.value == EntryLine(root, e.value))
  }

  function StateOption(e: Option<Entry>): Option<PassState> requires e.Some? ==> EntryForm(e.value) {
    if e.None? then None else Some(StateOf(e.value))
  }

  lemma SideRead(root: ByteString, side: Option<string>, e: Option<Entry>)
    requires SideOf(root, side, e)
    ensures SplitRow(side) == if e.None? then None else Some(EntryFields(root, e.value))
    ensures var c := Columns(SplitRow(side));
      PassStateOk(c, e.Some?) && PassStateOf(c, e.Some?) == StateOption(e)
  {
    if e.Some? {
      EntryLineSplits(root, e.value);
      ColumnsRead(root, e.value);
    }
  }

  lemma PathAccepted(p: Path)
    requires SafePath(p) && ShortPath(p)
    ensures PathOk(PathHex(p), false) && Unhex(PathHex(p)) == Relative(p)
  {
    hide Hex, Unhex, Split;
    RelativeHexOk(p);
    RelativeBytes(p);
    if |p| > 0 {
      RelativeSplits(p);
      assert SafeComponent(p[0]);
      assert Relative(p)[0] == p[0][0];
    }
  }

  /** Both programs classify a change alike. */
  lemma ChangeAgrees(root: ByteString, a: Option<Entry>, b: Option<Entry>)
    requires a.Some? ==> EntryForm(a.value)
    requires b.Some? ==> EntryForm(b.value)
    ensures Change(if a.None? then None else Some(EntryFields(root, a.value)), if b.None? then None else Some(EntryFields(root, b.value)))
            == ExpectedChange(StateOption(a), StateOption(b))
  {
    hide Decimal, SignedDecimal, Hex, Octal, KindName;
    if a.Some? && b.Some? {
      DecimalRoundTrip(a.value.stat.dev);
      DecimalRoundTrip(b.value.stat.dev);
      DecimalRoundTrip(a.value.stat.ino);
      DecimalRoundTrip(b.value.stat.ino);
    }
  }

  function PathOf(a: Option<Entry>, b: Option<Entry>): Path
    requires a.Some? || b.Some?
  {
    if a.Some? then a.value.path else b.value.path
  }

  ghost predicate TrueDelta(root: ByteString, d: Delta, a: Option<Entry>, b: Option<Entry>) {
    && (a.Some? || b.Some?) && d.left != d.right
    && SideOf(root, d.left, a) && SideOf(root, d.right, b)
    && (a.Some? && b.Some? ==> a.value.path == b.value.path)
  }

  lemma DriftFieldsAre(root: ByteString, d: Delta, a: Option<Entry>, b: Option<Entry>)
    requires TrueDelta(root, d, a, b)
    ensures EntryDelta(d)
    ensures DriftFields(d) ==
      ["DRIFT", PathHex(PathOf(a, b)), ExpectedChange(StateOption(a), StateOption(b)), Truth(a.Some?), Truth(b.Some?)]
      + Columns(SplitRow(d.left)) + Columns(SplitRow(d.right))
  {
    SideRead(root, d.left, a);
    SideRead(root, d.right, b);
    ChangeAgrees(root, a, b);
    hide Columns, Change, ExpectedChange, StateOf, EntryLine, Split, EntryForm;
    assert a.Some? ==> EntryFields(root, a.value)[1] == PathHex(a.value.path);
    assert b.Some? ==> EntryFields(root, b.value)[1] == PathHex(b.value.path);
  }

  /** A row put together from two readable sides. */
  function DriftRow(path: string, pass1: Option<PassState>, pass2: Option<PassState>, left: Fields,
    right: Fields): Fields {
    ["DRIFT", path, ExpectedChange(pass1, pass2), Truth(pass1.Some?), Truth(pass2.Some?)] + left + right
  }

  lemma RowAccepted(path: string, pass1: Option<PassState>, pass2: Option<PassState>, left: Fields, right: Fields)
    requires PathOk(path, false) && (pass1.Some? || pass2.Some?) && pass1 != pass2
    requires |left| == 13 && PassStateOk(left, pass1.Some?) && PassStateOf(left, pass1.Some?) == pass1
    requires |right| == 13 && PassStateOk(right, pass2.Some?) && PassStateOf(right, pass2.Some?) == pass2
    ensures var f := DriftRow(path, pass1, pass2, left, right);
      DeltaOk(f) && DeltaRecordOf(f) == DeltaRecord(path, ExpectedChange(pass1, pass2), pass1, pass2)
  {
    hide PathOk, PassStateOk, PassStateOf;
    var f := DriftRow(path, pass1, pass2, left, right);
    assert f[5..18] == left && f[18..31] == right;
    assert (f[3] == "true" <==> pass1.Some?) && (f[4] == "true" <==> pass2.Some?);
  }

  /** The reader accepts a printed difference and extracts both states. */
  lemma DeltaAccepted(root: ByteString, d: Delta, a: Option<Entry>, b: Option<Entry>)
    requires TrueDelta(root, d, a, b)
    ensures EntryDelta(d) && DeltaOk(DriftFields(d))
    ensures DeltaRecordOf(DriftFields(d)) ==
      DeltaRecord(PathHex(PathOf(a, b)), ExpectedChange(StateOption(a), StateOption(b)), StateOption(a), StateOption(b))
  {
    DriftFieldsAre(root, d, a, b);
    SideRead(root, d.left, a);
    SideRead(root, d.right, b);
    PathAccepted(PathOf(a, b));
    StatesDiffer(root, d, a, b);
    hide Columns, StateOption, EntryLine, Split, EntryForm, PathOk, PassStateOk, PassStateOf, DriftFields, SplitRow,
      DeltaOk, DeltaRecordOf, ExpectedChange;
    RowAccepted(PathHex(PathOf(a, b)), StateOption(a), StateOption(b), Columns(SplitRow(d.left)),
      Columns(SplitRow(d.right)));
  }

  lemma StatesDiffer(root: ByteString, d: Delta, a: Option<Entry>, b: Option<Entry>)
    requires TrueDelta(root, d, a, b)
    ensures StateOption(a) != StateOption(b) && (StateOption(a).Some? <==> a.Some?)
      && (StateOption(b).Some? <==> b.Some?)
  {
    hide StateOf, EntryLine, EntryForm, ShortPath;
    if a.Some? && b.Some? && StateOf(a.value) == StateOf(b.value) { StateDetermines(root, a.value, b.value); }
  }

  // ----- Framing -----

  /** Printable: every line made of such fields is one ASCII line. */
  predicate Plain(s: string) { forall i | 0 <= i < |s| :: '!' <= s[i] <= '~' }

  predicate AllPlain(f: Fields) { forall i | 0 <= i < |f| :: Plain(f[i]) }

  lemma {:induction false} DecimalPlain(n: nat)
    ensures Plain(Decimal(n))
  {
    if n >= 10 { DecimalPlain(n / 10); }
  }

  lemma SignedPlain(n: int)
    ensures Plain(SignedDecimal(n))
  {
    if n < 0 { DecimalPlain(-n); } else { DecimalPlain(n); }
  }

  lemma {:induction false} JoinFramed(f: Fields)
    requires AllPlain(f) && Total(f) <= LINE_BYTE_CAP && |f| >= 1
    ensures Framed(Join(f, TAB))
  {
    JoinTotal(f, TAB);
    if |f| > 1 { JoinFramed(f[1..]); }
  }

  lemma ColumnsPlain(root: ByteString, e: Option<Entry>)
    requires e.Some? ==> EntryForm(e.value)
    ensures AllPlain(Columns(if e.None? then None else Some(EntryFields(root, e.value))))
  {
    if e.Some? {
      var s := e.value.stat;
      WordsPlain(e.value);
      DecimalPlain(s.size);
      DecimalPlain(s.uid);
      DecimalPlain(s.gid);
      SignedPlain(s.mtime);
      SignedPlain(s.ctime);
      DecimalPlain(s.dev);
      DecimalPlain(s.ino);
      DecimalPlain(s.nlink);
      hide Decimal, SignedDecimal, Hex, Octal, KindName, TargetText, OrDash, Flag, HexDigest, EntryForm, Plain;
    }
  }

  lemma WordsPlain(e: Entry)
    requires EntryForm(e)
    ensures Plain(KindName(e.stat.kind)) && Plain(Octal(e.stat.mode)) && Plain(OrDash(e.hash)) && Plain(TargetText(e))
    ensures Plain(Flag(HasUploads(e.path)))
  {
    hide Hex;
  }

  lemma ColumnsTotal(root: ByteString, e: Option<Entry>)
    requires e.Some? ==> EntryForm(e.value)
    ensures Total(Columns(if e.None? then None else Some(EntryFields(root, e.value)))) <= 8600
  {
    if e.None? {
      TotalBound(Columns(None), 1);
    } else {
      NumbersShort(root, e.value);
      TailShort(root, e.value);
      hide EntryFields, EntryForm;
      SideTotal(EntryFields(root, e.value));
    }
  }

  lemma SideTotal(f: Fields)
    requires |f| == 16 && (forall i | 3 <= i < 13 :: |f[i]| <= 20) && |f[13]| <= 8192 && |f[14]| <= 64 && |f[15]| == 1
    ensures Total(Columns(Some(f))) <= 8600
  {
    var c := Columns(Some(f));
    TotalBound(c[..10], 20);
    HeadTotal(c[10..]);
    TotalConcat(c[..10], c[10..]);
    assert c == c[..10] + c[10..];
  }

  lemma TailShort(root: ByteString, e: Entry)
    requires EntryForm(e)
    ensures var f := EntryFields(root, e); |f[13]| <= 8192 && |f[14]| <= 64 && |f[15]| == 1
  {
    hide Decimal, SignedDecimal, Hex;
  }

  /** A printed difference fits the reader's line cap. */
  lemma DriftFramed(root: ByteString, d: Delta, a: Option<Entry>, b: Option<Entry>)
    requires TrueDelta(root, d, a, b)
    ensures EntryDelta(d) && Framed(DriftLine(d)) && AllAbove(DriftFields(d))
  {
    DriftFieldsAre(root, d, a, b);
    SideRead(root, d.left, a);
    SideRead(root, d.right, b);
    ColumnsPlain(root, a);
    ColumnsPlain(root, b);
    ColumnsTotal(root, a);
    ColumnsTotal(root, b);
    var p := PathOf(a, b);
    RelativeBytes(p);
    hide Columns, StateOf, EntryLine, Split, EntryForm, DriftFields, SplitRow, Hex, Relative, EntryFields, ShortPath,
      Framed, AllAbove, AllPlain, HexText, ExpectedChange;
    RowFramed(PathHex(p), StateOption(a), StateOption(b), Columns(SplitRow(d.left)), Columns(SplitRow(d.right)));
  }

  lemma RowFramed(path: string, pass1: Option<PassState>, pass2: Option<PassState>, left: Fields, right: Fields)
    requires HexText(path) && |path| <= 8192 && AllPlain(left) && AllPlain(right) && Total(left) <= 8600
      && Total(right) <= 8600
    ensures var f := DriftRow(path, pass1, pass2, left, right); Framed(Join(f, TAB)) && AllAbove(f)
  {
    var f := DriftRow(path, pass1, pass2, left, right);
    var front := ["DRIFT", path, ExpectedChange(pass1, pass2), Truth(pass1.Some?), Truth(pass2.Some?)];
    FrontPlain(path, pass1, pass2);
    TotalBound([front[0]] + front[2..], 8);
    TotalFront(front);
    hide Plain, ExpectedChange, Truth, Framed, HexText;
    TotalConcat(front + left, right);
    TotalConcat(front, left);
    assert f == front + left + right && AllPlain(f);
    JoinFramed(f);
    PlainAbove(f);
  }

  lemma PlainAbove(f: Fields)
    requires AllPlain(f)
    ensures AllAbove(f)
  {
  }

  lemma FrontPlain(path: string, pass1: Option<PassState>, pass2: Option<PassState>)
    requires HexText(path)
    ensures AllPlain(["DRIFT", path, ExpectedChange(pass1, pass2), Truth(pass1.Some?), Truth(pass2.Some?)])
  {
    assert Plain(path);
  }

  lemma TotalFront(f: Fields)
    requires |f| >= 2
    ensures Total(f) == |f[1]| + 1 + Total([f[0]] + f[2..])
  {
    assert ([f[0]] + f[2..])[1..] == f[2..];
    assert f[1..][1..] == f[2..];
  }

  // ----- The entry records of a whole stream -----

  /** Two snapshots of one root the cursors can read. */
  ghost predicate Comparable(r1: Result, r2: Result) {
    ResultForm(r1) && ResultForm(r2) && Readable(r1) && Readable(r2) && r1.root == r2.root
  }

  ghost function RowDeltas(r1: Result, r2: Result): seq<Delta> requires Comparable(r1, r2) {
    Merge(EntryRow, EntryLines(r1.root, r1.rows), EntryLines(r2.root, r2.rows))
  }

  ghost function IssueLineDeltas(r1: Result, r2: Result): seq<Delta> requires Comparable(r1, r2) {
    Merge(IssueRow, IssueLines(r1.issues), IssueLines(r2.issues))
  }

  lemma FindSide(r: Result, side: Option<string>) returns (e: Option<Entry>)
    requires ResultForm(r) && Readable(r) && (side.Some? ==> side.value in EntryLines(r.root, r.rows))
    ensures SideOf(r.root, side, e)
  {
    e := None;
    if side.Some? {
      var i :| 0 <= i < |r.rows| && EntryLines(r.root, r.rows)[i] == side.value;
      e := Some(r.rows[i]);
    }
  }

  lemma SidePath(root: ByteString, left: Option<string>, right: Option<string>, a: Option<Entry>, b: Option<Entry>)
    requires SideOf(root, left, a) && SideOf(root, right, b) && a.Some? && b.Some? && |root| <= MAX_RELATIVE_BYTES
    requires RowKey(EntryRow)(left.value) == RowKey(EntryRow)(right.value)
    ensures a.value.path == b.value.path
  {
    hide RowForm, RowKey, EntryLine, Hex;
    EntryRowForm(root, a.value);
    EntryRowForm(root, b.value);
    RelativeBytes(a.value.path);
    RelativeBytes(b.value.path);
    HexInjective(Relative(a.value.path), Relative(b.value.path));
    RelativeInjective(a.value.path, b.value.path);
  }

  /** Every reported difference is one of two snapshots' rows. */
  lemma DeltaSides(r1: Result, r2: Result, i: nat) returns (a: Option<Entry>, b: Option<Entry>)
    requires Comparable(r1, r2) && i < |RowDeltas(r1, r2)|
    ensures TrueDelta(r1.root, RowDeltas(r1, r2)[i], a, b)
    ensures DeltaKey(EntryRow)(RowDeltas(r1, r2)[i]) == PathHex(PathOf(a, b))
  {
    MergeFrom(EntryRow, EntryLines(r1.root, r1.rows), EntryLines(r2.root, r2.rows));
    var d := RowDeltas(r1, r2)[i];
    hide ResultForm, Readable, EntryLines, Merge, RowKey, SideOf;
    a := FindSide(r1, d.left);
    b := FindSide(r2, d.right);
    SidesMatch(r1.root, d, a, b, r1);
  }

  lemma SidesMatch(root: ByteString, d: Delta, a: Option<Entry>, b: Option<Entry>, r: Result)
    requires Readable(r) && r.root == root
    requires SideOf(root, d.left, a) && SideOf(root, d.right, b) && (d.left.Some? || d.right.Some?) && d.left != d.right
    requires d.left.Some? && d.right.Some? ==> RowKey(EntryRow)(d.left.value) == RowKey(EntryRow)(d.right.value)
    ensures TrueDelta(root, d, a, b) && DeltaKey(EntryRow)(d) == PathHex(PathOf(a, b))
  {
    hide RowKey, EntryForm, EntryLine, ShortPath, RowForm;
    if a.Some? && b.Some? { SidePath(root, d.left, d.right, a, b); }
    EntryRowForm(root, if a.Some? then a.value else b.value);
  }

  /** A difference whose line the reader frames, splits, accepts and turns back. */
  ghost predicate Readback(root: ByteString, d: Delta) {
    && EntryDelta(d) && Framed(DriftLine(d)) && Split(DriftLine(d), TAB) == DriftFields(d) && DeltaOk(DriftFields(d))
    && DeltaBack(root, DeltaRecordOf(DriftFields(d))) == d
    && HexText(DeltaKey(EntryRow)(d)) && PathKey()(DriftFields(d)) == Unhex(DeltaKey(EntryRow)(d))
  }

  lemma RowOfDelta(r1: Result, r2: Result, i: nat)
    requires Comparable(r1, r2) && i < |RowDeltas(r1, r2)|
    ensures Readback(r1.root, RowDeltas(r1, r2)[i])
  {
    hide Comparable, RowDeltas, Framed, DeltaOk, DeltaRecordOf, DriftFields, Split, TrueDelta, DeltaKey, StateOption,
      DeltaBack;
    var a, b := DeltaSides(r1, r2, i);
    var d := RowDeltas(r1, r2)[i];
    DeltaAccepted(r1.root, d, a, b);
    DriftFramed(r1.root, d, a, b);
    RowSplits(DriftFields(d));
    BackAgain(r1.root, d, a, b);
    KeyPath(r1.root, d, a, b);
  }

  lemma KeyPath(root: ByteString, d: Delta, a: Option<Entry>, b: Option<Entry>)
    requires TrueDelta(root, d, a, b)
    ensures EntryDelta(d) && PathKey()(DriftFields(d)) == Unhex(PathHex(PathOf(a, b)))
  {
    DriftFieldsAre(root, d, a, b);
    hide DriftFields, Unhex, Hex, Columns;
  }

  /** A record as the difference of two row texts. */
  function DeltaBack(root: ByteString, r: DeltaRecord): Delta {
    if !HexText(r.path) then Delta(None, None)
    else
      Delta(if r.pass1.None? then None else Some(RowText(root, r.path, r.pass1.value)),
            if r.pass2.None? then None else Some(RowText(root, r.path, r.pass2.value)))
  }

  lemma BackAgain(root: ByteString, d: Delta, a: Option<Entry>, b: Option<Entry>)
    requires TrueDelta(root, d, a, b)
    ensures DeltaBack(root, DeltaRecord(PathHex(PathOf(a, b)), ExpectedChange(StateOption(a), StateOption(b)),
      StateOption(a), StateOption(b))) == d
  {
    hide StateOf, EntryLine, EntryForm, RowText, ShortPath, Hex, ExpectedChange;
    if a.Some? { RowTextRestores(root, a.value); }
    if b.Some? { RowTextRestores(root, b.value); }
  }

  lemma RowsAscend(r1: Result, r2: Result)
    requires Comparable(r1, r2)
    ensures Ascending(EntryLines(r1.root, r1.rows), RowKey(EntryRow))
      && Ascending(EntryLines(r2.root, r2.rows), RowKey(EntryRow))
    ensures Ascending(IssueLines(r1.issues), RowKey(IssueRow)) && Ascending(IssueLines(r2.issues), RowKey(IssueRow))
    ensures Ascending(RowDeltas(r1, r2), DeltaKey(EntryRow)) && Ascending(IssueLineDeltas(r1, r2), DeltaKey(IssueRow))
  {
    EntryKeysAscend(r1.root, r1.rows);
    EntryKeysAscend(r2.root, r2.rows);
    IssueKeysAscend(r1.issues);
    IssueKeysAscend(r2.issues);
    hide Ascending, RowKey, DeltaKey, Merge, EntryForm, IssueForm, EntryLine, IssueLine;
    MergeAscends(EntryRow, EntryLines(r1.root, r1.rows), EntryLines(r2.root, r2.rows));
    MergeAscends(IssueRow, IssueLines(r1.issues), IssueLines(r2.issues));
  }

  /** The reader accepts a whole block of such lines in key order, and reads back every difference. */
  lemma DeltasCheck(root: ByteString, ds: seq<Delta>)
    requires (forall i | 0 <= i < |ds| :: Readback(root, ds[i])) && Ascending(ds, DeltaKey(EntryRow))
    ensures forall i | 0 <= i < |ds| :: EntryDelta(ds[i])
    ensures DeltasOk(SplitAll(DriftLines(ds)))
    ensures forall i | 0 <= i < |ds| :: Framed(DriftLines(ds)[i])
    ensures DeltasBack(root, DeltaRecords(SplitAll(DriftLines(ds)))) == ds
  {
    hide Framed, DeltaOk, DeltaRecordOf, DriftFields, DriftLine, EntryDelta, Split, DeltaKey, PathKey, Less, DeltaBack,
      Unhex, HexText;
    var rows := SplitAll(DriftLines(ds));
    forall i | 0 <= i < |ds| ensures rows[i] == DriftFields(ds[i]) { assert DriftLines(ds)[i] == DriftLine(ds[i]); }
    forall i | 0 < i < |rows| ensures Less(PathKey()(rows[i - 1]), PathKey()(rows[i])) {
      UnhexOrder(DeltaKey(EntryRow)(ds[i - 1]), DeltaKey(EntryRow)(ds[i]));
    }
  }

  function DeltasBack(root: ByteString, records: seq<DeltaRecord>): (ds: seq<Delta>)
    ensures |ds| == |records|
  {
    seq(|records|, i requires 0 <= i < |records| => DeltaBack(root, records[i]))
  }

  lemma DeltasAccepted(r1: Result, r2: Result)
    requires Comparable(r1, r2)
    ensures forall i | 0 <= i < |RowDeltas(r1, r2)| :: EntryDelta(RowDeltas(r1, r2)[i])
    ensures var lines := DriftLines(RowDeltas(r1, r2));
      && DeltasOk(SplitAll(lines)) && DeltasBack(r1.root, DeltaRecords(SplitAll(lines))) == RowDeltas(r1, r2)
      && forall i | 0 <= i < |lines| :: Framed(lines[i])
  {
    RowsAscend(r1, r2);
    forall i | 0 <= i < |RowDeltas(r1, r2)| ensures Readback(r1.root, RowDeltas(r1, r2)[i]) { RowOfDelta(r1, r2, i); }
    hide *;
    DeltasCheck(r1.root, RowDeltas(r1, r2));
  }

  lemma UnhexOrder(a: string, b: string)
    requires HexText(a) && HexText(b)
    ensures Less(Unhex(a), Unhex(b)) <==> Less(a, b)
  {
    HexUnhex(a);
    HexUnhex(b);
    HexOrder(Unhex(a), Unhex(b));
  }
}
