/** The rows of an inventory snapshot: what the native helper knows about one object, and the text
    line it prints for it. */
module Records {
  import opened Text

  datatype Kind = REGULAR | DIRECTORY | SYMLINK | BLOCK_DEVICE | CHAR_DEVICE | FIFO | SOCKET | OTHER

  function KindName(k: Kind): string {
    match k
    case REGULAR => "REGULAR"
    case DIRECTORY => "DIRECTORY"
    case SYMLINK => "SYMLINK"
    case BLOCK_DEVICE => "BLOCK_DEVICE"
    case CHAR_DEVICE => "CHAR_DEVICE"
    case FIFO => "FIFO"
    case SOCKET => "SOCKET"
    case OTHER => "OTHER"
  }

  const KINDS: set<string> :=
    {"REGULAR", "DIRECTORY", "SYMLINK", "BLOCK_DEVICE", "CHAR_DEVICE", "FIFO", "SOCKET", "OTHER"}

  const MAX_U64: int := 0xffff_ffff_ffff_ffff
  const MAX_I64: int := 0x7fff_ffff_ffff_ffff

  /** struct stat, as far as same_stat compares it and the rows print it; `rest` stands for the
      device number of a special file and the block count. */
  datatype RawStat = RawStat(kind: Kind, size: nat, mode: nat, uid: nat, gid: nat, mtime: int, ctime: int,
                             dev: nat, ino: nat, nlink: nat, rest: nat)

  predicate CTypes(s: RawStat) {
    && s.size <= MAX_I64 && s.mode < 4096 && s.uid <= MAX_U64 && s.gid <= MAX_U64
    && -MAX_I64 - 1 <= s.mtime <= MAX_I64 && -MAX_I64 - 1 <= s.ctime <= MAX_I64
    && s.dev <= MAX_U64 && s.ino <= MAX_U64 && s.nlink <= MAX_U64
  }

  type Stat = s: RawStat | CTypes(s) witness RawStat(REGULAR, 0, 0, 0, 0, 0, 0, 0, 0, 0, 0)

  // ----- Paths -----

  /** is_safe_component. */
  predicate SafeComponent(c: string) {
    |c| > 0 && c != "." && c != ".." && ByteText(c) && '/' !in c && (0 as char) !in c
  }

  type Path = seq<string>

  predicate SafePath(p: Path) { forall i | 0 <= i < |p| :: SafeComponent(p[i]) }

  function Relative(p: Path): string { Join(p, '/') }

  lemma {:induction false} RelativeBytes(p: Path)
    requires SafePath(p)
    ensures ByteText(Relative(p)) && (0 as char) !in Relative(p)
  {
    if |p| > 1 { RelativeBytes(p[1..]); }
  }

  lemma RelativeSplits(p: Path)
    requires SafePath(p) && |p| >= 1
    ensures Split(Relative(p), '/') == p && Relative(p) != ""
  {
    SplitJoin(p, '/');
    SplitLast("", '/');
    assert p != [""] by { assert SafeComponent(p[0]); }
  }

  lemma RelativeInjective(p: Path, q: Path)
    requires SafePath(p) && SafePath(q) && Relative(p) == Relative(q)
    ensures p == q
  {
    if |p| >= 1 { RelativeSplits(p); }
    if |q| >= 1 { RelativeSplits(q); }
  }

  function Absolute(root: string, p: Path): string {
    if |p| == 0 then root else root + "/" + Relative(p)
  }

  lemma AbsoluteBytes(root: string, p: Path)
    requires ByteText(root) && SafePath(p)
    ensures ByteText(Absolute(root, p))
  {
    RelativeBytes(p);
  }

  predicate HasUploads(p: Path) { "uploads" in p }

  // ----- Rows -----

  datatype Entry = Entry(path: Path, stat: Stat, target: Option<string>, hash: Option<string>)

  datatype Issue = Issue(reason: string, path: Path, detail: string)

  predicate HexDigest(s: string) { |s| == 64 && HexText(s) }

  predicate ReasonText(s: string) {
    1 <= |s| <= 64 && forall i | 0 <= i < |s| :: 'A' <= s[i] <= 'Z' || Digit(s[i]) || s[i] == '_'
  }

  const MAX_RELATIVE_BYTES: nat := 4096

  predicate ShortPath(p: Path) { |Relative(p)| <= MAX_RELATIVE_BYTES }

  /** A row the walk may add: safe path within the path cap, a target only for a symlink, a hash only for a regular file. */
  predicate EntryForm(e: Entry) {
    && SafePath(e.path) && ShortPath(e.path)
    && (e.target.Some? ==> e.stat.kind == SYMLINK && ByteText(e.target.value) && |e.target.value| <= 4096)
    && (e.hash.Some? ==> e.stat.kind == REGULAR && HexDigest(e.hash.value))
  }

  predicate IssueForm(i: Issue) { ReasonText(i.reason) && SafePath(i.path) && HexDigest(i.detail) }

  function PathHex(p: Path): string requires SafePath(p) {
    RelativeBytes(p);
    Hex(Relative(p))
  }

  function OrDash(o: Option<string>): string { if o.Some? then o.value else "-" }

  function TargetText(e: Entry): string requires EntryForm(e) {
    if e.target.Some? then Hex(e.target.value) else "-"
  }

  function Flag(b: bool): string { if b then "1" else "0" }

  /** The sixteen fields of an ENTRY row. */
  function EntryFields(root: string, e: Entry): (f: seq<string>)
    requires ByteText(root) && EntryForm(e)
    ensures |f| == 16
  {
    AbsoluteBytes(root, e.path);
    var s := e.stat;
    ["ENTRY", PathHex(e.path), Hex(Absolute(root, e.path)), KindName(s.kind), Decimal(s.size), Octal(s.mode),
     Decimal(s.uid), Decimal(s.gid), SignedDecimal(s.mtime), SignedDecimal(s.ctime),
     Decimal(s.dev), Decimal(s.ino), Decimal(s.nlink), TargetText(e), OrDash(e.hash), Flag(HasUploads(e.path))]
  }

  function EntryLine(root: string, e: Entry): string requires ByteText(root) && EntryForm(e) {
    Join(EntryFields(root, e), TAB)
  }

  function IssueFields(i: Issue): (f: seq<string>)
    requires IssueForm(i)
    ensures |f| == 4
  {
    ["UNRESOLVED", i.reason, PathHex(i.path), i.detail]
  }

  function IssueLine(i: Issue): string requires IssueForm(i) { Join(IssueFields(i), TAB) }

  // ----- No field contains a byte at or below the tab -----

  lemma HexAbove(s: string)
    requires HexText(s)
    ensures Above(s, TAB)
  {
  }

  lemma {:induction false} DecimalAbove(n: nat)
    ensures Above(Decimal(n), TAB)
  {
    if n >= 10 { DecimalAbove(n / 10); }
  }

  lemma SignedAbove(n: int)
    ensures Above(SignedDecimal(n), TAB)
  {
    if n < 0 { DecimalAbove(-n); } else { DecimalAbove(n); }
  }

  predicate AllAbove(f: seq<string>) { forall i | 0 <= i < |f| :: Above(f[i], TAB) }

  lemma EntryFieldsAbove(root: string, e: Entry)
    requires ByteText(root) && EntryForm(e)
    ensures AllAbove(EntryFields(root, e))
  {
    hide Decimal, SignedDecimal, Hex;
    var f, s := EntryFields(root, e), e.stat;
    AbsoluteBytes(root, e.path);
    HexAbove(f[1]);
    HexAbove(f[2]);
    DecimalAbove(s.size);
    DecimalAbove(s.uid);
    DecimalAbove(s.gid);
    SignedAbove(s.mtime);
    SignedAbove(s.ctime);
    DecimalAbove(s.dev);
    DecimalAbove(s.ino);
    DecimalAbove(s.nlink);
    assert Above(f[0], TAB) && Above(f[3], TAB) && Above(f[5], TAB) && Above(f[13], TAB) && Above(f[14], TAB)
      && Above(f[15], TAB);
  }

  lemma IssueFieldsAbove(i: Issue)
    requires IssueForm(i)
    ensures AllAbove(IssueFields(i))
  {
    hide Hex;
    var f := IssueFields(i);
    assert Above(f[0], TAB) && Above(f[1], TAB) && Above(f[2], TAB) && Above(f[3], TAB);
  }

  lemma AboveFree(f: seq<string>)
    requires AllAbove(f)
    ensures forall i | 0 <= i < |f| :: Free(f[i], TAB)
  {
  }

  /** A reader that splits at tabs gets the fields back. */
  lemma EntryLineSplits(root: string, e: Entry)
    requires ByteText(root) && EntryForm(e)
    ensures Split(EntryLine(root, e), TAB) == EntryFields(root, e)
  {
    EntryFieldsAbove(root, e);
    AboveFree(EntryFields(root, e));
    SplitJoin(EntryFields(root, e), TAB);
  }

  lemma IssueLineSplits(i: Issue)
    requires IssueForm(i)
    ensures Split(IssueLine(i), TAB) == IssueFields(i)
  {
    IssueFieldsAbove(i);
    AboveFree(IssueFields(i));
    SplitJoin(IssueFields(i), TAB);
  }

  // ----- Line order -----

  /** Rows of different objects: whole lines sort exactly like paths sort byte by byte. */
  lemma EntryLineOrder(root: string, a: Entry, b: Entry)
    requires ByteText(root) && EntryForm(a) && EntryForm(b) && a.path != b.path
    ensures Less(EntryLine(root, a), EntryLine(root, b)) <==> Less(Relative(a.path), Relative(b.path))
    ensures Less(EntryLine(root, a), EntryLine(root, b)) <==> Less(PathHex(a.path), PathHex(b.path))
  {
    var f, g := EntryFields(root, a), EntryFields(root, b);
    EntryFieldsAbove(root, a);
    EntryFieldsAbove(root, b);
    JoinOrder(f, g, TAB);
    RelativeBytes(a.path);
    RelativeBytes(b.path);
    HexOrder(Relative(a.path), Relative(b.path));
    if f[1] == g[1] {
      HexInjective(Relative(a.path), Relative(b.path));
      RelativeInjective(a.path, b.path);
    }
    LessIrreflexive("ENTRY");
    assert f[1..][0] == f[1] && g[1..][0] == g[1];
    assert FieldsLess(f, g) <==> FieldsLess(f[1..], g[1..]);
  }

  /** Whole UNRESOLVED lines sort like the tuples (reason, path, detail). */
  lemma IssueLineOrder(a: Issue, b: Issue)
    requires IssueForm(a) && IssueForm(b)
    ensures Less(IssueLine(a), IssueLine(b)) <==>
      FieldsLess([a.reason, PathHex(a.path), a.detail], [b.reason, PathHex(b.path), b.detail])
  {
    var f, g := IssueFields(a), IssueFields(b);
    IssueFieldsAbove(a);
    IssueFieldsAbove(b);
    JoinOrder(f, g, TAB);
    LessIrreflexive("UNRESOLVED");
    assert f[1..] == [a.reason, PathHex(a.path), a.detail] && g[1..] == [b.reason, PathHex(b.path), b.detail];
  }
}
