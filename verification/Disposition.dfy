/** derive: the policy two signed observations justify, and how the native helper treats it. */
module Disposition {
  import opened Text
  import opened Records
  import opened Sorting
  import opened Walk
  import opened Inventory
  import opened Agreement
  import opened Drift
  import opened Diagnostic
  import opened RawPass
  import opened Streams
  import opened DriftAgreement
  import opened Policy
  import opened Volatile

  // ----- One observed difference -----

  datatype Behavior = CtimeChange | LogGrowth | UploadLogGrowth

  /** state_without_ctime. */
  function WithoutCtime(s: PassState): PassState { s.(ctime := 0) }

  predicate SameIdentity(s: PassState, t: PassState) {
    && s.kind == t.kind && s.device == t.device && s.inode == t.inode && s.mode == t.mode && s.uid == t.uid
    && s.gid == t.gid
    && s.nlink == t.nlink && s.target == t.target && s.uploads == t.uploads
  }

  /** behavior: none stands for fail. */
  function BehaviorOf(r: DeltaRecord): Option<Behavior> {
    if r.change != "MODIFIED" || r.pass1.None? || r.pass2.None? then None
    else
      var s, t := r.pass1.value, r.pass2.value;
      if s.kind != "REGULAR" || t.kind != "REGULAR" || !NonExecutable(s.mode) || !NonExecutable(t.mode) then None
      else if WithoutCtime(s) == WithoutCtime(t) && s.ctime != t.ctime then Some(CtimeChange)
      else if !SameIdentity(s, t) || t.size <= s.size || t.mtime < s.mtime || t.ctime < s.ctime then None
      else if t.uploads then Some(UploadLogGrowth)
      else Some(LogGrowth)
  }

  function RuleOf(b: Behavior, path: string): Rule {
    Rule(match b case CtimeChange => 'C' case LogGrowth => 'L' case UploadLogGrowth => 'A', path)
  }

  /** The record of a modification of one path. */
  function Modification(a: Entry, b: Entry): DeltaRecord requires EntryForm(a) && EntryForm(b) {
    DeltaRecord(PathHex(a.path), ExpectedChange(Some(StateOf(a)), Some(StateOf(b))), Some(StateOf(a)), Some(StateOf(b)))
  }

  // ----- The helper's view of the same difference -----

  ghost predicate TwoStates(root: ByteString, a: Entry, b: Entry) {
    EntryForm(a) && EntryForm(b) && a.path == b.path && a.path != [] && EntryFields(root, a) != EntryFields(root, b)
  }

  /** Equal printed numbers are equal numbers. */
  lemma DecimalInjective(m: nat, n: nat)
    ensures Decimal(m) == Decimal(n) <==> m == n
  {
    DecimalRoundTrip(m);
    DecimalRoundTrip(n);
  }

  lemma SignedInjective(m: int, n: int)
    ensures SignedDecimal(m) == SignedDecimal(n) <==> m == n
  {
    SignedRoundTrip(m);
    SignedRoundTrip(n);
  }

  /** The printed fields of two rows of one path agree exactly where the states do. */
  lemma FieldsAgree(root: ByteString, a: Entry, b: Entry)
    requires EntryForm(a) && EntryForm(b) && a.path == b.path
    ensures var f, g, s, t := EntryFields(root, a), EntryFields(root, b), StateOf(a), StateOf(b);
      && f[0] == g[0] && f[1] == g[1] && f[2] == g[2] && (f[3] == g[3] <==> s.kind == t.kind)
        && (f[4] == g[4] <==> s.size == t.size)
      && (f[5] == g[5] <==> s.mode == t.mode) && (f[6] == g[6] <==> s.uid == t.uid)
        && (f[7] == g[7] <==> s.gid == t.gid)
      && (f[8] == g[8] <==> s.mtime == t.mtime) && (f[9] == g[9] <==> s.ctime == t.ctime)
        && (f[10] == g[10] <==> s.device == t.device)
      && (f[11] == g[11] <==> s.inode == t.inode) && (f[12] == g[12] <==> s.nlink == t.nlink)
      && (f[13] == g[13] <==> s.target == t.target) && (f[14] == g[14] <==> s.sha == t.sha) && f[15] == g[15]
        && s.uploads == t.uploads
  {
    Columns(root, a);
    Columns(root, b);
    StateColumns(a);
    StateColumns(b);
    NumbersAgree(a.stat, b.stat);
    OptionShown(a.hash, b.hash);
    TargetShown(a, b);
    hide EntryFields, StateOf, EntryForm, Decimal, SignedDecimal, Hex, PathHex, Absolute, Octal, KindName, TargetText,
      OrDash, Flag, HasUploads, HexDigest;
  }

  /** The columns of a row. */
  lemma Columns(root: ByteString, e: Entry)
    requires EntryForm(e)
    ensures ByteText(Absolute(root, e.path))
    ensures var f := EntryFields(root, e);
      && f[0] == "ENTRY" && f[1] == PathHex(e.path) && f[2] == Hex(Absolute(root, e.path))
      && f[3] == KindName(e.stat.kind) && f[4] == Decimal(e.stat.size) && f[5] == Octal(e.stat.mode)
      && f[6] == Decimal(e.stat.uid) && f[7] == Decimal(e.stat.gid) && f[8] == SignedDecimal(e.stat.mtime)
      && f[9] == SignedDecimal(e.stat.ctime) && f[10] == Decimal(e.stat.dev) && f[11] == Decimal(e.stat.ino)
      && f[12] == Decimal(e.stat.nlink) && f[13] == TargetText(e) && f[14] == OrDash(e.hash)
      && f[15] == Flag(HasUploads(e.path))
  {
    AbsoluteBytes(root, e.path);
    hide *;
    FrontColumns(root, e);
    BackColumns(root, e);
  }

  lemma FrontColumns(root: ByteString, e: Entry)
    requires EntryForm(e) && ByteText(Absolute(root, e.path))
    ensures var f := EntryFields(root, e);
      && f[0] == "ENTRY" && f[1] == PathHex(e.path) && f[2] == Hex(Absolute(root, e.path))
      && f[3] == KindName(e.stat.kind) && f[4] == Decimal(e.stat.size) && f[5] == Octal(e.stat.mode)
      && f[6] == Decimal(e.stat.uid) && f[7] == Decimal(e.stat.gid)
  {
    hide Decimal, SignedDecimal, Hex, Octal, KindName, TargetText, OrDash, Flag, HasUploads, Absolute, ByteText,
      SafePath, ShortPath, HexDigest, PathHex;
  }

  lemma BackColumns(root: ByteString, e: Entry)
    requires EntryForm(e)
    ensures var f := EntryFields(root, e);
      && f[8] == SignedDecimal(e.stat.mtime) && f[9] == SignedDecimal(e.stat.ctime) && f[10] == Decimal(e.stat.dev)
      && f[11] == Decimal(e.stat.ino) && f[12] == Decimal(e.stat.nlink) && f[13] == TargetText(e)
      && f[14] == OrDash(e.hash) && f[15] == Flag(HasUploads(e.path))
  {
    hide Decimal, SignedDecimal, Hex, Octal, KindName, TargetText, OrDash, Flag, HasUploads, Absolute, ByteText,
      SafePath, ShortPath, HexDigest, PathHex;
  }

  /** The members of a state. */
  lemma StateColumns(e: Entry)
    requires EntryForm(e)
    ensures var s := StateOf(e);
      && s.kind == KindName(e.stat.kind) && s.size == e.stat.size && s.mode == Octal(e.stat.mode) && s.uid == e.stat.uid
      && s.gid == e.stat.gid
      && s.mtime == e.stat.mtime && s.ctime == e.stat.ctime && s.device == e.stat.dev && s.inode == e.stat.ino
      && s.nlink == e.stat.nlink
      && s.sha == e.hash && s.uploads == HasUploads(e.path)
    ensures e.hash.Some? ==> HexDigest(e.hash.value)
  {
    hide KindName, Octal, HasUploads, Hex, HexDigest, SafePath, ShortPath, ByteText;
  }

  lemma NumbersAgree(p: Stat, q: Stat)
    ensures (Decimal(p.size) == Decimal(q.size) <==> p.size == q.size)
      && (Decimal(p.uid) == Decimal(q.uid) <==> p.uid == q.uid)
    ensures (Decimal(p.gid) == Decimal(q.gid) <==> p.gid == q.gid)
      && (Decimal(p.dev) == Decimal(q.dev) <==> p.dev == q.dev)
    ensures (Decimal(p.ino) == Decimal(q.ino) <==> p.ino == q.ino)
      && (Decimal(p.nlink) == Decimal(q.nlink) <==> p.nlink == q.nlink)
    ensures SignedDecimal(p.mtime) == SignedDecimal(q.mtime) <==> p.mtime == q.mtime
    ensures SignedDecimal(p.ctime) == SignedDecimal(q.ctime) <==> p.ctime == q.ctime
  {
    hide *;
    DecimalInjective(p.size, q.size);
    DecimalInjective(p.uid, q.uid);
    DecimalInjective(p.gid, q.gid);
    SignedInjective(p.mtime, q.mtime);
    SignedInjective(p.ctime, q.ctime);
    DecimalInjective(p.dev, q.dev);
    DecimalInjective(p.ino, q.ino);
    DecimalInjective(p.nlink, q.nlink);
  }

  lemma OptionShown(x: Option<string>, y: Option<string>)
    requires (x.Some? ==> HexDigest(x.value)) && (y.Some? ==> HexDigest(y.value))
    ensures OrDash(x) == OrDash(y) <==> x == y
  {
  }

  lemma TargetShown(a: Entry, b: Entry)
    requires EntryForm(a) && EntryForm(b)
    ensures TargetText(a) == TargetText(b) <==> StateOf(a).target == StateOf(b).target
  {
    hide Hex, KindName, Octal;
    if a.target.Some? { DigestNoDash(Hex(a.target.value)); }
    if b.target.Some? { DigestNoDash(Hex(b.target.value)); }
  }

  lemma {:induction false} CtimeAgrees(root: ByteString, a: Entry, b: Entry)
    requires EntryForm(a) && EntryForm(b) && a.path == b.path
    ensures CtimeOnly(EntryFields(root, a), EntryFields(root, b)) <==>
      WithoutCtime(StateOf(a)) == WithoutCtime(StateOf(b)) && StateOf(a).ctime != StateOf(b).ctime
  {
    FieldsAgree(root, a, b);
    hide EntryFields, StateOf, EntryForm;
    var s, t := StateOf(a), StateOf(b);
    var f, g := EntryFields(root, a), EntryFields(root, b);
    assert WithoutCtime(s) == WithoutCtime(t) <==>
      && s.kind == t.kind && s.device == t.device && s.inode == t.inode && s.size == t.size && s.mode == t.mode
      && s.uid == t.uid
      && s.gid == t.gid && s.nlink == t.nlink && s.mtime == t.mtime && s.sha == t.sha && s.target == t.target
      && s.uploads == t.uploads;
    assert CtimeOnly(f, g) <==>
      && f[3] == g[3] && f[4] == g[4] && f[5] == g[5] && f[6] == g[6] && f[7] == g[7] && f[8] == g[8] && f[10] == g[10]
      && f[11] == g[11]
      && f[12] == g[12] && f[13] == g[13] && f[14] == g[14] && f[15] == g[15] && f[9] != g[9];
  }

  lemma NumbersShown(root: ByteString, e: Entry)
    requires EntryForm(e)
    ensures var f := EntryFields(root, e);
      && CanonicalDecimal(f[4]) && ParseDecimal(f[4]) == e.stat.size
      && CanonicalSigned(f[8]) && ParseSigned(f[8]) == e.stat.mtime && CanonicalSigned(f[9])
      && ParseSigned(f[9]) == e.stat.ctime
      && f[1] == PathHex(e.path) && f[3] == KindName(e.stat.kind) && f[5] == Octal(e.stat.mode)
      && f[15] == Flag(HasUploads(e.path))
  {
    hide Decimal, SignedDecimal, Hex, Octal, KindName, EntryFields, EntryForm, CanonicalDecimal, CanonicalSigned,
      ParseDecimal, ParseSigned, Flag, HasUploads, Absolute, TargetText, OrDash;
    Columns(root, e);
    DecimalRoundTrip(e.stat.size);
    SignedRoundTrip(e.stat.mtime);
    SignedRoundTrip(e.stat.ctime);
  }

  lemma LogPathIs(p: Path)
    requires SafePath(p) && ShortPath(p) && p != []
    ensures LogPath(PathHex(p)) <==> EndsWith(Relative(p), LOG_SUFFIX)
  {
    hide Hex, Unhex;
    RelativeBytes(p);
    RelativeSplits(p);
    UnhexHex(Relative(p));
  }

  /** monotonic_log_growth, read off the states. */
  lemma GrowthAgrees(root: ByteString, a: Entry, b: Entry)
    requires EntryForm(a) && EntryForm(b) && a.path == b.path && a.path != []
    ensures MonotonicGrowth(EntryFields(root, a), EntryFields(root, b)) <==>
      var s, t := StateOf(a), StateOf(b);
      && SameIdentity(s, t) && s.kind == "REGULAR" && NonExecutable(s.mode) && !s.uploads
      && EndsWith(Relative(a.path), LOG_SUFFIX)
      && t.size > s.size && t.mtime >= s.mtime && t.ctime >= s.ctime
  {
    FieldsAgree(root, a, b);
    NumbersShown(root, a);
    NumbersShown(root, b);
    LogPathIs(a.path);
    assert StateOf(a).mode == Octal(a.stat.mode) && StateOf(a).uploads == HasUploads(a.path)
      && StateOf(a).kind == KindName(a.stat.kind);
    assert StateOf(b).mode == Octal(b.stat.mode) && StateOf(b).uploads == HasUploads(b.path);
    assert StateOf(a).size == a.stat.size && StateOf(a).mtime == a.stat.mtime && StateOf(a).ctime == a.stat.ctime;
    assert StateOf(b).size == b.stat.size && StateOf(b).mtime == b.stat.mtime && StateOf(b).ctime == b.stat.ctime;
    hide EntryFields, StateOf, EntryForm, Octal, KindName, NonExecutable, CanonicalDecimal, CanonicalSigned,
      ParseDecimal, ParseSigned, LogPath, Relative, PathHex, ShortPath, HasUploads, EndsWith;
  }

  /** The helper meets a difference with the rule derive chose for it exactly when it is a change of ctime alone, or
      the growth of a log outside uploads whose name ends in lower-case .log and whose prefix was proved. */
  lemma RuleMeets(root: ByteString, a: Entry, b: Entry, proof: PrefixProof)
    requires TwoStates(root, a, b) && BehaviorOf(Modification(a, b)).Some?
    ensures var behavior := BehaviorOf(Modification(a, b)).value;
      DriftAllowed(RuleOf(behavior, PathHex(a.path)), EntryFields(root, a), EntryFields(root, b), proof) <==>
        match behavior
        case CtimeChange => true
        case LogGrowth => EndsWith(Relative(a.path), LOG_SUFFIX) && proof(EntryFields(root, a), EntryFields(root, b))
        case UploadLogGrowth => false
  {
    CtimeAgrees(root, a, b);
    GrowthAgrees(root, a, b);
    NumbersShown(root, a);
    NumbersShown(root, b);
    assert StateOf(a).mode == Octal(a.stat.mode) && StateOf(b).mode == Octal(b.stat.mode);
    assert StateOf(a).uploads == HasUploads(a.path) == StateOf(b).uploads;
    hide EntryFields, StateOf, EntryForm, Octal, KindName, NonExecutable, CtimeOnly, MonotonicGrowth, Relative, PathHex,
      ShortPath, HasUploads, EndsWith, CanonicalDecimal, CanonicalSigned, ParseDecimal, ParseSigned, ExpectedChange;
  }

  /** What derive refuses for a regular file, the helper refuses under every rule. */
  lemma RefusedAlike(root: ByteString, a: Entry, b: Entry, proof: PrefixProof, r: Rule)
    requires TwoStates(root, a, b) && RuleForm(r) && a.stat.kind == REGULAR && b.stat.kind == REGULAR
    requires BehaviorOf(Modification(a, b)).None?
    ensures !DriftAllowed(r, EntryFields(root, a), EntryFields(root, b), proof)
  {
    CtimeAgrees(root, a, b);
    GrowthAgrees(root, a, b);
    NumbersShown(root, a);
    NumbersShown(root, b);
    var s, t := StateOf(a), StateOf(b);
    assert s.mode == Octal(a.stat.mode) && t.mode == Octal(b.stat.mode) && s.kind == "REGULAR" && t.kind == "REGULAR";
    hide EntryFields, StateOf, EntryForm, Octal, NonExecutable, CtimeOnly, MonotonicGrowth, Relative, PathHex,
      ShortPath, HasUploads, EndsWith, CanonicalDecimal, CanonicalSigned, ParseDecimal, ParseSigned, CanonicalRelHex;
  }

  // ----- Two observations -----

  /** decode_rel. */
  predicate DecodeRelOk(hex: string) {
    && 0 < |hex| <= 8192 && HexText(hex)
    && var raw := Unhex(hex);
       raw[0] != '/' && (0 as char) !in raw && forall i | 0 <= i < |Split(raw, '/')| ::
         Split(raw, '/')[i] !in {"", ".", ".."}
  }

  lemma {:induction false} SplitParts(s: string, sep: char, c: char)
    requires c !in s
    ensures forall i | 0 <= i < |Split(s, sep)| :: c !in Split(s, sep)[i]
    decreases |s|
  {
    var k := FindFrom(s, sep, 0);
    if k < |s| { SplitParts(s[k + 1..], sep, c); }
  }

  lemma {:induction false} SplitBytes(s: string, sep: char)
    requires ByteText(s)
    ensures forall i | 0 <= i < |Split(s, sep)| :: ByteText(Split(s, sep)[i])
    decreases |s|
  {
    var k := FindFrom(s, sep, 0);
    if k < |s| { SplitBytes(s[k + 1..], sep); }
  }

  lemma {:induction false} SplitKeeps(s: string, sep: char, c: char)
    requires c != sep && c in s
    ensures exists i :: 0 <= i < |Split(s, sep)| && c in Split(s, sep)[i]
    decreases |s|
  {
    var k := FindFrom(s, sep, 0);
    if k < |s| {
      assert Split(s, sep) == [s[..k]] + Split(s[k + 1..], sep);
      KeptAside(s, k, c);
      hide Split;
      if c in s[k + 1..] {
        SplitKeeps(s[k + 1..], sep, c);
        var j :| 0 <= j < |Split(s[k + 1..], sep)| && c in Split(s[k + 1..], sep)[j];
        assert Split(s, sep)[j + 1] == Split(s[k + 1..], sep)[j];
      } else {
        assert Split(s, sep)[0] == s[..k];
      }
    } else {
      assert Split(s, sep)[0] == s;
    }
  }

  lemma KeptAside(s: string, k: nat, c: char)
    requires k < |s| && c in s && s[k] != c
    ensures c in s[..k] || c in s[k + 1..]
  {
    var i :| 0 <= i < |s| && s[i] == c;
    if i < k { assert s[..k][i] == c; } else { assert s[k + 1..][i - k - 1] == c; }
  }

  /** The component tests of both readers, on a path without NUL. */
  lemma PartsAgree(raw: string)
    requires ByteText(raw) && raw != "" && (0 as char) !in raw
    ensures (forall i | 0 <= i < |Split(raw, '/')| :: SafeComponent(Split(raw, '/')[i])) <==>
      forall i | 0 <= i < |Split(raw, '/')| :: Split(raw, '/')[i] !in {"", ".", ".."}
  {
    SplitBytes(raw, '/');
    SplitParts(raw, '/', 0 as char);
    var parts := Split(raw, '/');
    hide Split, ByteText;
    forall i | 0 <= i < |parts| ensures SafeComponent(parts[i]) <==> parts[i] !in {"", ".", ".."} {
      assert Free(parts[i], '/');
    }
    assert forall i | 0 <= i < |parts| :: parts[i] !in {"", ".", ".."} <==> SafeComponent(parts[i]);
  }

  /** A NUL or a leading slash leaves an unsafe component. */
  lemma UnsafePart(raw: string)
    requires ByteText(raw) && raw != "" && ((0 as char) in raw || raw[0] == '/')
    ensures exists i :: 0 <= i < |Split(raw, '/')| && !SafeComponent(Split(raw, '/')[i])
    ensures raw[0] == '/' ==> exists i :: 0 <= i < |Split(raw, '/')| && Split(raw, '/')[i] in {"", ".", ".."}
  {
    if raw[0] == '/' {
      SplitStep("", '/', raw[1..]);
      assert raw == "" + ['/'] + raw[1..];
      assert Split(raw, '/')[0] == "";
    } else {
      SplitKeeps(raw, '/', 0 as char);
      var i :| 0 <= i < |Split(raw, '/')| && (0 as char) in Split(raw, '/')[i];
      assert !SafeComponent(Split(raw, '/')[i]);
    }
  }

  /** Both readers accept the same relative paths. */
  lemma DecodeRelCanonical(hex: string)
    ensures DecodeRelOk(hex) <==> hex != "" && CanonicalRelHex(hex)
  {
    hide Split, SafeComponent;
    if HexText(hex) && hex != "" {
      var raw := Unhex(hex);
      hide HexText, Unhex;
      if (0 as char) in raw || raw[0] == '/' { UnsafePart(raw); } else { PartsAgree(raw); }
    }
  }

  datatype Role = AppendOnlyLog | GeneratedState

  /** wp-config.php */
  const HIGH_PATH: string := "77702d636f6e6669672e706870"

  predicate Indexable(rows: seq<DeltaRecord>) {
    && (forall i | 0 <= i < |rows| :: DecodeRelOk(rows[i].path) && BehaviorOf(rows[i]).Some?)
    && forall i, j | 0 <= i < j < |rows| :: rows[i].path != rows[j].path
  }

  type Index = map<string, DeltaRecord>

  function IndexOf(rows: seq<DeltaRecord>): Index {
    if |rows| == 0 then map[] else IndexOf(rows[..|rows| - 1])[rows[|rows| - 1].path := rows[|rows| - 1]]
  }

  lemma {:induction false} IndexHas(rows: seq<DeltaRecord>, p: string)
    ensures p in IndexOf(rows) <==> exists i :: 0 <= i < |rows| && rows[i].path == p
    ensures p in IndexOf(rows) ==> IndexOf(rows)[p] in rows && IndexOf(rows)[p].path == p
  {
    if |rows| > 0 { IndexHas(rows[..|rows| - 1], p); }
  }

  /** index: none stands for fail. */
  method IndexRows(rows: seq<DeltaRecord>) returns (m: Option<Index>)
    ensures m.Some? <==> Indexable(rows)
    ensures m.Some? ==> m.value == IndexOf(rows)
  {
    hide DecodeRelOk, BehaviorOf;
    var known: Index := map[];
    for i := 0 to |rows|
      invariant Indexable(rows[..i]) && known == IndexOf(rows[..i])
    {
      IndexHas(rows[..i], rows[i].path);
      if !DecodeRelOk(rows[i].path) || BehaviorOf(rows[i]).None? || rows[i].path in known { return None; }
      known := known[rows[i].path := rows[i]];
      assert rows[..i + 1][..i] == rows[..i];
    }
    assert rows[..|rows|] == rows;
    m := Some(known);
  }

  /** The first observation ended where the second began. */
  predicate Continuous(l: DeltaRecord, r: DeltaRecord) {
    && l.pass2.Some? && r.pass1.Some?
    && (if BehaviorOf(l) == Some(CtimeChange)
        then WithoutCtime(l.pass2.value) == WithoutCtime(r.pass1.value) && r.pass1.value.ctime >= l.pass2.value.ctime
        else l.pass2 == r.pass1)
  }

  predicate Matched(l: Index, r: Index) {
    && l.Keys == r.Keys
    && forall p | p in l && p in r :: BehaviorOf(l[p]) == BehaviorOf(r[p]) && Continuous(l[p], r[p])
  }

  /** high_sensitivity_state. */
  predicate HighStable(l: DeltaRecord, r: DeltaRecord) {
    && l.pass1.Some? && l.pass2.Some? && r.pass1.Some? && r.pass2.Some?
    && var s1, s2, s3, s4 := l.pass1.value, l.pass2.value, r.pass1.value, r.pass2.value;
       && s1.kind == "REGULAR" && s1.target.None? && !s1.uploads && s1.nlink == 1 && s1.sha.Some?
       && HexDigest(s1.sha.value)
       && NonExecutable(s1.mode) && WithoutCtime(s2) == WithoutCtime(s3) == WithoutCtime(s4) == WithoutCtime(s1)
       && s1.ctime <= s2.ctime <= s3.ctime <= s4.ctime && s1.ctime < s4.ctime
  }

  /** The provenance row of a path justifies its behaviour. */
  predicate RoleFits(r: DeltaRecord, role: Role) {
    if BehaviorOf(r) == Some(CtimeChange) then role == GeneratedState
    else role == AppendOnlyLog && HexText(r.path) && EndsWith(Lower(Unhex(r.path)), LOG_SUFFIX)
  }

  predicate ScopeFits(l: Index, roles: map<string, Role>, high: bool) {
    && (high ==> HIGH_PATH in l && BehaviorOf(l[HIGH_PATH]) == Some(CtimeChange))
    && 1 <= |roles| <= 64 && roles.Keys == l.Keys - (if high then {HIGH_PATH} else {})
    && forall p | p in roles && p in l :: RoleFits(l[p], roles[p])
  }

  function PathText(): DeltaRecord -> string { (r: DeltaRecord) => r.path }

  function RuleFor(r: DeltaRecord): Rule {
    RuleOf(if BehaviorOf(r).Some? then BehaviorOf(r).value else CtimeChange, r.path)
  }

  /** One rule for each path, in path order. */
  function RulesFor(rows: seq<DeltaRecord>): (rules: seq<Rule>)
    ensures |rules| == |rows|
  {
    var sorted := Sort(rows, PathText());
    seq(|sorted|, i requires 0 <= i < |sorted| => RuleFor(sorted[i]))
  }

  /** What derive demands of two observations and the provenance roles, the path of the configuration file apart. */
  predicate Justified(left: seq<DeltaRecord>, right: seq<DeltaRecord>, roles: map<string, Role>, high: bool) {
    && 0 < |left| == |right| && Indexable(left) && Indexable(right)
    && var l, r := IndexOf(left), IndexOf(right);
       && Matched(l, r) && ScopeFits(l, roles, high)
       && (high ==> HIGH_PATH in l && HIGH_PATH in r && HighStable(l[HIGH_PATH], r[HIGH_PATH]))
  }

  lemma {:induction false} IndexExact(rows: seq<DeltaRecord>, i: nat)
    requires i < |rows| && forall j, k | 0 <= j < k < |rows| :: rows[j].path != rows[k].path
    ensures rows[i].path in IndexOf(rows) && IndexOf(rows)[rows[i].path] == rows[i]
  {
    if i < |rows| - 1 { IndexExact(rows[..|rows| - 1], i); }
  }

  /** The record of one path in both observations. */
  predicate Repeated(l: Index, r: Index, p: string) requires p in l && p in r {
    BehaviorOf(l[p]) == BehaviorOf(r[p]) && Continuous(l[p], r[p])
  }

  /** The comparison of the two indexes, path by path. */
  method CheckRepeated(left: seq<DeltaRecord>, l: Index, r: Index) returns (ok: bool)
    requires Indexable(left) && l == IndexOf(left)
    ensures ok <==> Matched(l, r)
  {
    hide Indexable, IndexOf, BehaviorOf, Continuous;
    if l.Keys != r.Keys { return false; }
    for i := 0 to |left|
      invariant forall k | 0 <= k < i :: left[k].path in l && left[k].path in r && Repeated(l, r, left[k].path)
    {
      IndexHas(left, left[i].path);
      if !Repeated(l, r, left[i].path) { return false; }
    }
    forall p | p in l && p in r ensures Repeated(l, r, p) { IndexHas(left, p); }
    ok := true;
  }

  /** What the last loop of derive asks of one path: the configuration file has its own rules, any other its provenance
      row. */
  predicate PathFits(l: Index, r: Index, roles: map<string, Role>, high: bool, p: string) {
    if high && p == HIGH_PATH then p in l && p in r && HighStable(l[p], r[p])
    else p in roles && p in l && RoleFits(l[p], roles[p])
  }

  /** The last loop of derive, over the sorted paths: one token part for each. */
  method TokenParts(left: seq<DeltaRecord>, l: Index, r: Index, roles: map<string, Role>, high: bool)
    returns (parts: Option<seq<string>>)
    requires Indexable(left) && l == IndexOf(left) && Matched(l, r)
    requires (high ==> HIGH_PATH in l && BehaviorOf(l[HIGH_PATH]) == Some(CtimeChange))
      && roles.Keys == l.Keys - (if high then {HIGH_PATH} else {})
    ensures parts.Some? <==>
      && (forall p | p in roles && p in l :: RoleFits(l[p], roles[p]))
      && (high ==> HIGH_PATH in l && HIGH_PATH in r && HighStable(l[HIGH_PATH], r[HIGH_PATH]))
    ensures parts.Some? ==> parts.value == RuleTexts(RulesFor(left))
  {
    hide BehaviorOf, Continuous, HighStable, RoleFits, DecodeRelOk, RuleText, IndexOf, Indexable, Matched, RuleTexts,
      RulesFor, RuleFor, Sort;
    var sorted := Sort(left, PathText());
    var texts: seq<string> := [];
    for i := 0 to |sorted|
      invariant texts == RuleTexts(RulesFor(left))[..i]
      invariant forall k | 0 <= k < i :: PathFits(l, r, roles, high, sorted[k].path)
    {
      var p := sorted[i].path;
      SortedKnown(left, i);
      PartAt(left, i);
      if !PathFits(l, r, roles, high, p) {
        parts := None;
        Misfit(l, r, roles, high, p);
        return;
      }
      texts := texts + [if high && p == HIGH_PATH then "C:" + p else RuleText(RuleFor(l[p]))];
      HighPart(l, high, p);
    }
    FitsEverywhere(left, sorted, l, r, roles, high);
    parts := Some(texts);
  }

  lemma PartAt(left: seq<DeltaRecord>, i: nat)
    requires i < |left|
    ensures var sorted, texts := Sort(left, PathText()), RuleTexts(RulesFor(left));
      |sorted| == |texts| == |left| && texts[i] == RuleText(RuleFor(sorted[i]))
        && texts[..i + 1] == texts[..i] + [texts[i]]
  {
    hide Sort, RuleFor, RuleText;
  }

  lemma SortedKnown(left: seq<DeltaRecord>, i: nat)
    requires Indexable(left) && i < |left|
    ensures var sorted := Sort(left, PathText());
      |sorted| == |left| && sorted[i].path in IndexOf(left) && IndexOf(left)[sorted[i].path] == sorted[i]
  {
    hide BehaviorOf, DecodeRelOk, IndexOf, Sort;
    var sorted := Sort(left, PathText());
    assert sorted[i] in multiset(sorted) && sorted[i] in left;
    var k :| 0 <= k < |left| && left[k] == sorted[i];
    IndexExact(left, k);
  }

  lemma Misfit(l: Index, r: Index, roles: map<string, Role>, high: bool, p: string)
    requires Matched(l, r) && roles.Keys == l.Keys - (if high then {HIGH_PATH} else {}) && p in l
      && !PathFits(l, r, roles, high, p)
    ensures !((forall q | q in roles && q in l :: RoleFits(l[q], roles[q]))
              && (high ==> HIGH_PATH in l && HIGH_PATH in r && HighStable(l[HIGH_PATH], r[HIGH_PATH])))
  {
    hide RoleFits, HighStable, BehaviorOf, Continuous;
    assert p in roles.Keys || (high && p == HIGH_PATH);
  }

  lemma HighPart(l: Index, high: bool, p: string)
    requires p in l && l[p].path == p && (high ==> HIGH_PATH in l && BehaviorOf(l[HIGH_PATH]) == Some(CtimeChange))
    ensures high && p == HIGH_PATH ==> RuleText(RuleFor(l[p])) == "C:" + p
  {
    hide BehaviorOf;
  }

  lemma FitsEverywhere(left: seq<DeltaRecord>, sorted: seq<DeltaRecord>, l: Index, r: Index, roles: map<string, Role>,
    high: bool)
    requires multiset(sorted) == multiset(left) && l == IndexOf(left)
    requires (high ==> HIGH_PATH in l) && roles.Keys == l.Keys - (if high then {HIGH_PATH} else {})
    requires forall k | 0 <= k < |sorted| :: PathFits(l, r, roles, high, sorted[k].path)
    ensures forall p | p in roles && p in l :: RoleFits(l[p], roles[p])
    ensures high ==> HIGH_PATH in l && HIGH_PATH in r && HighStable(l[HIGH_PATH], r[HIGH_PATH])
  {
    hide RoleFits, HighStable, IndexOf, PathFits;
    forall p | p in l ensures PathFits(l, r, roles, high, p) {
      IndexHas(left, p);
      assert l[p] in multiset(left);
      assert l[p] in sorted;
    }
    forall p | p in roles && p in l ensures RoleFits(l[p], roles[p]) { FitOne(l, r, roles, high, p); }
    if high { FitOne(l, r, roles, high, HIGH_PATH); }
  }

  lemma FitOne(l: Index, r: Index, roles: map<string, Role>, high: bool, p: string)
    requires p in l && PathFits(l, r, roles, high, p) && roles.Keys == l.Keys - (if high then {HIGH_PATH} else {})
    ensures p in roles ==> RoleFits(l[p], roles[p])
    ensures high && p == HIGH_PATH ==> p in r && HighStable(l[p], r[p])
  {
    hide RoleFits, HighStable;
    assert p in roles ==> p in roles.Keys;
  }

  /** The scope and token part of derive: none stands for fail. */
  method DeriveToken(left: seq<DeltaRecord>, right: seq<DeltaRecord>, roles: map<string, Role>, high: bool)
    returns (token: Option<string>)
    ensures token == if Justified(left, right, roles, high) && |Token(RulesFor(left))| <= TOKEN_CAP
      then Some(Token(RulesFor(left))) else None
  {
    hide Indexable, IndexOf, Matched, HighStable, Token, RulesFor, RoleFits, BehaviorOf, RuleTexts;
    if |left| == 0 || |left| != |right| { return None; }
    var l := IndexRows(left);
    if l.None? { return None; }
    var r := IndexRows(right);
    if r.None? { return None; }
    var ok := CheckRepeated(left, l.value, r.value);
    if !ok { return None; }
    if high && (HIGH_PATH !in l.value || BehaviorOf(l.value[HIGH_PATH]) != Some(CtimeChange)) { return None; }
    if !(1 <= |roles| <= 64) || roles.Keys != l.value.Keys - (if high then {HIGH_PATH} else {}) { return None; }
    var parts := TokenParts(left, l.value, r.value, roles, high);
    if parts.None? { return None; }
    var text := Join(parts.value, ',');
    TokenJoins(RulesFor(left));
    token := if |text| > TOKEN_CAP then None else Some(text);
  }

  lemma TokenJoins(rules: seq<Rule>)
    ensures Join(RuleTexts(rules), ',') == Token(rules)
  {
  }

  lemma {:induction false} IndexSize(rows: seq<DeltaRecord>)
    requires forall i, j | 0 <= i < j < |rows| :: rows[i].path != rows[j].path
    ensures |IndexOf(rows).Keys| == |rows|
  {
    if |rows| > 0 {
      var n := |rows| - 1;
      IndexSize(rows[..n]);
      IndexHas(rows[..n], rows[n].path);
      assert IndexOf(rows).Keys == IndexOf(rows[..n]).Keys + {rows[n].path};
    }
  }

  lemma ScopeSize(keys: set<string>, roles: set<string>, high: bool)
    requires roles == keys - (if high then {HIGH_PATH} else {}) && (high ==> HIGH_PATH in keys)
    ensures |keys| == |roles| + (if high then 1 else 0)
  {
    if high { assert keys == roles + {HIGH_PATH}; } else { assert keys == roles; }
  }

  lemma SortedRules(rows: seq<DeltaRecord>)
    requires Indexable(rows)
    ensures RulesAscend(RulesFor(rows)) && forall i | 0 <= i < |rows| :: RuleForm(RulesFor(rows)[i])
  {
    hide DecodeRelOk, BehaviorOf, CanonicalRelHex, Less;
    var sorted := Sort(rows, PathText());
    SortAscends(rows, PathText());
    forall i | 0 <= i < |rows| ensures RuleForm(RulesFor(rows)[i]) {
      assert sorted[i] in multiset(rows);
      assert sorted[i] in rows;
      DecodeRelCanonical(sorted[i].path);
    }
    forall i, j | 0 <= i < j < |rows| ensures Less(RulesFor(rows)[i].path, RulesFor(rows)[j].path) {
      assert Less(PathText()(sorted[i]), PathText()(sorted[j]));
    }
  }

  /** A derived token always names well-formed rules in strict order; the helper reads back exactly those rules,
      unless 64 provenance rows are joined by the configuration file, when it refuses the token. */
  lemma DerivedTokenRead(left: seq<DeltaRecord>, right: seq<DeltaRecord>, roles: map<string, Role>, high: bool)
    requires Justified(left, right, roles, high) && |Token(RulesFor(left))| <= TOKEN_CAP
    ensures |RulesFor(left)| == |roles| + (if high then 1 else 0)
    ensures ParseToken(Token(RulesFor(left))) == if |roles| == 64 && high then None else Some(RulesFor(left))
  {
    var l := IndexOf(left);
    assert roles.Keys == l.Keys - (if high then {HIGH_PATH} else {}) && 1 <= |roles.Keys| <= 64;
    IndexSize(left);
    SortedRules(left);
    hide Justified, RulesFor, ParseToken, RulesAscend, RuleForm, IndexOf, Indexable;
    ScopeSize(l.Keys, roles.Keys, high);
    TokenInverse(RulesFor(left));
  }

  /** Between the first and the last of the four observed states of a justified log, the object is the same, its
      size only grows and its times never run back; of a justified ctime change, nothing but ctime differs. */
  lemma ObservationChain(left: seq<DeltaRecord>, right: seq<DeltaRecord>, roles: map<string, Role>, high: bool,
    p: string)
    requires Justified(left, right, roles, high) && p in IndexOf(left)
    ensures var l, r := IndexOf(left), IndexOf(right);
      && p in r && l[p].pass1.Some? && r[p].pass2.Some? && BehaviorOf(l[p]).Some?
      && var first, last := l[p].pass1.value, r[p].pass2.value;
         match BehaviorOf(l[p]).value
         case CtimeChange => WithoutCtime(first) == WithoutCtime(last)
         case _ =>
          && SameIdentity(first, last) && last.size >= first.size + 2
          && last.mtime >= first.mtime && last.ctime >= first.ctime
  {
    IndexHas(left, p);
    IndexHas(right, p);
    hide IndexOf, DecodeRelOk, ScopeFits, HighStable, NonExecutable;
    var i :| 0 <= i < |left| && left[i] == IndexOf(left)[p];
  }
}
