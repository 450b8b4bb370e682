/** Producer and reader of the inventory agree: what a finished walk prints passes every check of
    parse_inventory, unless an object has a time before 1970. */
module Agreement {
  import opened Text
  import opened Records
  import opened Sorting
  import opened Walk
  import opened Inventory

  // ----- Selecting rows -----

  lemma {:induction false} TaggedConcat(a: seq<string>, b: seq<string>, tag: string)
    ensures TaggedLines(a + b, tag) == TaggedLines(a, tag) + TaggedLines(b, tag)
  {
    if |b| == 0 {
      assert a + b == a;
    } else {
      assert (a + b)[..|a + b| - 1] == a + b[..|b| - 1];
      TaggedConcat(a, b[..|b| - 1], tag);
    }
  }

  lemma {:induction false} TaggedAll(a: seq<string>, tag: string)
    requires forall i | 0 <= i < |a| :: FirstField(a[i]) == tag
    ensures TaggedLines(a, tag) == a
  {
    if |a| > 0 {
      TaggedAll(a[..|a| - 1], tag);
      assert a == a[..|a| - 1] + [a[|a| - 1]];
    }
  }

  lemma {:induction false} TaggedNone(a: seq<string>, tag: string)
    requires forall i | 0 <= i < |a| :: FirstField(a[i]) != tag
    ensures TaggedLines(a, tag) == []
  {
    if |a| > 0 { TaggedNone(a[..|a| - 1], tag); }
  }

  // ----- The three binding rows -----

  lemma RowSplits(f: Fields)
    requires |f| >= 1 && AllAbove(f)
    ensures Split(Join(f, TAB), TAB) == f
  {
    AboveFree(f);
    SplitJoin(f, TAB);
  }

  lemma RootFieldsAbove(root: ByteString, s: Stat)
    ensures AllAbove(RootFields(root, s))
  {
    hide Decimal, SignedDecimal, Hex;
    HexAbove(Hex(root));
    DecimalAbove(s.dev);
    DecimalAbove(s.ino);
    DecimalAbove(s.uid);
    DecimalAbove(s.gid);
    DecimalAbove(s.nlink);
    SignedAbove(s.mtime);
    SignedAbove(s.ctime);
    assert Above("ROOT", TAB) && Above(Octal(s.mode), TAB);
  }

  lemma RuntimeFieldsAbove(pin: Pin, runtimeSha: string, identitySha: string)
    requires PinForm(pin) && HexDigest(runtimeSha) && HexDigest(identitySha)
    ensures AllAbove(RuntimeFields(pin, runtimeSha, identitySha))
  {
    hide Hex;
    HexAbove(Hex(pin.path));
    HexAbove(runtimeSha);
    HexAbove(identitySha);
    assert Above("RUNTIME", TAB);
  }

  lemma CapsAbove(seconds: nat)
    ensures AllAbove(Caps(seconds))
  {
    hide Decimal;
    DecimalAbove(seconds);
  }

  lemma SummaryFieldsAbove(c: Counters, issues: nat, complete: bool, commitment: string, seconds: nat)
    requires HexDigest(commitment)
    ensures AllAbove(SummaryFields(c, issues, complete, commitment, seconds))
  {
    hide Decimal, Caps;
    DecimalAbove(c.entries);
    DecimalAbove(c.directories);
    DecimalAbove(c.files);
    DecimalAbove(c.hashed);
    DecimalAbove(c.hashedBytes);
    DecimalAbove(c.uploads);
    DecimalAbove(c.other);
    DecimalAbove(issues);
    HexAbove(commitment);
    CapsAbove(seconds);
    assert Above("SUMMARY", TAB) && Above(Truth(complete), TAB);
  }

  /** Rows of different types sort like their tags. */
  lemma TagOrder(f: Fields, g: Fields)
    requires |f| >= 2 && |g| >= 2 && AllAbove(f) && AllAbove(g) && f[0] != g[0]
    ensures Less(Join(f, TAB), Join(g, TAB)) <==> Less(f[0], g[0])
  {
    LessBeforeSeparator(f[0], g[0], TAB, Join(f[1..], TAB), Join(g[1..], TAB));
  }

  lemma TagsInOrder()
    ensures Less("ENTRY", "ROOT") && Less("ROOT", "RUNTIME") && Less("RUNTIME", "SUMMARY")
      && Less("SUMMARY", "UNRESOLVED")
    ensures Less("ENTRY", "RUNTIME") && Less("ENTRY", "SUMMARY") && Less("ENTRY", "UNRESOLVED")
    ensures Less("ROOT", "SUMMARY") && Less("ROOT", "UNRESOLVED") && Less("RUNTIME", "UNRESOLVED")
  {
    assert Less("OOT"[..], "UNTIME"[..]);
  }

  // ----- The five groups of a snapshot -----

  ghost predicate DigestForm(sha: string -> string) { forall s: string :: HexDigest(sha(s)) }

  lemma BindingRows(sha: string -> string, r: Result)
    requires ResultForm(r) && DigestForm(sha)
    ensures Split(Bindings(sha, r)[0], TAB) == RootFields(r.root, r.rootStat)
    ensures Split(Bindings(sha, r)[1], TAB) == RuntimeFields(r.pin, r.runtimeSha, r.identitySha)
    ensures Split(Bindings(sha, r)[2], TAB)
            == SummaryFields(CountersOf(r.rows), |r.issues|, r.complete, Commitment(sha, r), r.seconds)
  {
    hide RootFields, RuntimeFields, SummaryFields, CountersOf, Split, Join, AllAbove, Covered, EntryForm, IssueForm;
    RootFieldsAbove(r.root, r.rootStat);
    RowSplits(RootFields(r.root, r.rootStat));
    RuntimeFieldsAbove(r.pin, r.runtimeSha, r.identitySha);
    RowSplits(RuntimeFields(r.pin, r.runtimeSha, r.identitySha));
    SummaryFieldsAbove(CountersOf(r.rows), |r.issues|, r.complete, Commitment(sha, r), r.seconds);
    RowSplits(SummaryFields(CountersOf(r.rows), |r.issues|, r.complete, Commitment(sha, r), r.seconds));
  }

  lemma BindingTags(sha: string -> string, r: Result)
    requires ResultForm(r) && DigestForm(sha)
    ensures FirstField(Bindings(sha, r)[0]) == "ROOT"
    ensures FirstField(Bindings(sha, r)[1]) == "RUNTIME"
    ensures FirstField(Bindings(sha, r)[2]) == "SUMMARY"
  {
    hide Split, Decimal, SignedDecimal, Hex, Octal, ResultForm;
    BindingRows(sha, r);
  }

  lemma EntryTags(root: ByteString, rows: seq<Entry>)
    requires forall i | 0 <= i < |rows| :: EntryForm(rows[i])
    ensures forall i | 0 <= i < |rows| :: Split(EntryLines(root, rows)[i], TAB) == EntryFields(root, rows[i])
    ensures forall i | 0 <= i < |rows| :: FirstField(EntryLines(root, rows)[i]) == "ENTRY"
  {
    hide Split, Decimal, SignedDecimal, Hex, Octal;
    forall i | 0 <= i < |rows|
      ensures Split(EntryLines(root, rows)[i], TAB) == EntryFields(root, rows[i])
      ensures FirstField(EntryLines(root, rows)[i]) == "ENTRY"
    {
      EntryLineSplits(root, rows[i]);
    }
  }

  lemma IssueTags(issues: seq<Issue>)
    requires forall i | 0 <= i < |issues| :: IssueForm(issues[i])
    ensures forall i | 0 <= i < |issues| :: Split(IssueLines(issues)[i], TAB) == IssueFields(issues[i])
    ensures forall i | 0 <= i < |issues| :: FirstField(IssueLines(issues)[i]) == "UNRESOLVED"
  {
    hide Split, Hex;
    forall i | 0 <= i < |issues|
      ensures Split(IssueLines(issues)[i], TAB) == IssueFields(issues[i])
      ensures FirstField(IssueLines(issues)[i]) == "UNRESOLVED"
    {
      IssueLineSplits(issues[i]);
    }
  }

  /** Selecting one row type from entries, three bindings and issues. */
  lemma TaggedGroups(a: seq<string>, b: seq<string>, c: seq<string>, tag: string)
    requires |b| == 3
    requires forall i | 0 <= i < |a| :: FirstField(a[i]) == "ENTRY"
    requires FirstField(b[0]) == "ROOT" && FirstField(b[1]) == "RUNTIME" && FirstField(b[2]) == "SUMMARY"
    requires forall i | 0 <= i < |c| :: FirstField(c[i]) == "UNRESOLVED"
    requires tag in {"ENTRY", "ROOT", "RUNTIME", "SUMMARY", "UNRESOLVED"}
    ensures TaggedLines(a + b + c, tag) ==
      if tag == "ENTRY" then a else if tag == "ROOT" then [b[0]] else if tag == "RUNTIME" then [b[1]]
      else if tag == "SUMMARY" then [b[2]] else c
  {
    hide FirstField;
    TaggedConcat(a + b, c, tag);
    TaggedConcat(a, b, tag);
    if tag == "ENTRY" { TaggedAll(a, tag); } else { TaggedNone(a, tag); }
    if tag == "UNRESOLVED" { TaggedAll(c, tag); } else { TaggedNone(c, tag); }
    TaggedThree(b, tag);
  }

  lemma TaggedThree(b: seq<string>, tag: string)
    requires |b| == 3
    requires FirstField(b[0]) == "ROOT" && FirstField(b[1]) == "RUNTIME" && FirstField(b[2]) == "SUMMARY"
    ensures TaggedLines(b, tag) ==
      if tag == "ROOT" then [b[0]] else if tag == "RUNTIME" then [b[1]] else if tag == "SUMMARY" then [b[2]] else []
  {
    hide FirstField;
    assert b == [b[0]] + [b[1]] + [b[2]];
    TaggedConcat([b[0]] + [b[1]], [b[2]], tag);
    TaggedConcat([b[0]], [b[1]], tag);
    TaggedOne(b[0], tag);
    TaggedOne(b[1], tag);
    TaggedOne(b[2], tag);
  }

  lemma TaggedOne(line: string, tag: string)
    ensures TaggedLines([line], tag) == if FirstField(line) == tag then [line] else []
  {
    hide FirstField;
    assert [line][..0] == [];
    assert TaggedLines([], tag) == [];
  }

  // ----- Order -----

  function TagAt(n: nat, k: nat): string {
    if k < n then "ENTRY" else if k == n then "ROOT" else if k == n + 1 then "RUNTIME"
    else if k == n + 2 then "SUMMARY" else "UNRESOLVED"
  }

  lemma TagAtOrder(n: nat, i: nat, j: nat)
    requires i < j && TagAt(n, i) != TagAt(n, j)
    ensures Less(TagAt(n, i), TagAt(n, j))
  {
    TagsInOrder();
  }

  /** Every line is a row with its group's tag. */
  lemma RowAt(sha: string -> string, r: Result, k: nat) returns (f: Fields)
    requires ResultForm(r) && DigestForm(sha) && k < |r.rows| + 3 + |r.issues|
    ensures SnapshotLines(sha, r)[k] == Join(f, TAB) && AllAbove(f) && |f| >= 2 && f[0] == TagAt(|r.rows|, k)
  {
    hide AllAbove, Covered, EntryForm, IssueForm, CountersOf, Join, Decimal, SignedDecimal, Hex, Octal;
    var n := |r.rows|;
    if k < n {
      EntryFieldsAbove(r.root, r.rows[k]);
      f := EntryFields(r.root, r.rows[k]);
    } else if k < n + 3 {
      f := BindingAt(sha, r, k - n);
      assert SnapshotLines(sha, r)[k] == Bindings(sha, r)[k - n];
    } else {
      IssueFieldsAbove(r.issues[k - n - 3]);
      f := IssueFields(r.issues[k - n - 3]);
    }
  }

  lemma BindingAt(sha: string -> string, r: Result, k: nat) returns (f: Fields)
    requires ResultForm(r) && DigestForm(sha) && k < 3
    ensures Bindings(sha, r)[k] == Join(f, TAB) && AllAbove(f) && |f| >= 2 && f[0] == TagAt(0, k)
  {
    hide AllAbove, Covered, EntryForm, IssueForm, CountersOf, Join, Decimal, SignedDecimal, Hex, Octal;
    if k == 0 {
      RootFieldsAbove(r.root, r.rootStat);
      f := RootFields(r.root, r.rootStat);
    } else if k == 1 {
      RuntimeFieldsAbove(r.pin, r.runtimeSha, r.identitySha);
      f := RuntimeFields(r.pin, r.runtimeSha, r.identitySha);
    } else {
      SummaryFieldsAbove(CountersOf(r.rows), |r.issues|, r.complete, Commitment(sha, r), r.seconds);
      f := SummaryFields(CountersOf(r.rows), |r.issues|, r.complete, Commitment(sha, r), r.seconds);
    }
  }

  /** The snapshot is strictly sorted as it stands: entries, root, runtime, summary, issues. */
  lemma LinesAscend(sha: string -> string, r: Result)
    requires ResultForm(r) && DigestForm(sha)
    ensures Ascending(SnapshotLines(sha, r), Self())
  {
    var lines, n := SnapshotLines(sha, r), |r.rows|;
    forall i, j | 0 <= i < j < |lines| ensures Less(lines[i], lines[j]) {
      LinePair(sha, r, i, j);
    }
  }

  lemma LinePair(sha: string -> string, r: Result, i: nat, j: nat)
    requires ResultForm(r) && DigestForm(sha) && i < j < |r.rows| + 3 + |r.issues|
    ensures Less(SnapshotLines(sha, r)[i], SnapshotLines(sha, r)[j])
  {
    hide AllAbove, Covered, EntryForm, IssueForm, CountersOf, Join, Bindings, Less;
    var n := |r.rows|;
    if TagAt(n, i) != TagAt(n, j) {
      var f := RowAt(sha, r, i);
      var g := RowAt(sha, r, j);
      TagAtOrder(n, i, j);
      TagOrder(f, g);
    } else if j < n {
      assert Less(EntryKey(r.root)(r.rows[i]), EntryKey(r.root)(r.rows[j]));
    } else {
      assert i >= n + 3;
      assert Less(IssueKey()(r.issues[i - n - 3]), IssueKey()(r.issues[j - n - 3]));
    }
  }

  // ----- One row -----

  lemma RelativeHexOk(p: Path)
    requires SafePath(p)
    ensures RelativeOk(PathHex(p)) && Unhex(PathHex(p)) == Relative(p)
  {
    hide Hex, Unhex, Split;
    RelativeBytes(p);
    UnhexHex(Relative(p));
    if |p| > 0 { RelativeSplits(p); }
    if Relative(p) != "" {
      assert forall i | 0 <= i < |p| :: SafeComponent(p[i]);
    }
  }

  lemma SignedCanonical(n: int)
    ensures CanonicalDecimal(SignedDecimal(n)) <==> n >= 0
  {
    if n >= 0 { DecimalRoundTrip(n); } else { assert SignedDecimal(n)[0] == '-'; }
  }

  lemma KindNamed(k: Kind)
    ensures KindName(k) in KINDS
    ensures KindName(k) == "REGULAR" <==> k == REGULAR
    ensures KindName(k) == "DIRECTORY" <==> k == DIRECTORY
  {
    assert "REGULAR"[0] == 'R' && "DIRECTORY"[0] == 'D' && "SYMLINK"[0] == 'S' && "BLOCK_DEVICE"[0] == 'B';
    assert "CHAR_DEVICE"[0] == 'C' && "FIFO"[0] == 'F' && |"SOCKET"| == 6 && "OTHER"[0] == 'O';
  }

  lemma StatFieldsOk(s: Stat)
    ensures CanonicalDecimal(Decimal(s.size)) && ModeText(Octal(s.mode)) && CanonicalDecimal(Decimal(s.uid))
    ensures CanonicalDecimal(Decimal(s.gid)) && CanonicalDecimal(Decimal(s.dev)) && CanonicalDecimal(Decimal(s.ino))
    ensures CanonicalDecimal(Decimal(s.nlink))
    ensures CanonicalDecimal(SignedDecimal(s.mtime)) <==> s.mtime >= 0
    ensures CanonicalDecimal(SignedDecimal(s.ctime)) <==> s.ctime >= 0
  {
    hide Decimal, CanonicalDecimal, SignedDecimal;
    DecimalRoundTrip(s.size);
    DecimalRoundTrip(s.uid);
    DecimalRoundTrip(s.gid);
    DecimalRoundTrip(s.dev);
    DecimalRoundTrip(s.ino);
    DecimalRoundTrip(s.nlink);
    SignedCanonical(s.mtime);
    SignedCanonical(s.ctime);
    OctalRoundTrip(s.mode);
  }

  predicate FromEpoch(s: Stat) { s.mtime >= 0 && s.ctime >= 0 }

  /** The reader's row grammar admits a printed entry exactly when its times are not negative. */
  lemma EntryRowIff(root: ByteString, e: Entry)
    requires EntryForm(e)
    ensures EntryRowOk(EntryFields(root, e)) <==> FromEpoch(e.stat)
  {
    hide Decimal, SignedDecimal, Hex, Octal, CanonicalDecimal, ModeText, RelativeOk, KINDS, HexDigest;
    AbsoluteBytes(root, e.path);
    var f := EntryFields(root, e);
    RelativeHexOk(e.path);
    KindNamed(e.stat.kind);
    StatFieldsOk(e.stat);
    assert f[13] == "-" || HexText(f[13]);
    assert f[14] == "-" || HexDigest(f[14]);
    assert f[8] == SignedDecimal(e.stat.mtime) && f[9] == SignedDecimal(e.stat.ctime);
  }

  // ----- Cross checks -----

  lemma MentionHolds(issues: seq<Issue>, p: Path)
    requires forall i | 0 <= i < |issues| :: IssueForm(issues[i])
    requires SafePath(p)
    ensures HasIssue(issues, p) ==> Mentioned(SplitAll(IssueLines(issues)), PathHex(p))
    ensures forall reason | HasReason(issues, reason, p) ::
      MentionedAs(SplitAll(IssueLines(issues)), reason, PathHex(p))
  {
    hide Split, Hex, IssueForm;
    IssueTags(issues);
    var rows := SplitAll(IssueLines(issues));
    if HasIssue(issues, p) {
      var i :| 0 <= i < |issues| && issues[i].path == p;
      assert rows[i] == IssueFields(issues[i]);
    }
    forall reason | HasReason(issues, reason, p) ensures MentionedAs(rows, reason, PathHex(p)) {
      var i :| 0 <= i < |issues| && issues[i].path == p && issues[i].reason == reason;
      assert rows[i] == IssueFields(issues[i]);
    }
  }

  lemma UploadsAgree(p: Path)
    requires SafePath(p)
    ensures HasUploads(p) <==> "uploads" in Split(Relative(p), '/')
  {
    if |p| > 0 { RelativeSplits(p); } else { SplitLast("", '/'); }
  }

  lemma AbsoluteAgrees(root: ByteString, p: Path)
    requires SafePath(p)
    ensures Absolute(root, p) == (if Relative(p) == "" then root else root + "/" + Relative(p))
  {
    if |p| > 0 { RelativeSplits(p); }
  }

  /** Path, uploads flag and unresolved coverage of one printed entry, as the reader checks them. */
  lemma EntryConsistentHolds(root: ByteString, e: Entry, issues: seq<Issue>)
    requires EntryForm(e) && FromEpoch(e.stat) && Covered(issues, e)
    requires forall i | 0 <= i < |issues| :: IssueForm(issues[i])
    ensures EntryRowOk(EntryFields(root, e))
    ensures EntryConsistent(EntryFields(root, e), root, SplitAll(IssueLines(issues)))
  {
    EntryRowIff(root, e);
    EntryShown(root, e);
    hide *;
    RelativeHexOk(e.path);
    AbsoluteBytes(root, e.path);
    UnhexHex(Absolute(root, e.path));
    AbsoluteAgrees(root, e.path);
    UploadsAgree(e.path);
    KindNamed(e.stat.kind);
    DecimalRoundTrip(e.stat.nlink);
    MentionHolds(issues, e.path);
    ConsistentFrom(EntryFields(root, e), root, e, issues);
  }

  lemma ConsistentFrom(f: Fields, root: ByteString, e: Entry, issues: seq<Issue>)
    requires EntryRowOk(f) && SafePath(e.path) && Covered(issues, e)
    requires forall i | 0 <= i < |issues| :: IssueForm(issues[i])
    requires Unhex(f[1]) == Relative(e.path) && f[1] == PathHex(e.path)
    requires Unhex(f[2]) == if Relative(e.path) == "" then root else root + "/" + Relative(e.path)
    requires (f[14] == "-" <==> e.hash.None?) && (f[15] == "1" <==> "uploads" in Split(Relative(e.path), '/'))
    requires Value(f[12]) == e.stat.nlink
    requires (f[3] == "REGULAR" <==> e.stat.kind == REGULAR) && (f[3] == "DIRECTORY" <==> e.stat.kind == DIRECTORY)
    requires HasIssue(issues, e.path) ==> Mentioned(SplitAll(IssueLines(issues)), PathHex(e.path))
    requires HasReason(issues, "HARDLINK_UNRESOLVED", e.path)
      ==> MentionedAs(SplitAll(IssueLines(issues)), "HARDLINK_UNRESOLVED", PathHex(e.path))
    ensures EntryConsistent(f, root, SplitAll(IssueLines(issues)))
  {
    hide EntryRowOk, Split, Unhex, Relative, PathHex, Mentioned, MentionedAs, HasIssue, HasReason, SplitAll, IssueLines,
      Value;
  }

  lemma EntryShown(root: ByteString, e: Entry)
    requires EntryForm(e)
    ensures var f := EntryFields(root, e);
      && f[1] == PathHex(e.path) && f[3] == KindName(e.stat.kind) && Value(f[12]) == e.stat.nlink
      && (f[14] == "-" <==> e.hash.None?) && (f[15] == "1" <==> HasUploads(e.path))
      && ByteText(Absolute(root, e.path)) && f[2] == Hex(Absolute(root, e.path))
  {
    hide Decimal, SignedDecimal, Hex, Octal, CanonicalDecimal, KindName;
    AbsoluteBytes(root, e.path);
    HashShown(root, e);
    DecimalRoundTrip(e.stat.nlink);
  }

  lemma HashShown(root: ByteString, e: Entry)
    requires EntryForm(e)
    ensures EntryFields(root, e)[14] == "-" <==> e.hash.None?
    ensures EntryFields(root, e)[15] == "1" <==> HasUploads(e.path)
    ensures EntryFields(root, e)[12] == Decimal(e.stat.nlink)
  {
  }

  // ----- Counts -----

  /** The reader's counts over the printed rows are the helper's counters. */
  lemma CountsAgree(root: ByteString, rows: seq<Entry>, fields: seq<Fields>, unresolved: seq<Fields>)
    requires |fields| == |rows|
    requires forall i | 0 <= i < |rows| :: EntryForm(rows[i]) && fields[i] == EntryFields(root, rows[i])
    ensures var c := CountersOf(rows);
      Derived(fields, unresolved)
      == [c.entries, c.directories, c.files, c.hashed, c.hashedBytes, c.uploads, c.other, |unresolved|]
  {
    forall i | 0 <= i < |rows|
      ensures RowKind("DIRECTORY")(fields[i]) == IsKind(DIRECTORY)(rows[i])
      ensures RowKind("REGULAR")(fields[i]) == IsKind(REGULAR)(rows[i])
      ensures RowHashed()(fields[i]) == IsHashed()(rows[i])
      ensures RowHashedSize()(fields[i]) == HashedSize()(rows[i])
      ensures RowUploads()(fields[i]) == IsUploads()(rows[i])
      ensures RowOther()(fields[i]) == IsOther()(rows[i])
    {
      RowCountsAgree(root, rows[i]);
    }
    SumPointwise(fields, rows, RowKind("DIRECTORY"), IsKind(DIRECTORY));
    SumPointwise(fields, rows, RowKind("REGULAR"), IsKind(REGULAR));
    SumPointwise(fields, rows, RowHashed(), IsHashed());
    SumPointwise(fields, rows, RowHashedSize(), HashedSize());
    SumPointwise(fields, rows, RowUploads(), IsUploads());
    SumPointwise(fields, rows, RowOther(), IsOther());
  }

  lemma RowCountsAgree(root: ByteString, e: Entry)
    requires EntryForm(e)
    ensures var f := EntryFields(root, e);
      && RowKind("DIRECTORY")(f) == IsKind(DIRECTORY)(e) && RowKind("REGULAR")(f) == IsKind(REGULAR)(e)
      && RowHashed()(f) == IsHashed()(e) && RowHashedSize()(f) == HashedSize()(e)
      && RowUploads()(f) == IsUploads()(e) && RowOther()(f) == IsOther()(e)
  {
    hide Decimal, SignedDecimal, Hex, Octal, CanonicalDecimal, KindName;
    KindNamed(e.stat.kind);
    HashShown(root, e);
    DecimalRoundTrip(e.stat.size);
  }

  lemma {:induction false} ConcatIsJoin(lines: seq<string>)
    requires |lines| >= 1
    ensures Concat(lines) == Join(lines, '\n') + "\n"
  {
    if |lines| == 1 {
      assert lines[1..] == [];
      assert Concat(lines) == lines[0] + "\n" + "";
    } else {
      ConcatIsJoin(lines[1..]);
      assert lines[0] + "\n" + Concat(lines[1..]) == lines[0] + ['\n'] + Join(lines[1..], '\n') + "\n";
    }
  }

  // ----- The other row types -----

  lemma IssueRowFine(i: Issue)
    requires IssueForm(i)
    ensures IssueRowOk(IssueFields(i))
  {
    hide Hex;
  }

  lemma RootRowIff(root: ByteString, s: Stat)
    ensures RootRowOk(RootFields(root, s)) <==> FromEpoch(s)
  {
    hide Decimal, SignedDecimal, Hex, Octal, CanonicalDecimal, ModeText;
    StatFieldsOk(s);
    var f := RootFields(root, s);
    assert f[9] == SignedDecimal(s.mtime) && f[10] == SignedDecimal(s.ctime);
  }

  lemma SummaryRowFine(c: Counters, issues: nat, complete: bool, commitment: string, seconds: nat)
    requires HexDigest(commitment)
    ensures var f := SummaryFields(c, issues, complete, commitment, seconds);
      && SummaryRowOk(f) && f[10] == commitment && (f[9] == "true" <==> complete) && f[11..] == Caps(seconds)
      && (forall i | 0 <= i < 8 ::
            Value(f[i + 1]) == [c.entries, c.directories, c.files, c.hashed, c.hashedBytes, c.uploads, c.other,
              issues][i])
  {
    DecimalRoundTrip(c.entries);
    DecimalRoundTrip(c.directories);
    DecimalRoundTrip(c.files);
    DecimalRoundTrip(c.hashed);
    DecimalRoundTrip(c.hashedBytes);
    DecimalRoundTrip(c.uploads);
    DecimalRoundTrip(c.other);
    DecimalRoundTrip(issues);
    CapsFine(seconds);
    hide Decimal, CanonicalDecimal, ParseDecimal, Caps, HexDigest;
    var f := SummaryFields(c, issues, complete, commitment, seconds);
    assert f[11..] == Caps(seconds);
    assert forall i | 11 <= i < 20 :: f[i] == Caps(seconds)[i - 11];
    assert f[1] == Decimal(c.entries) && f[2] == Decimal(c.directories) && f[3] == Decimal(c.files);
    assert f[4] == Decimal(c.hashed) && f[5] == Decimal(c.hashedBytes) && f[6] == Decimal(c.uploads);
    assert f[7] == Decimal(c.other) && f[8] == Decimal(issues);
  }

  lemma CapsFine(seconds: nat)
    ensures |Caps(seconds)| == 9 && forall i | 0 <= i < 9 :: CanonicalDecimal(Caps(seconds)[i])
    ensures Caps(seconds) == Caps(900) <==> seconds == 900
  {
    DecimalRoundTrip(seconds);
    DecimalRoundTrip(900);
    hide Decimal;
    assert Caps(seconds)[6] == Decimal(seconds) && Caps(900)[6] == Decimal(900);
  }

  lemma RootEntryFine(r: Result, fields: seq<Fields>)
    requires ResultForm(r) && |fields| == |r.rows| && forall i | 0 <= i < |r.rows| ::
      fields[i] == EntryFields(r.root, r.rows[i])
    ensures RootEntryAccepted(fields, RootFields(r.root, r.rootStat))
  {
    hide Decimal, SignedDecimal, Octal, Covered, IssueForm, EntryForm, EntryFields, RootFields, EntryIdentity,
      RootIdentity;
    var k :| 0 <= k < |r.rows| && r.rows[k].path == [] && r.rows[k].stat == r.rootStat;
    RootShown(r.root, r.rows[k]);
    assert fields[k] == EntryFields(r.root, r.rows[k]);
  }

  /** The row of the root directory and the ROOT row name one object. */
  lemma RootShown(root: ByteString, e: Entry)
    requires EntryForm(e) && e.path == [] && e.stat.kind == DIRECTORY
    ensures var f, g := EntryFields(root, e), RootFields(root, e.stat);
      f[1] == "" && f[3] == "DIRECTORY" && f[2] == g[2] && EntryIdentity(f) == RootIdentity(g)
  {
    hide Decimal, SignedDecimal, Octal;
  }

  // ----- The theorem -----

  lemma SplitOne(line: string)
    ensures SplitAll([line]) == [Split(line, TAB)]
  {
    hide Split;
  }

  lemma GroupLines(sha: string -> string, r: Result)
    requires ResultForm(r) && DigestForm(sha)
    ensures var lines, b := SnapshotLines(sha, r), Bindings(sha, r);
      && TaggedLines(lines, "ENTRY") == EntryLines(r.root, r.rows)
      && TaggedLines(lines, "UNRESOLVED") == IssueLines(r.issues)
      && TaggedLines(lines, "ROOT") == [b[0]] && TaggedLines(lines, "RUNTIME") == [b[1]]
      && TaggedLines(lines, "SUMMARY") == [b[2]]
  {
    EntryTags(r.root, r.rows);
    BindingTags(sha, r);
    IssueTags(r.issues);
    GroupsFrom(EntryLines(r.root, r.rows), Bindings(sha, r), IssueLines(r.issues));
  }

  lemma GroupsFrom(a: seq<string>, b: seq<string>, c: seq<string>)
    requires |b| == 3
    requires forall i | 0 <= i < |a| :: FirstField(a[i]) == "ENTRY"
    requires FirstField(b[0]) == "ROOT" && FirstField(b[1]) == "RUNTIME" && FirstField(b[2]) == "SUMMARY"
    requires forall i | 0 <= i < |c| :: FirstField(c[i]) == "UNRESOLVED"
    ensures TaggedLines(a + b + c, "ENTRY") == a && TaggedLines(a + b + c, "ROOT") == [b[0]]
    ensures TaggedLines(a + b + c, "RUNTIME") == [b[1]] && TaggedLines(a + b + c, "SUMMARY") == [b[2]]
    ensures TaggedLines(a + b + c, "UNRESOLVED") == c
  {
    hide FirstField, TaggedLines;
    TaggedGroups(a, b, c, "ENTRY");
    TaggedGroups(a, b, c, "ROOT");
    TaggedGroups(a, b, c, "RUNTIME");
    TaggedGroups(a, b, c, "SUMMARY");
    TaggedGroups(a, b, c, "UNRESOLVED");
  }

  lemma GroupsOf(sha: string -> string, r: Result)
    requires ResultForm(r) && DigestForm(sha)
    ensures var lines := SnapshotLines(sha, r);
      && TaggedLines(lines, "ENTRY") == EntryLines(r.root, r.rows)
      && Tagged(lines, "UNRESOLVED") == SplitAll(IssueLines(r.issues))
      && Tagged(lines, "ROOT") == [RootFields(r.root, r.rootStat)]
      && Tagged(lines, "RUNTIME") == [RuntimeFields(r.pin, r.runtimeSha, r.identitySha)]
      && Tagged(lines, "SUMMARY")
         == [SummaryFields(CountersOf(r.rows), |r.issues|, r.complete, Commitment(sha, r), r.seconds)]
  {
    GroupLines(sha, r);
    BindingRows(sha, r);
    SplitOne(Bindings(sha, r)[0]);
    SplitOne(Bindings(sha, r)[1]);
    SplitOne(Bindings(sha, r)[2]);
    hide RootFields, RuntimeFields, SummaryFields, CountersOf, Covered, EntryForm, IssueForm, EntryLine, IssueLine,
      TaggedLines, Split, SplitAll, Bindings, EntryLines, IssueLines, SnapshotLines;
  }

  ghost predicate AllFromEpoch(r: Result) { forall i | 0 <= i < |r.rows| :: FromEpoch(r.rows[i].stat) }

  lemma EntryTagDecides(f: Fields)
    requires |f| > 0 && f[0] == "ENTRY"
    ensures RowOk(f) <==> EntryRowOk(f)
  {
    hide EntryRowOk;
    assert "ENTRY"[0] == 'E' && "UNRESOLVED"[0] == 'U' && "ROOT"[0] == 'R' && "RUNTIME"[0] == 'R'
      && "SUMMARY"[0] == 'S';
  }

  /** Line k of a snapshot: an admitted row, or an entry with a negative time. */
  lemma RowFine(sha: string -> string, r: Result, k: nat)
    requires ResultForm(r) && DigestForm(sha) && k < |r.rows| + 3 + |r.issues|
    requires FromEpoch(r.rootStat)
    ensures RowOk(Split(SnapshotLines(sha, r)[k], TAB)) <==> k >= |r.rows| || FromEpoch(r.rows[k].stat)
  {
    var n := |r.rows|;
    hide RootRowOk, RuntimeRowOk, SummaryRowOk, EntryRowOk, IssueRowOk, RootFields, RuntimeFields, SummaryFields,
      CountersOf, EntryFields, IssueFields, EntryLine, IssueLine, Split, EntryForm, IssueForm, Covered;
    if k < n {
      EntryTags(r.root, r.rows);
      EntryTagDecides(EntryFields(r.root, r.rows[k]));
      EntryRowIff(r.root, r.rows[k]);
    } else if k < n + 3 {
      BindingFine(sha, r, k - n);
      assert SnapshotLines(sha, r)[k] == Bindings(sha, r)[k - n];
    } else {
      IssueTags(r.issues);
      IssueRowFine(r.issues[k - n - 3]);
    }
  }

  lemma BindingFine(sha: string -> string, r: Result, k: nat)
    requires ResultForm(r) && DigestForm(sha) && k < 3 && FromEpoch(r.rootStat)
    ensures RowOk(Split(Bindings(sha, r)[k], TAB))
  {
    hide RootRowOk, SummaryRowOk, EntryRowOk, IssueRowOk, RootFields, SummaryFields, CountersOf,
      Split, EntryForm, IssueForm, Covered, Hex, HexDigest;
    BindingRows(sha, r);
    if k == 0 {
      RootRowIff(r.root, r.rootStat);
    } else if k == 1 {
      assert RuntimeRowOk(RuntimeFields(r.pin, r.runtimeSha, r.identitySha));
    } else {
      SummaryRowFine(CountersOf(r.rows), |r.issues|, r.complete, Commitment(sha, r), r.seconds);
    }
  }

  lemma PathsUniqueHolds(r: Result, fields: seq<Fields>)
    requires ResultForm(r) && |fields| == |r.rows|
    requires forall i | 0 <= i < |r.rows| :: fields[i] == EntryFields(r.root, r.rows[i])
    ensures PathsUnique(fields)
  {
    hide Decimal, SignedDecimal, Octal, Covered, IssueForm, Hex;
    forall i, j | 0 <= i < j < |fields| ensures fields[i][1] != fields[j][1] {
      var p, q := r.rows[i].path, r.rows[j].path;
      RelativeBytes(p);
      RelativeBytes(q);
      if fields[i][1] == fields[j][1] {
        HexInjective(Relative(p), Relative(q));
        RelativeInjective(p, q);
      }
    }
  }

  lemma BindingsFine(r: Result)
    requires ResultForm(r) && FromEpoch(r.rootStat)
    ensures BindingsAccepted(r.pin, RootFields(r.root, r.rootStat), RuntimeFields(r.pin, r.runtimeSha, r.identitySha))
    ensures Unhex(RootFields(r.root, r.rootStat)[2]) == r.root
  {
    hide Hex, Unhex, Decimal, SignedDecimal, Octal, HexDigest, RootRowOk, Covered, EntryForm, IssueForm;
    RootRowIff(r.root, r.rootStat);
    UnhexHex(r.root);
    UnhexHex(r.pin.path);
  }

  lemma SummaryFine(sha: string -> string, r: Result, fields: seq<Fields>, unresolved: seq<Fields>)
    requires ResultForm(r) && DigestForm(sha) && r.seconds == 900
    requires |fields| == |r.rows| && |unresolved| == |r.issues|
    requires forall i | 0 <= i < |r.rows| :: fields[i] == EntryFields(r.root, r.rows[i])
    ensures SummaryAccepted(sha, EntryLines(r.root, r.rows), fields, unresolved,
              SummaryFields(CountersOf(r.rows), |r.issues|, r.complete, Commitment(sha, r), r.seconds))
  {
    hide Split, Hex, EntryLine, EntryForm, IssueForm, Covered, CountersOf, Derived, SummaryRowOk, SummaryFields, Caps,
      Join, Concat, EntryFields, HexDigest;
    var lines := EntryLines(r.root, r.rows);
    assert Ascending(lines, Self()) by {
      forall i, j | 0 <= i < j < |lines| ensures Less(lines[i], lines[j]) {
        assert Less(EntryKey(r.root)(r.rows[i]), EntryKey(r.root)(r.rows[j]));
      }
    }
    SortOfAscending(lines, Self());
    ConcatIsJoin(lines);
    CountsAgree(r.root, r.rows, fields, unresolved);
    SummaryRowFine(CountersOf(r.rows), |r.issues|, r.complete, Commitment(sha, r), r.seconds);
  }

  /** What the walk's result prints passes every check of the independent reader if and only if no
      object has a time before 1970 and the run used the 900 second limit. */
  lemma ReaderAccepts(sha: string -> string, r: Result)
    requires ResultForm(r) && DigestForm(sha)
    ensures Accepted(r.pin, sha, SnapshotLines(sha, r)) <==> AllFromEpoch(r) && r.seconds == 900
  {
    if AllFromEpoch(r) && r.seconds == 900 {
      AcceptedIf(sha, r);
    } else if Accepted(r.pin, sha, SnapshotLines(sha, r)) {
      AcceptedOnlyIf(sha, r);
    }
  }

  lemma AcceptedIf(sha: string -> string, r: Result)
    requires ResultForm(r) && DigestForm(sha) && AllFromEpoch(r) && r.seconds == 900
    ensures Accepted(r.pin, sha, SnapshotLines(sha, r))
  {
    var lines := SnapshotLines(sha, r);
    var fields, unresolved := SplitAll(EntryLines(r.root, r.rows)), SplitAll(IssueLines(r.issues));
    assert FromEpoch(r.rootStat);
    EntryTags(r.root, r.rows);
    GroupsOf(sha, r);
    PathsUniqueHolds(r, fields);
    BindingsFine(r);
    SummaryFine(sha, r, fields, unresolved);
    RootEntryFine(r, fields);
    RowsFine(sha, r);
    EntriesFine(r, fields, unresolved);
    hide *;
    AcceptedFrom(sha, r, lines, fields, unresolved);
  }

  lemma RowsFine(sha: string -> string, r: Result)
    requires ResultForm(r) && DigestForm(sha) && AllFromEpoch(r)
    ensures RowsAccepted(SnapshotLines(sha, r))
  {
    var lines := SnapshotLines(sha, r);
    assert FromEpoch(r.rootStat);
    LinesAscend(sha, r);
    GroupsOf(sha, r);
    hide Split, EntryLine, EntryForm, IssueForm, Covered, CountersOf, SummaryFields, RootFields, RuntimeFields, RowOk,
      TaggedLines, Bindings, FromEpoch, Ascending, RootIdentity;
    forall k | 0 <= k < |lines| ensures RowOk(Split(lines[k], TAB)) { RowFine(sha, r, k); }
  }

  lemma EntriesFine(r: Result, fields: seq<Fields>, unresolved: seq<Fields>)
    requires ResultForm(r) && AllFromEpoch(r) && unresolved == SplitAll(IssueLines(r.issues))
    requires |fields| == |r.rows| && forall i | 0 <= i < |r.rows| :: fields[i] == EntryFields(r.root, r.rows[i])
    ensures forall i | 0 <= i < |fields| :: EntryRowOk(fields[i]) && EntryConsistent(fields[i], r.root, unresolved)
  {
    hide EntryFields, EntryConsistent, EntryRowOk, EntryForm, IssueForm, Covered, FromEpoch, SplitAll, IssueLines;
    forall i | 0 <= i < |fields|
      ensures EntryRowOk(fields[i]) && EntryConsistent(fields[i], r.root, unresolved)
    {
      EntryConsistentHolds(r.root, r.rows[i], r.issues);
    }
  }

  lemma AcceptedFrom(sha: string -> string, r: Result, lines: seq<string>, fields: seq<Fields>, unresolved: seq<Fields>)
    requires forall i | 0 <= i < |r.rows| :: EntryForm(r.rows[i])
    requires ByteText(r.pin.path) && RowsAccepted(lines)
    requires Tagged(lines, "ENTRY") == fields && Tagged(lines, "UNRESOLVED") == unresolved
    requires TaggedLines(lines, "ENTRY") == EntryLines(r.root, r.rows)
    requires Tagged(lines, "ROOT") == [RootFields(r.root, r.rootStat)]
    requires Tagged(lines, "RUNTIME") == [RuntimeFields(r.pin, r.runtimeSha, r.identitySha)]
    requires Tagged(lines, "SUMMARY")
             == [SummaryFields(CountersOf(r.rows), |r.issues|, r.complete, Commitment(sha, r), r.seconds)]
    requires PathsUnique(fields)
    requires BindingsAccepted(r.pin, RootFields(r.root, r.rootStat), RuntimeFields(r.pin, r.runtimeSha, r.identitySha))
    requires Unhex(RootFields(r.root, r.rootStat)[2]) == r.root
    requires SummaryAccepted(sha, EntryLines(r.root, r.rows), fields, unresolved,
               SummaryFields(CountersOf(r.rows), |r.issues|, r.complete, Commitment(sha, r), r.seconds))
    requires RootEntryAccepted(fields, RootFields(r.root, r.rootStat))
    requires forall i | 0 <= i < |fields| :: EntryRowOk(fields[i]) && EntryConsistent(fields[i], r.root, unresolved)
    ensures Accepted(r.pin, sha, lines)
  {
    hide Tagged, TaggedLines, RootFields, RuntimeFields, SummaryFields, PathsUnique, BindingsAccepted, SummaryAccepted,
      RootEntryAccepted, EntryConsistent, EntryRowOk, Unhex, EntryLines, CountersOf, EntryForm;
  }

  lemma AcceptedOnlyIf(sha: string -> string, r: Result)
    requires ResultForm(r) && DigestForm(sha) && Accepted(r.pin, sha, SnapshotLines(sha, r))
    ensures AllFromEpoch(r) && r.seconds == 900
  {
    AcceptedEntries(sha, r);
    AcceptedSeconds(sha, r);
    hide *;
  }

  lemma AcceptedEntries(sha: string -> string, r: Result)
    requires ResultForm(r) && DigestForm(sha) && Accepted(r.pin, sha, SnapshotLines(sha, r))
    ensures AllFromEpoch(r)
  {
    var lines := SnapshotLines(sha, r);
    GroupsOf(sha, r);
    EntryTags(r.root, r.rows);
    hide Split, Hex, Unhex, EntryLine, EntryForm, IssueForm, Covered, CountersOf, SummaryFields, RootFields,
      RuntimeFields, EntryFields, RootEntryAccepted, BindingsAccepted, PathsUnique, EntryConsistent, EntryRowOk, RowOk,
      TaggedLines, Bindings, SummaryAccepted, SnapshotLines, RowsAccepted, DigestForm, Ascending, DistinctPaths,
      FromEpoch;
    forall i | 0 <= i < |r.rows| ensures FromEpoch(r.rows[i].stat) {
      assert EntryRowOk(Tagged(lines, "ENTRY")[i]);
      EntryRowIff(r.root, r.rows[i]);
    }
  }

  lemma AcceptedSeconds(sha: string -> string, r: Result)
    requires ResultForm(r) && DigestForm(sha) && Accepted(r.pin, sha, SnapshotLines(sha, r))
    ensures r.seconds == 900
  {
    GroupsOf(sha, r);
    hide Split, Hex, Unhex, EntryLine, EntryForm, IssueForm, Covered, CountersOf, SummaryFields, RootFields,
      RuntimeFields, EntryFields, RootEntryAccepted, BindingsAccepted, PathsUnique, EntryConsistent, EntryRowOk, RowOk,
      TaggedLines, Bindings, SnapshotLines, Caps, SummaryRowOk, Derived, RowsAccepted, Ascending, DistinctPaths,
      HexDigest;
    assert HexDigest(Commitment(sha, r));
    SummaryRowFine(CountersOf(r.rows), |r.issues|, r.complete, Commitment(sha, r), r.seconds);
    CapsFine(r.seconds);
  }
}
