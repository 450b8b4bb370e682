/** The record cursors on the helper's own snapshots: what they find there, and that every record fits
    their buffers. */
module Streams {
  import opened Text
  import opened Records
  import opened Sorting
  import opened Walk
  import opened Inventory
  import opened Agreement
  import opened Drift
  import opened Diagnostic

  /** The snapshot text of a finished walk. */
  ghost function TextOf(sha: string -> string, r: Result): seq<string> requires ResultForm(r) { SnapshotLines(sha, r) }

  // ----- Lengths -----

  function TenTo(k: nat): nat { if k == 0 then 1 else 10 * TenTo(k - 1) }

  lemma {:induction false} DecimalLength(n: nat, k: nat)
    requires n < TenTo(k) && k >= 1
    ensures |Decimal(n)| <= k
  {
    if n >= 10 { DecimalLength(n / 10, k - 1); }
  }

  lemma WordLength(n: int)
    requires -MAX_I64 - 1 <= n <= MAX_U64
    ensures n >= 0 ==> |Decimal(n)| <= 20
    ensures |SignedDecimal(n)| <= 20
  {
    assert TenTo(5) == 100000 && TenTo(10) == 10000000000;
    assert TenTo(15) == 1000000000000000 && TenTo(19) == 10000000000000000000;
    if n >= 0 { DecimalLength(n, 20); } else { DecimalLength(-n, 19); }
  }

  /** The length of a joined row is one less than this. */
  function Total(f: seq<string>): nat { if |f| == 0 then 0 else |f[0]| + 1 + Total(f[1..]) }

  lemma {:induction false} JoinTotal(f: seq<string>, sep: char)
    requires |f| >= 1
    ensures |Join(f, sep)| + 1 == Total(f)
  {
    if |f| > 1 { JoinTotal(f[1..], sep); }
  }

  lemma {:induction false} TotalConcat(f: seq<string>, g: seq<string>)
    ensures Total(f + g) == Total(f) + Total(g)
  {
    if |f| == 0 {
      assert f + g == g;
    } else {
      assert (f + g)[1..] == f[1..] + g;
      TotalConcat(f[1..], g);
    }
  }

  lemma {:induction false} TotalBound(f: seq<string>, cap: nat)
    requires forall i | 0 <= i < |f| :: |f[i]| <= cap
    ensures Total(f) <= |f| * (cap + 1)
  {
    if |f| > 0 {
      TotalBound(f[1..], cap);
      assert |f| * (cap + 1) == (|f| - 1) * (cap + 1) + cap + 1;
    }
  }

  /** Paths the cursors can hold: no longer than the walk's own cap. */
  predicate Readable(r: Result) {
    && |r.root| <= MAX_RELATIVE_BYTES
    && (forall i | 0 <= i < |r.issues| :: ShortPath(r.issues[i].path))
    && |r.rows| <= ENTRY_CAP && |r.issues| <= ENTRY_CAP && |r.pin.mode| < 1025 && 2 * |r.pin.path| < 1025
  }

  lemma NumbersShort(root: ByteString, e: Entry)
    requires EntryForm(e)
    ensures forall i | 3 <= i < 13 :: |EntryFields(root, e)[i]| <= 20
  {
    hide Decimal, SignedDecimal, Hex;
    var s := e.stat;
    WordLength(s.size);
    WordLength(s.uid);
    WordLength(s.gid);
    WordLength(s.mtime);
    WordLength(s.ctime);
    WordLength(s.dev);
    WordLength(s.ino);
    WordLength(s.nlink);
  }

  lemma EntryFits(root: ByteString, e: Entry)
    requires EntryForm(e) && |root| <= MAX_RELATIVE_BYTES
    ensures |EntryLine(root, e)| < DIAGNOSTIC_LINE_CAP
  {
    var f := EntryFields(root, e);
    NumbersShort(root, e);
    EntryWide(root, e);
    JoinTotal(f, TAB);
    RowTotal(f);
    hide EntryFields;
  }

  lemma RowTotal(f: Fields)
    requires |f| == 16 && forall i | 3 <= i < 13 :: |f[i]| <= 20
    requires |f[0]| == 5 && |f[1]| <= 8192 && |f[2]| <= 16386 && |f[13]| <= 8192 && |f[14]| <= 64 && |f[15]| == 1
    ensures Total(f) <= 33063
  {
    HeadTotal(f[..3]);
    HeadTotal(f[13..]);
    TotalBound(f[3..13], 20);
    TotalConcat(f[..3], f[3..13] + f[13..]);
    TotalConcat(f[3..13], f[13..]);
    assert f == f[..3] + (f[3..13] + f[13..]);
  }

  lemma HeadTotal(f: Fields)
    requires |f| == 3
    ensures Total(f) == |f[0]| + |f[1]| + |f[2]| + 3
  {
    assert f[1..][1..] == [f[2]];
    assert Total(f[1..][1..]) == |f[2]| + 1;
  }

  lemma EntryWide(root: ByteString, e: Entry)
    requires EntryForm(e) && |root| <= MAX_RELATIVE_BYTES
    ensures var f := EntryFields(root, e);
      && |f[0]| == 5 && |f[1]| <= 8192 && |f[2]| <= 16386 && |f[13]| <= 8192 && |f[14]| <= 64 && |f[15]| == 1
  {
    hide Decimal, SignedDecimal, Hex;
    AbsoluteBytes(root, e.path);
    RelativeBytes(e.path);
  }

  lemma IssueFits(i: Issue)
    requires IssueForm(i) && ShortPath(i.path)
    ensures |IssueLine(i)| < DIAGNOSTIC_LINE_CAP
  {
    hide Hex;
    var f := IssueFields(i);
    RelativeBytes(i.path);
    JoinTotal(f, TAB);
    TotalBound(f, 8192);
  }

  // ----- Row shapes -----

  lemma PathCanonical(p: Path)
    requires SafePath(p)
    ensures CanonicalRelHex(PathHex(p)) <==> ShortPath(p)
  {
    hide Hex, Unhex, Split;
    RelativeBytes(p);
    UnhexHex(Relative(p));
    if |p| > 0 { RelativeSplits(p); }
  }

  lemma EntryRowForm(root: ByteString, e: Entry)
    requires EntryForm(e) && |root| <= MAX_RELATIVE_BYTES
    ensures RowForm(EntryRow, EntryLine(root, e))
    ensures RowKey(EntryRow)(EntryLine(root, e)) == PathHex(e.path)
  {
    PathCanonical(e.path);
    EntryLineSplits(root, e);
    EntryFits(root, e);
    hide EntryLine, CanonicalRelHex, ShortPath, Split;
    assert EntryFields(root, e)[0] == "ENTRY" && EntryFields(root, e)[1] == PathHex(e.path);
  }

  lemma IssueRowForm(i: Issue)
    requires IssueForm(i)
    ensures RowForm(IssueRow, IssueLine(i)) <==> ShortPath(i.path)
  {
    PathCanonical(i.path);
    IssueLineSplits(i);
    if ShortPath(i.path) { IssueFits(i); }
    hide IssueLine, CanonicalRelHex, ShortPath, Split;
  }

  /** A line starts with a tag and a tab exactly when the tag is its first field. */
  lemma PrefixIff(f: Fields, tag: string)
    requires |f| >= 2 && AllAbove(f) && Above(tag, TAB)
    ensures tag + [TAB] <= Join(f, TAB) <==> f[0] == tag
  {
    var line, p := Join(f, TAB), tag + [TAB];
    assert line == f[0] + [TAB] + Join(f[1..], TAB);
    assert Above(f[0], TAB);
    if p <= line {
      assert p[|tag|] == TAB && line[|f[0]|] == TAB;
      assert |tag| == |f[0]|;
      assert line[..|tag|] == tag && line[..|f[0]|] == f[0];
    }
  }

  lemma LinePrefix(sha: string -> string, r: Result, k: nat, tag: string)
    requires ResultForm(r) && DigestForm(sha) && k < |r.rows| + 3 + |r.issues| && Above(tag, TAB)
    ensures tag + [TAB] <= TextOf(sha, r)[k] <==> TagAt(|r.rows|, k) == tag
  {
    var f := RowAt(sha, r, k);
    PrefixIff(f, tag);
  }

  // ----- The rows a cursor finds -----

  lemma {:induction false} PrefixSkip(bad: seq<string>, rest: seq<string>, prefix: string)
    requires forall i | 0 <= i < |bad| :: !(prefix <= bad[i])
    ensures WithPrefix(bad + rest, prefix) == WithPrefix(rest, prefix)
  {
    if |bad| == 0 {
      assert bad + rest == rest;
    } else {
      assert (bad + rest)[1..] == bad[1..] + rest;
      PrefixSkip(bad[1..], rest, prefix);
    }
  }

  lemma {:induction false} PrefixAll(good: seq<string>, rest: seq<string>, prefix: string)
    requires forall i | 0 <= i < |good| :: prefix <= good[i]
    requires forall i | 0 <= i < |rest| :: !(prefix <= rest[i])
    ensures WithPrefix(good + rest, prefix) == good
  {
    if |good| == 0 {
      assert good + rest == rest + [];
      PrefixSkip(rest, [], prefix);
    } else {
      assert (good + rest)[1..] == good[1..] + rest;
      PrefixAll(good[1..], rest, prefix);
      assert good == [good[0]] + good[1..];
    }
  }

  lemma Parts(sha: string -> string, r: Result)
    requires ResultForm(r)
    ensures ByteText(r.pin.path) && forall i | 0 <= i < |r.rows| :: EntryForm(r.rows[i])
    ensures forall i | 0 <= i < |r.issues| :: IssueForm(r.issues[i])
    ensures TextOf(sha, r) == EntryLines(r.root, r.rows) + (Bindings(sha, r) + IssueLines(r.issues))
    ensures |TextOf(sha, r)| == |r.rows| + 3 + |r.issues|
    ensures forall i | 0 <= i < |r.rows| :: TextOf(sha, r)[i] == EntryLine(r.root, r.rows[i])
    ensures forall i | 0 <= i < |r.issues| :: TextOf(sha, r)[|r.rows| + 3 + i] == IssueLine(r.issues[i])
  {
    hide EntryForm, IssueForm, Bindings, EntryLine, IssueLine, Covered, Ascending, DistinctPaths;
  }

  lemma LineOfType(sha: string -> string, r: Result, t: RowType, k: nat)
    requires ResultForm(r) && DigestForm(sha) && k < |r.rows| + 3 + |r.issues|
    ensures |TextOf(sha, r)| == |r.rows| + 3 + |r.issues|
    ensures Prefix(t) <= TextOf(sha, r)[k] <==> if t.EntryRow? then k < |r.rows| else k >= |r.rows| + 3
  {
    hide ResultForm, DigestForm, TextOf, EntryForm, IssueForm, EntryLine, IssueLine, ByteText;
    Parts(sha, r);
    assert "ENTRY" + [TAB] == "ENTRY\t" && "UNRESOLVED" + [TAB] == "UNRESOLVED\t";
    LinePrefix(sha, r, k, if t.EntryRow? then "ENTRY" else "UNRESOLVED");
  }

  lemma EntryFilter(sha: string -> string, r: Result)
    requires ResultForm(r) && DigestForm(sha)
    ensures WithPrefix(TextOf(sha, r), Prefix(EntryRow)) == EntryLines(r.root, r.rows)
  {
    var lines, n, a := TextOf(sha, r), |r.rows|, EntryLines(r.root, r.rows);
    Parts(sha, r);
    hide ResultForm, DigestForm, ByteText, TextOf, Bindings, EntryLine, IssueLine, EntryForm, IssueForm, WithPrefix,
      Prefix;
    assert lines == a + lines[n..];
    forall i | 0 <= i < |a| ensures Prefix(EntryRow) <= a[i] { LineOfType(sha, r, EntryRow, i); }
    forall i | 0 <= i < |lines[n..]| ensures !(Prefix(EntryRow) <= lines[n..][i]) {
      LineOfType(sha, r, EntryRow, n + i);
    }
    PrefixAll(a, lines[n..], Prefix(EntryRow));
  }

  lemma EntriesWellFormed(r: Result)
    requires ResultForm(r) && |r.root| <= MAX_RELATIVE_BYTES
    ensures WellFormed(EntryRow, EntryLines(r.root, r.rows), None, 0)
  {
    var a := EntryLines(r.root, r.rows);
    EntryKeysAscend(r.root, r.rows);
    hide EntryLine, RowForm, RowKey, Covered, ShortPath, EntryForm, IssueForm, Ascending, DistinctPaths, PinForm;
    forall i | 0 <= i < |a| ensures RowForm(EntryRow, a[i]) { EntryRowForm(r.root, r.rows[i]); }
  }

  /** The entry cursor reads every row of every snapshot. */
  lemma EntryStream(sha: string -> string, r: Result)
    requires ResultForm(r) && DigestForm(sha) && |r.root| <= MAX_RELATIVE_BYTES
    ensures RowsIn(EntryRow, TextOf(sha, r)) == Some(EntryLines(r.root, r.rows))
  {
    EntryFilter(sha, r);
    RowsExactly(EntryRow, TextOf(sha, r), None, 0);
    EntriesWellFormed(r);
    hide WellFormed, RowsFrom, TextOf, ResultForm, DigestForm, EntryLines, ShortPath, WithPrefix, Prefix;
  }

  lemma EntryKeysAscend(root: ByteString, rows: seq<Entry>)
    requires (forall i | 0 <= i < |rows| :: EntryForm(rows[i])) && DistinctPaths(rows)
      && Ascending(rows, EntryKey(root))
    requires |root| <= MAX_RELATIVE_BYTES
    ensures Ascending(EntryLines(root, rows), RowKey(EntryRow))
  {
    hide EntryLine, RowForm, RowKey, Less, ShortPath, EntryForm;
    var a := EntryLines(root, rows);
    forall i, j | 0 <= i < j < |a| ensures Less(RowKey(EntryRow)(a[i]), RowKey(EntryRow)(a[j])) {
      EntryRowForm(root, rows[i]);
      EntryRowForm(root, rows[j]);
      EntryLineOrder(root, rows[i], rows[j]);
      assert Less(EntryKey(root)(rows[i]), EntryKey(root)(rows[j]));
    }
  }

  lemma IssueFilter(sha: string -> string, r: Result)
    requires ResultForm(r) && DigestForm(sha)
    ensures WithPrefix(TextOf(sha, r), Prefix(IssueRow)) == IssueLines(r.issues)
  {
    var n := |r.rows| + 3;
    IssuesLast(sha, r);
    hide *;
    forall k | 0 <= k < |TextOf(sha, r)| ensures Prefix(IssueRow) <= TextOf(sha, r)[k] <==> k >= n {
      IssueMark(sha, r, k);
    }
    FilterTail(TextOf(sha, r), n, Prefix(IssueRow));
  }

  lemma IssueMark(sha: string -> string, r: Result, k: nat)
    requires ResultForm(r) && DigestForm(sha) && k < |r.rows| + 3 + |r.issues|
    ensures |TextOf(sha, r)| == |r.rows| + 3 + |r.issues|
      && (Prefix(IssueRow) <= TextOf(sha, r)[k] <==> k >= |r.rows| + 3)
  {
    hide ResultForm, TextOf, Prefix;
    LineOfType(sha, r, IssueRow, k);
  }

  lemma FilterTail(lines: seq<string>, n: nat, prefix: string)
    requires n <= |lines| && forall k | 0 <= k < |lines| :: prefix <= lines[k] <==> k >= n
    ensures WithPrefix(lines, prefix) == lines[n..]
  {
    hide WithPrefix;
    var front, tail := lines[..n], lines[n..];
    assert lines == front + tail && tail == tail + [];
    PrefixSkip(front, tail, prefix);
    PrefixAll(tail, [], prefix);
  }

  lemma IssuesLast(sha: string -> string, r: Result)
    requires ResultForm(r)
    ensures |TextOf(sha, r)| == |r.rows| + 3 + |r.issues| && |IssueLines(r.issues)| == |r.issues|
    ensures TextOf(sha, r)[|r.rows| + 3..] == IssueLines(r.issues)
  {
    Parts(sha, r);
    hide TextOf, IssueLines, Bindings, EntryLines, EntryForm, IssueForm;
  }

  lemma IssuesWellFormed(r: Result)
    requires ResultForm(r)
    ensures WellFormed(IssueRow, IssueLines(r.issues), None, 0) <==>
      |r.issues| <= ENTRY_CAP && forall i | 0 <= i < |r.issues| :: ShortPath(r.issues[i].path)
  {
    var a := IssueLines(r.issues);
    IssueKeysAscend(r.issues);
    hide IssueLine, RowForm, RowKey, Covered, ShortPath, EntryForm, IssueForm, Ascending, DistinctPaths, PinForm;
    forall i | 0 <= i < |a| ensures RowForm(IssueRow, a[i]) <==> ShortPath(r.issues[i].path) {
      IssueRowForm(r.issues[i]);
    }
    assert forall i | 0 <= i < |r.issues| :: ShortPath(r.issues[i].path) <==> RowForm(IssueRow, a[i]);
  }

  /** The issue cursor reads every issue when there are not too many and their paths fit, and dies otherwise. */
  lemma IssueStream(sha: string -> string, r: Result)
    requires ResultForm(r) && DigestForm(sha)
    ensures RowsIn(IssueRow, TextOf(sha, r)) ==
      if |r.issues| <= ENTRY_CAP && forall i | 0 <= i < |r.issues| :: ShortPath(r.issues[i].path)
        then Some(IssueLines(r.issues)) else None
  {
    IssueFilter(sha, r);
    RowsExactly(IssueRow, TextOf(sha, r), None, 0);
    IssuesWellFormed(r);
    hide WellFormed, RowsFrom, TextOf, ResultForm, DigestForm, IssueLines, ShortPath, WithPrefix, Prefix;
  }

  lemma IssueKeysAscend(issues: seq<Issue>)
    requires (forall i | 0 <= i < |issues| :: IssueForm(issues[i])) && Ascending(issues, IssueKey())
    ensures Ascending(IssueLines(issues), RowKey(IssueRow))
  {
    hide IssueLine, Less, IssueForm;
    var a := IssueLines(issues);
    forall i, j | 0 <= i < j < |a| ensures Less(RowKey(IssueRow)(a[i]), RowKey(IssueRow)(a[j])) {
      assert Less(IssueKey()(issues[i]), IssueKey()(issues[j]));
    }
  }

  // ----- The bindings a snapshot carries -----

  lemma PrefixOne(lines: seq<string>, k: nat, prefix: string)
    requires k < |lines| && forall i | 0 <= i < |lines| :: prefix <= lines[i] <==> i == k
    ensures WithPrefix(lines, prefix) == [lines[k]]
  {
    var rest := lines[k + 1..];
    PrefixSkip(lines[..k], lines[k..], prefix);
    assert lines == lines[..k] + lines[k..];
    assert rest == rest + [];
    PrefixSkip(rest, [], prefix);
    assert lines[k..][1..] == rest;
  }

  lemma TagPlace(n: nat, k: nat, tag: string)
    requires k < 2 && tag == if k == 0 then "ROOT" else "RUNTIME"
    ensures Above(tag, TAB) && forall i: nat :: TagAt(n, i) == tag <==> i == n + k
  {
    forall i: nat ensures TagAt(n, i) == tag <==> i == n + k {
      TagsInOrder();
      LessIrreflexive("ROOT");
      LessIrreflexive("RUNTIME");
    }
  }

  lemma BindingLine(sha: string -> string, r: Result, k: nat)
    requires ResultForm(r) && k < 3
    ensures |TextOf(sha, r)| == |r.rows| + 3 + |r.issues| && TextOf(sha, r)[|r.rows| + k] == Bindings(sha, r)[k]
    ensures ByteText(r.pin.path) && forall i | 0 <= i < |r.rows| :: EntryForm(r.rows[i])
  {
    hide EntryForm, IssueForm, EntryLine, IssueLine, Covered, Ascending, DistinctPaths, ByteText;
    Parts(sha, r);
  }

  lemma BindingPlace(sha: string -> string, r: Result, k: nat, tag: string)
    requires ResultForm(r) && DigestForm(sha) && k < 2 && tag == if k == 0 then "ROOT" else "RUNTIME"
    ensures WithPrefix(TextOf(sha, r), tag + [TAB]) == [Bindings(sha, r)[k]]
  {
    var lines, n := TextOf(sha, r), |r.rows|;
    BindingLine(sha, r, k);
    hide *;
    TagPlace(n, k, tag);
    forall i | 0 <= i < |lines| ensures tag + [TAB] <= lines[i] <==> i == n + k { LinePrefix(sha, r, i, tag); }
    PrefixOne(lines, n + k, tag + [TAB]);
  }

  /** Both bindings of a snapshot are found and fit their buffers. */
  lemma RootAndRuntime(sha: string -> string, r: Result)
    requires ResultForm(r) && DigestForm(sha) && Readable(r)
    ensures Bindable(TextOf(sha, r))
    ensures RootOf(TextOf(sha, r)) == RootFields(r.root, r.rootStat)
    ensures RuntimeOf(TextOf(sha, r)) == RuntimeFields(r.pin, r.runtimeSha, r.identitySha)
  {
    BindingRows(sha, r);
    BindingsShort(sha, r);
    BindingPlace(sha, r, 0, "ROOT");
    BindingPlace(sha, r, 1, "RUNTIME");
    assert "ROOT" + [TAB] == "ROOT\t" && "RUNTIME" + [TAB] == "RUNTIME\t";
    hide ResultForm, DigestForm, ByteText, Bindings, EntryForm, IssueForm, RootFields, RuntimeFields, Split, TextOf,
      EntryLine, IssueLine, Readable, WithPrefix, DIAGNOSTIC_LINE_CAP;
  }

  lemma BindingsShort(sha: string -> string, r: Result)
    requires ResultForm(r) && DigestForm(sha) && Readable(r)
    ensures FieldsFit(RootFields(r.root, r.rootStat), 8193)
      && FieldsFit(RuntimeFields(r.pin, r.runtimeSha, r.identitySha), 1025)
    ensures |Bindings(sha, r)[0]| < DIAGNOSTIC_LINE_CAP && |Bindings(sha, r)[1]| < DIAGNOSTIC_LINE_CAP
  {
    hide Covered, EntryForm, IssueForm, Decimal, SignedDecimal, Hex, ShortPath, DistinctPaths, Ascending;
    var s, f, g := r.rootStat, RootFields(r.root, r.rootStat), RuntimeFields(r.pin, r.runtimeSha, r.identitySha);
    WordLength(s.uid);
    WordLength(s.gid);
    WordLength(s.mtime);
    WordLength(s.ctime);
    WordLength(s.dev);
    WordLength(s.ino);
    WordLength(s.nlink);
    assert forall i | 3 <= i < 11 :: |f[i]| <= 20;
    JoinTotal(f, TAB);
    assert f == f[..3] + f[3..];
    TotalConcat(f[..3], f[3..]);
    TotalBound(f[..3], 8192);
    TotalBound(f[3..], 20);
    JoinTotal(g, TAB);
    TotalBound(g, 1024);
  }
}
