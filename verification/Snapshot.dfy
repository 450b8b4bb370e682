/** One complete snapshot run, and the incremental reader of its text. */
module Snapshot {
  import opened Text
  import opened Records
  import opened Sorting
  import opened Walk
  import opened Inventory
  import opened Agreement

  // ----- Ordering and removing repeats -----

  lemma IssueLineInjective(a: Issue, b: Issue)
    requires IssueForm(a) && IssueForm(b) && IssueLine(a) == IssueLine(b)
    ensures a == b
  {
    IssueLineSplits(a);
    IssueLineSplits(b);
    hide IssueLine, Hex;
    assert IssueFields(a)[1] == IssueFields(b)[1] && IssueFields(a)[2] == IssueFields(b)[2]
      && IssueFields(a)[3] == IssueFields(b)[3];
    RelativeBytes(a.path);
    RelativeBytes(b.path);
    HexInjective(Relative(a.path), Relative(b.path));
    RelativeInjective(a.path, b.path);
  }

  /** The compaction loop after qsort: each line once, order strict, nothing lost. */
  method DropRepeats(sorted: seq<Issue>) returns (kept: seq<Issue>)
    requires Sorted(sorted, IssueKey()) && forall i | 0 <= i < |sorted| :: IssueForm(sorted[i])
    ensures Ascending(kept, IssueKey()) && forall x :: x in kept <==> x in sorted
  {
    hide IssueForm, IssueLine, Less;
    kept := [];
    for i := 0 to |sorted|
      invariant Ascending(kept, IssueKey()) && forall x :: x in kept <==> x in sorted[..i]
      invariant i > 0 ==> |kept| > 0 && kept[|kept| - 1] == sorted[i - 1]
    {
      if i > 0 && IssueLine(sorted[i - 1]) == IssueLine(sorted[i]) {
        IssueLineInjective(sorted[i - 1], sorted[i]);
      } else {
        forall k | 0 <= k < |kept| ensures Less(IssueKey()(kept[k]), IssueKey()(sorted[i])) {
          assert kept[k] in sorted[..i];
          if k < |kept| - 1 { LessTransitiveKey(kept[k], kept[|kept| - 1], sorted[i], sorted, i); }
          else { StepLess(sorted, i); }
        }
        kept := kept + [sorted[i]];
      }
    }
    assert sorted[..|sorted|] == sorted;
  }

  lemma StepLess(sorted: seq<Issue>, i: nat)
    requires 0 < i < |sorted| && Sorted(sorted, IssueKey()) && forall i | 0 <= i < |sorted| :: IssueForm(sorted[i])
    requires IssueLine(sorted[i - 1]) != IssueLine(sorted[i])
    ensures Less(IssueKey()(sorted[i - 1]), IssueKey()(sorted[i]))
  {
    LessTotal(IssueKey()(sorted[i - 1]), IssueKey()(sorted[i]));
  }

  lemma LessTransitiveKey(a: Issue, b: Issue, c: Issue, sorted: seq<Issue>, i: nat)
    requires 0 < i < |sorted| && Sorted(sorted, IssueKey()) && forall i | 0 <= i < |sorted| :: IssueForm(sorted[i])
    requires b == sorted[i - 1] && c == sorted[i] && IssueLine(b) != IssueLine(c) && Less(IssueKey()(a), IssueKey()(b))
    ensures Less(IssueKey()(a), IssueKey()(c))
  {
    StepLess(sorted, i);
    LessTransitive(IssueKey()(a), IssueKey()(b), IssueKey()(c));
  }

  lemma CoveredSame(a: seq<Issue>, b: seq<Issue>, e: Entry)
    requires Covered(a, e) && forall x :: x in a <==> x in b
    ensures Covered(b, e)
  {
    if HasIssue(a, e.path) {
      var i :| 0 <= i < |a| && a[i].path == e.path;
      assert a[i] in b;
    }
    if HasReason(a, "HARDLINK_UNRESOLVED", e.path) {
      var i :| 0 <= i < |a| && a[i].path == e.path && a[i].reason == "HARDLINK_UNRESOLVED";
      assert a[i] in b;
    }
  }

  lemma EntryKeysDistinct(root: ByteString, rows: seq<Entry>)
    requires DistinctPaths(rows) && forall i | 0 <= i < |rows| :: EntryForm(rows[i])
    ensures DistinctKeys(rows, EntryKey(root))
  {
    forall i, j | 0 <= i < j < |rows| ensures EntryKey(root)(rows[i]) != EntryKey(root)(rows[j]) {
      EntryLineOrder(root, rows[i], rows[j]);
      EntryLineOrder(root, rows[j], rows[i]);
      var p, q := Relative(rows[i].path), Relative(rows[j].path);
      LessTotal(p, q);
      if p == q { RelativeInjective(rows[i].path, rows[j].path); }
      LessIrreflexive(EntryLine(root, rows[i]));
    }
  }

  /** Coverage does not depend on the order of the rows. */
  lemma ExpandedSame(w: World, a: seq<Entry>, b: seq<Entry>)
    requires AllExpanded(w, a, 0) && forall x :: x in b <==> x in a
    ensures AllExpanded(w, b, 0)
  {
    forall k | 0 <= k < |b| && b[k].stat.kind == DIRECTORY ensures Expanded(w, b, b[k].path) {
      assert b[k] in a;
      var i :| 0 <= i < |a| && a[i] == b[k];
      assert Expanded(w, a, a[i].path);
      var t: nat :| ListingCovered(w, a, b[k].path, t);
      forall n | n in w.list(t).names && n != "." && n != ".." ensures HasRow(b, b[k].path + [n]) {
        var j :| 0 <= j < |a| && a[j].path == b[k].path + [n];
        assert a[j] in b;
      }
      assert ListingCovered(w, b, b[k].path, t);
    }
  }

  // ----- The run -----

  /** What the end of the walk guarantees, before anything is sorted. */
  ghost predicate WalkForm(rows: seq<Entry>, issues: seq<Issue>, rootStat: Stat) {
    && 0 < |rows| <= ENTRY_CAP && DistinctPaths(rows)
    && (forall i | 0 <= i < |rows| :: EntryForm(rows[i]) && Covered(issues, rows[i]))
    && (forall i | 0 <= i < |issues| :: IssueForm(issues[i]))
    && rows[0].path == [] && rows[0].stat == rootStat
  }

  /** snapshot(): walk, sort, drop repeats, commit, print sorted. false stands for die. */
  method TakeSnapshot(world: World, pin: Pin, root: ByteString, runtimeSha: string, identity: string, seconds: nat)
    returns (alive: bool, r: Result, lines: seq<string>)
    requires WorldForm(world) && PinForm(pin) && |root| > 0 && root[0] == '/' && HexDigest(runtimeSha)
    ensures alive ==> ResultForm(r) && lines == SnapshotLines(world.sha, r) && Size(lines) <= MAX_OUTPUT_BYTES
    ensures alive ==> r.pin == pin && r.root == root && r.seconds == seconds
    ensures alive ==> r.runtimeSha == runtimeSha && r.identitySha == world.sha(identity)
    ensures alive ==> (Accepted(pin, world.sha, lines) <==> AllFromEpoch(r) && seconds == 900)
    ensures alive && r.complete ==> AllExpanded(world, r.rows, 0)
    ensures alive ==> AllRead(world, r.rows)
  {
    hide AllRead, EntryForm, IssueForm, Covered, CountersOf, EntryLine, IssueLine, Accepted, SnapshotLines,
      AllFromEpoch, AllExpanded;
    lines := [];
    var walker := new Walker(world, root);
    r := Result(pin, root, RawStat(REGULAR, 0, 0, 0, 0, 0, 0, 0, 0, 0, 0), [], [], false, runtimeSha, "", seconds);
    var before := walker.Status();
    var named := walker.Status();
    if before.None? || named != before || before.value.kind != DIRECTORY { return false, r, lines; }
    alive := WalkRoot(walker, before.value);
    if !alive { return; }
    var rows, issues := Order(walker.root, walker.rows, walker.issues, before.value);
    ReadSame(world, walker.rows, rows);
    if AllExpanded(world, walker.rows, 0) { ExpandedSame(world, walker.rows, rows); }
    var complete := |issues| == 0 && !walker.stopped;
    r := Result(pin, root, before.value, rows, issues, complete, runtimeSha, world.sha(identity), seconds);
    assert DigestForm(world.sha);
    lines := Print(world.sha, r, walker.counters);
    if |lines| > 3 * ENTRY_CAP || Size(lines) > MAX_OUTPUT_BYTES { return false, r, lines; }
    ReaderAccepts(world.sha, r);
  }

  lemma ReadSame(w: World, a: seq<Entry>, b: seq<Entry>)
    requires AllRead(w, a) && forall x :: x in b <==> x in a
    ensures AllRead(w, b)
  {
    hide ReadWhole;
    forall i | 0 <= i < |b| ensures ReadWhole(w, b[i].hash, b[i].stat.size) {
      assert b[i] in a;
      var k :| 0 <= k < |a| && a[k] == b[i];
      assert ReadWhole(w, a[k].hash, a[k].stat.size);
    }
  }

  /** The walk from the root, and the last look at the root itself. */
  method WalkRoot(walker: Walker, before: Stat) returns (alive: bool)
    requires walker.Inv() && walker.rows == [] && walker.issues == [] && !walker.stopped
    modifies walker
    ensures alive ==> walker.Inv() && WalkForm(walker.rows, walker.issues, before)
    ensures alive && walker.issues == [] ==> AllExpanded(walker.world, walker.rows, 0)
    ensures alive ==> AllRead(walker.world, walker.rows)
  {
    hide AllExpanded, AllRead, ReasonText, Covered, EntryForm, IssueForm;
    RootReason();
    alive := walker.WalkAt([], before, 0);
    if !alive { return; }
    var after := walker.Status();
    var named := walker.Status();
    if after != Some(before) || named != after {
      alive := walker.Issued("ROOT_IDENTITY_RACE", [], "changed");
    }
  }

  lemma RootReason()
    ensures ReasonText("ROOT_IDENTITY_RACE")
  {
  }

  /** qsort of rows and issues and the removal of repeated issues. */
  method Order(root: ByteString, rows: seq<Entry>, issues: seq<Issue>, rootStat: Stat)
    returns (sortedRows: seq<Entry>, kept: seq<Issue>)
    requires WalkForm(rows, issues, rootStat)
    ensures Ascending(sortedRows, EntryKey(root)) && Ascending(kept, IssueKey())
    ensures forall x :: x in sortedRows <==> x in rows
    ensures DistinctPaths(sortedRows) && |sortedRows| == |rows| && CountersOf(sortedRows) == CountersOf(rows)
    ensures forall i | 0 <= i < |sortedRows| :: EntryForm(sortedRows[i]) && Covered(kept, sortedRows[i])
    ensures forall i | 0 <= i < |kept| :: IssueForm(kept[i])
    ensures exists i :: 0 <= i < |sortedRows| && sortedRows[i].path == [] && sortedRows[i].stat == rootStat
    ensures kept == [] <==> issues == []
  {
    hide EntryForm, IssueForm, Covered, CountersOf, Less, EntryLine, IssueLine, Sort;
    var key := EntryKey(root);
    sortedRows := Sort(rows, key);
    var sortedIssues := Sort(issues, IssueKey());
    RowsOrdered(root, rows);
    SortSorts(issues, IssueKey());
    forall x ensures x in sortedIssues <==> x in issues { SameElements(sortedIssues, issues, x); }
    forall i | 0 <= i < |sortedIssues| ensures IssueForm(sortedIssues[i]) { assert sortedIssues[i] in issues; }
    kept := DropRepeats(sortedIssues);
    OrderedForm(root, rows, issues, kept, rootStat);
  }

  lemma RowsOrdered(root: ByteString, rows: seq<Entry>)
    requires DistinctPaths(rows) && forall i | 0 <= i < |rows| :: EntryForm(rows[i])
    ensures var s := Sort(rows, EntryKey(root));
      && Ascending(s, EntryKey(root)) && DistinctPaths(s) && CountersOf(s) == CountersOf(rows)
      && forall x :: x in s <==> x in rows
  {
    hide EntryForm, CountersOf, Sort;
    var key := EntryKey(root);
    var s := Sort(rows, key);
    EntryKeysDistinct(root, rows);
    SortAscends(rows, key);
    forall x ensures x in s <==> x in rows { SameElements(s, rows, x); }
    SortedPathsDistinct(rows, s, key);
    CountersSort(rows, key);
  }

  lemma SortedPathsDistinct(rows: seq<Entry>, s: seq<Entry>, key: Entry -> string)
    requires DistinctPaths(rows) && DistinctKeys(s, key) && forall x :: x in s <==> x in rows
    ensures DistinctPaths(s)
  {
    forall i, j | 0 <= i < j < |s| ensures s[i].path != s[j].path {
      assert s[i] in rows && s[j] in rows;
      assert key(s[i]) != key(s[j]);
      var a :| 0 <= a < |rows| && rows[a] == s[i];
      var b :| 0 <= b < |rows| && rows[b] == s[j];
    }
  }

  lemma CountersSort(rows: seq<Entry>, key: Entry -> string)
    ensures CountersOf(Sort(rows, key)) == CountersOf(rows)
  {
    hide Sort, Sum;
    SumSort(rows, key, IsKind(DIRECTORY));
    SumSort(rows, key, IsKind(REGULAR));
    SumSort(rows, key, IsHashed());
    SumSort(rows, key, HashedSize());
    SumSort(rows, key, IsUploads());
    SumSort(rows, key, IsOther());
  }

  lemma OrderedForm(root: ByteString, rows: seq<Entry>, issues: seq<Issue>, kept: seq<Issue>, rootStat: Stat)
    requires WalkForm(rows, issues, rootStat) && forall x :: x in kept <==> x in issues
    ensures var s := Sort(rows, EntryKey(root));
      && (forall i | 0 <= i < |s| :: EntryForm(s[i]) && Covered(kept, s[i]))
      && (exists i :: 0 <= i < |s| && s[i].path == [] && s[i].stat == rootStat)
    ensures forall i | 0 <= i < |kept| :: IssueForm(kept[i])
    ensures kept == [] <==> issues == []
  {
    hide EntryForm, IssueForm, Covered;
    RowsOrdered(root, rows);
    var s := Sort(rows, EntryKey(root));
    forall i | 0 <= i < |s| ensures EntryForm(s[i]) && Covered(kept, s[i]) {
      assert s[i] in rows;
      CoveredSame(issues, kept, s[i]);
    }
    assert rows[0] in s;
    forall i | 0 <= i < |kept| ensures IssueForm(kept[i]) { assert kept[i] in issues; }
    assert issues != [] ==> issues[0] in kept;
    assert kept != [] ==> kept[0] in issues;
  }

  /** The text: all rows collected in the order of the code, then sorted as lines. */
  method Print(sha: string -> string, r: Result, counters: Counters) returns (lines: seq<string>)
    requires ResultForm(r) && DigestForm(sha) && counters == CountersOf(r.rows)
    ensures lines == SnapshotLines(sha, r)
  {
    var rows, issues, bindings := EntryLines(r.root, r.rows), IssueLines(r.issues), Bindings(sha, r);
    var all := [bindings[0], bindings[1]] + rows + issues + [bindings[2]];
    lines := Sort(all, Self());
    LinesAscend(sha, r);
    SortSorts(all, Self());
    hide *;
    Rearranged(rows, bindings, issues, all);
    assert SnapshotLines(sha, r) == rows + bindings + issues by { SnapshotIs(sha, r); }
    SortedUnique(lines, rows + bindings + issues, Self());
  }

  lemma SnapshotIs(sha: string -> string, r: Result)
    requires ByteText(r.pin.path)
    requires forall i | 0 <= i < |r.rows| :: EntryForm(r.rows[i])
    requires forall i | 0 <= i < |r.issues| :: IssueForm(r.issues[i])
    ensures SnapshotLines(sha, r) == EntryLines(r.root, r.rows) + Bindings(sha, r) + IssueLines(r.issues)
  {
    hide EntryForm, IssueForm, EntryLines, Bindings, IssueLines;
  }

  lemma Rearranged(a: seq<string>, b: seq<string>, c: seq<string>, all: seq<string>)
    requires |b| == 3 && all == [b[0], b[1]] + a + c + [b[2]]
    ensures multiset(all) == multiset(a + b + c)
  {
    assert b == [b[0], b[1]] + [b[2]];
    assert multiset(a + b + c) == multiset(a) + multiset(b) + multiset(c);
    assert multiset(b) == multiset([b[0], b[1]]) + multiset([b[2]]);
  }

  // ----- The reader -----

  lemma TaggedNext(lines: seq<string>, i: nat, tag: string)
    requires i < |lines|
    ensures Tagged(lines[..i + 1], tag) ==
      Tagged(lines[..i], tag) + if FirstField(lines[i]) == tag then [Split(lines[i], TAB)] else []
    ensures TaggedLines(lines[..i + 1], tag) ==
      TaggedLines(lines[..i], tag) + if FirstField(lines[i]) == tag then [lines[i]] else []
  {
    hide Split;
    assert lines[..i + 1][..i] == lines[..i];
  }

  /** The rows of one text by type, as the reading loop collects them. */
  datatype Rows = Rows(texts: seq<string>, entries: seq<Fields>, unresolved: seq<Fields>, roots: seq<Fields>,
                       runtimes: seq<Fields>, summaries: seq<Fields>)

  function RowsOf(lines: seq<string>): Rows {
    Rows(TaggedLines(lines, "ENTRY"), Tagged(lines, "ENTRY"), Tagged(lines, "UNRESOLVED"), Tagged(lines, "ROOT"),
         Tagged(lines, "RUNTIME"), Tagged(lines, "SUMMARY"))
  }

  function Collect(rows: Rows, line: string): Rows {
    var f := Split(line, TAB);
    if f[0] == "ENTRY" then rows.(texts := rows.texts + [line], entries := rows.entries + [f])
    else if f[0] == "UNRESOLVED" then rows.(unresolved := rows.unresolved + [f])
    else if f[0] == "ROOT" then rows.(roots := rows.roots + [f])
    else if f[0] == "RUNTIME" then rows.(runtimes := rows.runtimes + [f])
    else if f[0] == "SUMMARY" then rows.(summaries := rows.summaries + [f])
    else rows
  }

  lemma RowsNext(lines: seq<string>, i: nat)
    requires i < |lines|
    ensures RowsOf(lines[..i + 1]) == Collect(RowsOf(lines[..i]), lines[i])
  {
    hide Split, TaggedLines, Tagged;
    TaggedNext(lines, i, "ENTRY");
    TaggedNext(lines, i, "UNRESOLVED");
    TaggedNext(lines, i, "ROOT");
    TaggedNext(lines, i, "RUNTIME");
    TaggedNext(lines, i, "SUMMARY");
  }

  /** parse_inventory: one pass over the lines, then the derived checks. */
  method ParseInventory(pin: Pin, sha: string -> string, lines: seq<string>) returns (ok: bool)
    ensures ok <==> Accepted(pin, sha, lines)
  {
    hide Split, RowOk, Collect, RowsOf, Less, EntryConsistent, EntryRowOk, SummaryAccepted, BindingsAccepted,
      RootEntryAccepted, Tagged, TaggedLines;
    if |lines| == 0 { return false; }
    var rows := Rows([], [], [], [], [], []);
    NoRows();
    for i := 0 to |lines|
      invariant rows == RowsOf(lines[..i])
      invariant forall k | 0 < k < i :: Less(lines[k - 1], lines[k])
      invariant forall k | 0 <= k < i :: RowOk(Split(lines[k], TAB))
    {
      if i > 0 && !Less(lines[i - 1], lines[i]) {
        assert Less(lines[i - 1], lines[i]) <==> Less(Self()(lines[i - 1]), Self()(lines[i]));
        return false;
      }
      if !RowOk(Split(lines[i], TAB)) { return false; }
      RowsNext(lines, i);
      rows := Collect(rows, lines[i]);
    }
    assert lines[..|lines|] == lines;
    forall i, j | 0 <= i < j < |lines| ensures Less(Self()(lines[i]), Self()(lines[j])) { AdjacentAscend(lines, i, j); }
    ok := Derive(pin, sha, rows);
    RowsMeaning(lines);
  }

  lemma NoRows()
    ensures RowsOf([]) == Rows([], [], [], [], [], [])
  {
  }

  lemma RowsMeaning(lines: seq<string>)
    ensures RowsOf(lines) == Rows(TaggedLines(lines, "ENTRY"), Tagged(lines, "ENTRY"), Tagged(lines, "UNRESOLVED"),
                                  Tagged(lines, "ROOT"), Tagged(lines, "RUNTIME"), Tagged(lines, "SUMMARY"))
  {
  }

  /** The loop over the entry rows. */
  method CheckEntries(entries: seq<Fields>, root: ByteString, unresolved: seq<Fields>) returns (ok: bool)
    ensures ok <==> forall i | 0 <= i < |entries| ::
      EntryRowOk(entries[i]) && EntryConsistent(entries[i], root, unresolved)
  {
    hide EntryConsistent, EntryRowOk;
    for i := 0 to |entries|
      invariant forall k | 0 <= k < i :: EntryRowOk(entries[k]) && EntryConsistent(entries[k], root, unresolved)
    {
      if !EntryRowOk(entries[i]) || !EntryConsistent(entries[i], root, unresolved) { return false; }
    }
    ok := true;
  }

  /** The checks after the reading loop. */
  method Derive(pin: Pin, sha: string -> string, rows: Rows) returns (ok: bool)
    ensures ok <==>
      && |rows.entries| <= 200000 && |rows.roots| == 1 && |rows.runtimes| == 1 && |rows.summaries| == 1
      && PathsUnique(rows.entries) && BindingsAccepted(pin, rows.roots[0], rows.runtimes[0])
      && SummaryAccepted(sha, rows.texts, rows.entries, rows.unresolved, rows.summaries[0])
      && (forall i | 0 <= i < |rows.entries| ::
            EntryRowOk(rows.entries[i]) && EntryConsistent(rows.entries[i], Unhex(rows.roots[0][2]), rows.unresolved))
      && RootEntryAccepted(rows.entries, rows.roots[0])
  {
    if |rows.entries| > 200000 || |rows.roots| != 1 || |rows.runtimes| != 1 || |rows.summaries| != 1 { return false; }
    var root, runtime, summary := rows.roots[0], rows.runtimes[0], rows.summaries[0];
    if !BindingsAccepted(pin, root, runtime) { return false; }
    hide BindingsAccepted, SummaryAccepted, RootEntryAccepted, EntryConsistent, EntryRowOk, PathsUnique, Unhex;
    var unique := Unique(rows.entries);
    if !unique || !SummaryAccepted(sha, rows.texts, rows.entries, rows.unresolved, summary) { return false; }
    ok := CheckEntries(rows.entries, Unhex(root[2]), rows.unresolved);
    if ok { ok := RootEntryAccepted(rows.entries, root); }
  }

  // ----- What acceptance leaves open -----

  /** The only summary row that fits the other rows. */
  function DerivedSummary(sha: string -> string, texts: seq<string>, entries: seq<Fields>,
    unresolved: seq<Fields>): (f: Fields)
    ensures |f| == 20
  {
    SummaryOf(Derived(entries, unresolved), |unresolved| == 0, sha(Join(Sort(texts, Self()), '\n') + "\n"))
  }

  function SummaryOf(counts: seq<nat>, complete: bool, commitment: string): (f: Fields)
    requires |counts| == 8
    ensures |f| == 20
  {
    CapsFine(900);
    ["SUMMARY"] + seq(8, i requires 0 <= i < 8 => Decimal(counts[i]))
      + [if complete then "true" else "false", commitment] + Caps(900)
  }

  predicate CountsMatch(f: Fields, counts: seq<nat>) requires |f| == 20 && |counts| == 8 {
    forall i | 0 <= i < 8 :: CanonicalDecimal(f[i + 1]) && Value(f[i + 1]) == counts[i]
  }

  lemma SummaryAt(counts: seq<nat>, complete: bool, commitment: string)
    requires |counts| == 8
    ensures var f := SummaryOf(counts, complete, commitment);
      && f[0] == "SUMMARY" && CountsMatch(f, counts) && f[9] == (if complete then "true" else "false")
        && f[10] == commitment
      && f[11..] == Caps(900)
  {
    CapsFine(900);
    hide Caps, Decimal, CanonicalDecimal;
    var f := SummaryOf(counts, complete, commitment);
    forall i | 0 <= i < 8 ensures CanonicalDecimal(f[i + 1]) && Value(f[i + 1]) == counts[i] {
      DecimalRoundTrip(counts[i]);
    }
  }

  lemma CountsDecide(f: Fields, g: Fields, counts: seq<nat>)
    requires |f| == |g| == 20 && |counts| == 8 && CountsMatch(f, counts) && CountsMatch(g, counts)
    requires f[0] == g[0] && f[9] == g[9] && f[10] == g[10] && f[11..] == g[11..]
    ensures f == g
  {
    hide CanonicalDecimal;
    forall i | 1 <= i < 9 ensures f[i] == g[i] {
      assert Value(f[(i - 1) + 1]) == counts[i - 1] && Value(g[(i - 1) + 1]) == counts[i - 1];
      CanonicalInverse(f[i]);
      CanonicalInverse(g[i]);
    }
    assert f[1..9] == g[1..9];
    assert f == [f[0]] + f[1..9] + [f[9], f[10]] + f[11..];
    assert g == [g[0]] + g[1..9] + [g[9], g[10]] + g[11..];
  }

  ghost predicate SummaryFits(f: Fields, counts: seq<nat>, complete: bool, commitment: string) requires |counts| == 8 {
    && SummaryRowOk(f) && f[10] == commitment && (forall i | 0 <= i < 8 :: Value(f[i + 1]) == counts[i])
    && (f[9] == "true" <==> complete) && f[11..] == Caps(900)
  }

  lemma SummaryFitsItself(counts: seq<nat>, complete: bool, commitment: string)
    requires |counts| == 8 && HexDigest(commitment)
    ensures SummaryFits(SummaryOf(counts, complete, commitment), counts, complete, commitment)
  {
    SummaryAt(counts, complete, commitment);
    CapsCanonical(SummaryOf(counts, complete, commitment));
    hide Caps, CanonicalDecimal, HexDigest, SummaryOf;
  }

  lemma NothingElseFits(f: Fields, counts: seq<nat>, complete: bool, commitment: string)
    requires |counts| == 8 && SummaryFits(f, counts, complete, commitment)
    ensures f == SummaryOf(counts, complete, commitment)
  {
    SummaryAt(counts, complete, commitment);
    CountsMatched(f, counts);
    hide Caps, CanonicalDecimal, HexDigest, SummaryOf, CountsMatch;
    CountsDecide(f, SummaryOf(counts, complete, commitment), counts);
  }

  /** The reader accepts exactly one summary row: counts, coverage, commitment and caps are all determined, digit by
      digit. */
  lemma SummaryDetermined(sha: string -> string, texts: seq<string>, entries: seq<Fields>, unresolved: seq<Fields>,
    summary: Fields)
    requires DigestForm(sha)
    ensures SummaryAccepted(sha, texts, entries, unresolved, summary) <==>
      summary == DerivedSummary(sha, texts, entries, unresolved)
  {
    var n, complete, commitment := Derived(entries, unresolved), |unresolved| == 0,
      sha(Join(Sort(texts, Self()), '\n') + "\n");
    assert |n| == 8 && DerivedSummary(sha, texts, entries, unresolved) == SummaryOf(n, complete, commitment);
    hide Derived, DerivedSummary, Caps, HexDigest, Join, Sort, SummaryOf, SummaryRowOk;
    assert SummaryAccepted(sha, texts, entries, unresolved, summary) <==> SummaryFits(summary, n, complete, commitment);
    hide SummaryAccepted, SummaryFits;
    SummaryFitsItself(n, complete, commitment);
    if SummaryFits(summary, n, complete, commitment) { NothingElseFits(summary, n, complete, commitment); }
  }

  lemma CapsCanonical(f: Fields)
    requires |f| == 20 && f[11..] == Caps(900)
    ensures forall i | 11 <= i < 20 :: CanonicalDecimal(f[i])
  {
    CapsFine(900);
    hide Caps, CanonicalDecimal;
    forall i | 11 <= i < 20 ensures CanonicalDecimal(f[i]) { assert f[i] == f[11..][i - 11]; }
  }

  lemma CountsMatched(f: Fields, counts: seq<nat>)
    requires SummaryRowOk(f) && |counts| == 8 && forall i | 0 <= i < 8 :: Value(f[i + 1]) == counts[i]
    ensures CountsMatch(f, counts)
  {
    hide CanonicalDecimal, HexDigest;
  }

  lemma {:induction false} TaggedHas(lines: seq<string>, tag: string, line: string)
    ensures line in TaggedLines(lines, tag) <==> line in lines && FirstField(line) == tag
  {
    if |lines| > 0 {
      var front := lines[..|lines| - 1];
      TaggedHas(front, tag, line);
      assert lines == front + [lines[|lines| - 1]];
    }
  }

  predicate SameGroup(a: seq<string>, b: seq<string>, tag: string) { TaggedLines(a, tag) == TaggedLines(b, tag) }

  /** An accepted text is determined by its entries, issues, root and runtime: no other summary and no other arrangement
      passes. */
  lemma AcceptedDetermined(pin: Pin, sha: string -> string, a: seq<string>, b: seq<string>)
    requires DigestForm(sha) && Accepted(pin, sha, a) && Accepted(pin, sha, b)
    requires SameGroup(a, b, "ENTRY") && SameGroup(a, b, "UNRESOLVED") && SameGroup(a, b, "ROOT")
      && SameGroup(a, b, "RUNTIME")
    ensures a == b
  {
    SameSummary(pin, sha, a, b);
    AcceptedRows(pin, sha, a);
    AcceptedRows(pin, sha, b);
    assert SameGroups(a, b) && SameGroups(b, a) by { AllGroups(a, b); }
    hide *;
    forall x ensures x in a <==> x in b {
      if x in a { KeptLine(a, b, x); }
      if x in b { KeptLine(b, a, x); }
    }
    AscendingUnique(a, b, Self());
  }

  predicate SameGroups(a: seq<string>, b: seq<string>) {
    forall tag | tag in ["ENTRY", "UNRESOLVED", "ROOT", "RUNTIME", "SUMMARY"] :: SameGroup(a, b, tag)
  }

  lemma AllGroups(a: seq<string>, b: seq<string>)
    requires SameGroup(a, b, "ENTRY") && SameGroup(a, b, "UNRESOLVED") && SameGroup(a, b, "ROOT")
      && SameGroup(a, b, "RUNTIME")
    requires SameGroup(a, b, "SUMMARY")
    ensures SameGroups(a, b) && SameGroups(b, a)
  {
    hide SameGroup;
    assert SameGroups(a, b);
    GroupsBack(a, b);
  }

  lemma GroupsBack(a: seq<string>, b: seq<string>)
    requires SameGroups(a, b)
    ensures SameGroups(b, a)
  {
    hide TaggedLines;
    forall tag | tag in ["ENTRY", "UNRESOLVED", "ROOT", "RUNTIME", "SUMMARY"] ensures SameGroup(b, a, tag) {
      assert SameGroup(a, b, tag);
    }
  }

  lemma AcceptedRows(pin: Pin, sha: string -> string, a: seq<string>)
    requires Accepted(pin, sha, a)
    ensures RowsAccepted(a) && Ascending(a, Self())
  {
  }

  lemma SameSummary(pin: Pin, sha: string -> string, a: seq<string>, b: seq<string>)
    requires DigestForm(sha) && Accepted(pin, sha, a) && Accepted(pin, sha, b)
    requires SameGroup(a, b, "ENTRY") && SameGroup(a, b, "UNRESOLVED")
    ensures SameGroup(a, b, "SUMMARY")
  {
    var texts, entries, unresolved := TaggedLines(a, "ENTRY"), Tagged(a, "ENTRY"), Tagged(a, "UNRESOLVED");
    var s, t := TaggedLines(a, "SUMMARY"), TaggedLines(b, "SUMMARY");
    hide PathsUnique, BindingsAccepted, SummaryAccepted, RootEntryAccepted, EntryConsistent, EntryRowOk, TaggedLines,
      RowOk, DerivedSummary;
    assert |s| == 1 && |t| == 1 && Tagged(a, "SUMMARY") == [Split(s[0], TAB)]
      && Tagged(b, "SUMMARY") == [Split(t[0], TAB)];
    SummaryDetermined(sha, texts, entries, unresolved, Split(s[0], TAB));
    SummaryDetermined(sha, texts, entries, unresolved, Split(t[0], TAB));
    JoinSplit(s[0], TAB);
    JoinSplit(t[0], TAB);
  }

  lemma KeptLine(a: seq<string>, b: seq<string>, line: string)
    requires RowsAccepted(a) && line in a
    requires SameGroups(a, b)
    ensures line in b
  {
    var tag := FirstField(line);
    TaggedHas(a, tag, line);
    TaggedHas(b, tag, line);
    hide EntryRowOk, IssueRowOk, RootRowOk, RuntimeRowOk, SummaryRowOk, TaggedLines;
    assert RowOk(Split(line, TAB));
    RowTags(Split(line, TAB));
  }

  lemma RowTags(f: Fields)
    requires RowOk(f)
    ensures |f| > 0 && f[0] in ["ENTRY", "UNRESOLVED", "ROOT", "RUNTIME", "SUMMARY"]
  {
  }

  /** No two entry rows name one path. */
  method Unique(entries: seq<Fields>) returns (ok: bool)
    ensures ok <==> PathsUnique(entries)
  {
    var seen: set<string> := {};
    for i := 0 to |entries|
      invariant forall p :: p in seen <==> exists k :: 0 <= k < i && |entries[k]| == 16 && entries[k][1] == p
      invariant PathsUnique(entries[..i])
    {
      if |entries[i]| == 16 {
        if entries[i][1] in seen { return false; }
        seen := seen + {entries[i][1]};
      }
    }
    assert entries[..|entries|] == entries;
    ok := true;
  }
}
