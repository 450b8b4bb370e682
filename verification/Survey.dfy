/** From the walk to the verdict: what a clean surface says about the tree itself. */
module Survey {
  import opened Text
  import opened Records
  import opened Sorting
  import opened Walk
  import opened Inventory
  import opened Agreement
  import opened Snapshot
  import opened Evidence
  import opened Verdict

  lemma TaggedShape(lines: seq<string>)
    requires RowsAccepted(lines)
    ensures forall i | 0 <= i < |Tagged(lines, "ENTRY")| ::
      |Tagged(lines, "ENTRY")[i]| == 16 && EntryRowOk(Tagged(lines, "ENTRY")[i])
  {
    TaggedIn(lines, "ENTRY");
    var texts, rows := TaggedLines(lines, "ENTRY"), Tagged(lines, "ENTRY");
    hide TaggedLines, Split, EntryRowOk, IssueRowOk, RootRowOk, RuntimeRowOk, SummaryRowOk;
    forall i | 0 <= i < |rows| ensures |rows[i]| == 16 && EntryRowOk(rows[i]) {
      var k :| 0 <= k < |lines| && lines[k] == texts[i];
      assert RowOk(Split(lines[k], TAB));
      assert FirstField(texts[i]) == "ENTRY";
      EntryTagDecides(rows[i]);
      RowLength(rows[i]);
    }
  }

  lemma RowLength(f: Fields)
    requires EntryRowOk(f)
    ensures |f| == 16
  {
  }

  lemma {:induction false} TaggedIn(lines: seq<string>, tag: string)
    ensures forall i | 0 <= i < |TaggedLines(lines, tag)| :: TaggedLines(lines, tag)[i] in lines
  {
    hide Split;
    if |lines| > 0 { TaggedIn(lines[..|lines| - 1], tag); }
  }

  /** What a clean verdict says about one inventory row. */
  ghost predicate CleanRow(f: Fields, rule: Ruleset, records: seq<Record>) {
    && |f| == 16 && EntryRowOk(f)
    && (f[3] == "DIRECTORY"
      || (f[3] == "REGULAR" && f[14] != "-" && Value(f[12]) == 1 && Verdict.Settled(f, rule, records)))
  }

  /** A clean verdict on an accepted inventory leaves nothing but directories and hashed single-link regular files,
      each with matching provenance, none known malicious, none an executable upload. */
  lemma CleanInventory(pin: Pin, sha: string -> string, lines: seq<string>, rule: Ruleset, records: seq<Record>)
    requires Accepted(pin, sha, lines) && Ascending(records, RecordPath())
    requires Tagged(lines, "UNRESOLVED") == []
    ensures var entries := Tagged(lines, "ENTRY");
      && Checked(entries, records)
      && (AllSettled(entries, rule, records) ==> forall i | 0 <= i < |entries| :: CleanRow(entries[i], rule, records))
  {
    TaggedShape(lines);
    var entries, unresolved := Tagged(lines, "ENTRY"), Tagged(lines, "UNRESOLVED");
    hide EntryRowOk, RowsAccepted, BindingsAccepted, SummaryAccepted, RootEntryAccepted, Tagged, Listed,
      Verdict.Settled;
    if AllSettled(entries, rule, records) {
      forall i | 0 <= i < |entries| ensures CleanRow(entries[i], rule, records) {
        assert EntryConsistent(entries[i], Unhex(Tagged(lines, "ROOT")[0][2]), unresolved);
        RowCovered(entries[i], Unhex(Tagged(lines, "ROOT")[0][2]), unresolved);
      }
    }
  }

  lemma RowCovered(f: Fields, physical: string, unresolved: seq<Fields>)
    requires EntryRowOk(f) && EntryConsistent(f, physical, unresolved) && unresolved == []
    ensures f[3] == "DIRECTORY" || (f[3] == "REGULAR" && f[14] != "-" && Value(f[12]) == 1)
  {
    hide Unhex, Split, Value, EntryRowOk;
  }

  // ----- The whole chain -----

  /** What a clean verdict says about an object the walk saw. */
  ghost predicate CleanEntry(root: ByteString, e: Entry, rule: Ruleset, records: seq<Record>) {
    && EntryForm(e)
    && (e.stat.kind == DIRECTORY
        || (e.stat.kind == REGULAR && e.hash.Some? && e.stat.nlink == 1
            && EntryRowOk(EntryFields(root, e)) && Verdict.Settled(EntryFields(root, e), rule, records)))
  }

  lemma CleanRows(sha: string -> string, r: Result, rule: Ruleset, records: seq<Record>)
    requires ResultForm(r) && DigestForm(sha)
    requires forall i | 0 <= i < |Tagged(SnapshotLines(sha, r), "ENTRY")| ::
      CleanRow(Tagged(SnapshotLines(sha, r), "ENTRY")[i], rule, records)
    ensures forall i | 0 <= i < |r.rows| :: CleanEntry(r.root, r.rows[i], rule, records)
  {
    GroupsOf(sha, r);
    EntryTags(r.root, r.rows);
    var rows := Tagged(SnapshotLines(sha, r), "ENTRY");
    assert rows == SplitAll(EntryLines(r.root, r.rows));
    hide SnapshotLines, Tagged, TaggedLines, EntryFields, EntryForm, IssueForm, Covered, CleanRow, CleanEntry, Split,
      EntryLines;
    forall i | 0 <= i < |r.rows| ensures CleanEntry(r.root, r.rows[i], rule, records) {
      assert CleanRow(rows[i], rule, records) && rows[i] == EntryFields(r.root, r.rows[i]);
      RowToEntry(r.root, r.rows[i], rule, records);
    }
  }

  lemma RowToEntry(root: ByteString, e: Entry, rule: Ruleset, records: seq<Record>)
    requires EntryForm(e) && CleanRow(EntryFields(root, e), rule, records)
    ensures CleanEntry(root, e, rule, records)
  {
    EntryShown(root, e);
    KindNamed(e.stat.kind);
    hide EntryFields, EntryRowOk, KindName, Value, Verdict.Settled;
  }

  /** Snapshot, reader, provenance and verdict in one run. A clean verdict means that the walk listed every directory it
      found, that nothing it saw is anything but a directory or a single-link file with matching provenance, and that each
      digest was taken of bytes some read of the walk returned, of the listed size. */
  method SurveyTree(world: World, pin: Pin, root: ByteString, runtimeSha: string, identity: string, rule: Ruleset,
    records: seq<Record>,
                    source: SourceCheck, scope: string)
    returns (accepted: bool, s: Surface, r: Result)
    requires WorldForm(world) && PinForm(pin) && |root| > 0 && root[0] == '/' && HexDigest(runtimeSha)
    ensures accepted && s.state == COMPLETE_NO_ACTION ==>
      && AllExpanded(world, r.rows, 0) && AllRead(world, r.rows)
      && forall i | 0 <= i < |r.rows| :: CleanEntry(root, r.rows[i], rule, records)
  {
    hide AllRead, ResultForm, Accepted, SnapshotLines, AllFromEpoch, AllExpanded, CleanEntry, Tagged, AllSettled,
      PathsUnique, IsObject, RecordOk, RegularText, EntryRowOk;
    s := Surface([], 0, 0, 0, UNRESOLVED_NON_CLEAN);
    var alive, lines;
    alive, r, lines := TakeSnapshot(world, pin, root, runtimeSha, identity, 900);
    if !alive { return false, s, r; }
    accepted := ParseInventory(pin, world.sha, lines);
    if !accepted { return; }
    var entries, coverage := Tagged(lines, "ENTRY"), |Tagged(lines, "UNRESOLVED")| == 0;
    InventoryShaped(pin, world.sha, lines);
    var index := CheckProvenance(records, source, scope, entries, world.sha);
    if index.None? { return false, s, r; }
    s := DeriveSurface(entries, coverage, rule, records);
    if s.state == COMPLETE_NO_ACTION { CleanRun(world, pin, r, lines, rule, records); }
  }

  lemma InventoryShaped(pin: Pin, sha: string -> string, lines: seq<string>)
    requires Accepted(pin, sha, lines)
    ensures RowsShaped(Tagged(lines, "ENTRY")) && PathsUnique(Tagged(lines, "ENTRY"))
  {
    TaggedShape(lines);
    hide EntryRowOk, RowsAccepted, BindingsAccepted, SummaryAccepted, RootEntryAccepted, Tagged;
  }

  lemma CleanRun(world: World, pin: Pin, r: Result, lines: seq<string>, rule: Ruleset, records: seq<Record>)
    requires WorldForm(world) && ResultForm(r) && lines == SnapshotLines(world.sha, r)
      && Accepted(pin, world.sha, lines)
    requires Checked(Tagged(lines, "ENTRY"), records) && |Tagged(lines, "UNRESOLVED")| == 0
    requires AllSettled(Tagged(lines, "ENTRY"), rule, records)
    requires r.complete ==> AllExpanded(world, r.rows, 0)
    ensures AllExpanded(world, r.rows, 0) && forall i | 0 <= i < |r.rows| ::
      CleanEntry(r.root, r.rows[i], rule, records)
  {
    assert DigestForm(world.sha);
    GroupsOf(world.sha, r);
    CleanInventory(pin, world.sha, lines, rule, records);
    NoIssues(r);
    hide SnapshotLines, Tagged, TaggedLines, Accepted, AllExpanded, CleanRow, CleanEntry, AllSettled;
    CleanRows(world.sha, r, rule, records);
  }

  lemma NoIssues(r: Result)
    requires ResultForm(r)
    ensures |SplitAll(IssueLines(r.issues))| == 0 ==> r.complete
  {
  }
}
