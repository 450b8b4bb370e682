/** The descriptor walk of the inventory helper over a directory tree that may change under it:
    every answer of the operating system is arbitrary. */
module Walk {
  import opened Text
  import opened Records
  import opened Sorting

  const ENTRY_CAP: nat := 200000
  const DIRECTORY_CAP: nat := 150000
  const FILE_CAP: nat := 150000
  const DEPTH_CAP: nat := 64
  const MAX_FILE_BYTES: nat := 0x4000_0000
  const MAX_TOTAL_BYTES: nat := 0x8_0000_0000
  const MAX_OUTPUT_BYTES: nat := 125829120

  type ByteString = s: string | ByteText(s)

  /** A complete getdents64 run: an error, or the names in kernel order. A listing never names one
      entry twice. */
  datatype Listing = ReadError | Names(names: seq<ByteString>)

  predicate NoRepeats(l: Listing) {
    l.Names? ==> forall i, j | 0 <= i < j < |l.names| :: l.names[i] != l.names[j]
  }

  /** What the operating system answers at each moment; None is an error return. */
  datatype World = World(
    stat: nat -> Option<Stat>, opens: nat -> bool, list: nat -> Listing, read: nat -> Option<ByteString>,
    noatime: nat -> bool, link: nat -> Option<ByteString>, late: nat -> bool, sha: string -> string)

  ghost predicate WorldForm(w: World) {
    && (forall t: nat :: NoRepeats(w.list(t)))
    && (forall s: string :: HexDigest(w.sha(s)))
  }

  // ----- What an issue list says about a path -----

  ghost predicate HasIssue(issues: seq<Issue>, p: Path) { exists i :: 0 <= i < |issues| && issues[i].path == p }

  ghost predicate HasReason(issues: seq<Issue>, reason: string, p: Path) {
    exists i :: 0 <= i < |issues| && issues[i].path == p && issues[i].reason == reason
  }

  /** Anything the walk could not cover at a row left an issue at its path. */
  ghost predicate Covered(issues: seq<Issue>, e: Entry) {
    && (e.stat.kind == REGULAR && e.hash.None? ==> HasIssue(issues, e.path))
    && (e.stat.kind == REGULAR && e.stat.nlink != 1 ==> HasReason(issues, "HARDLINK_UNRESOLVED", e.path))
    && (e.stat.kind != REGULAR && e.stat.kind != DIRECTORY ==> HasIssue(issues, e.path))
  }

  lemma CoveredGrows(issues: seq<Issue>, more: seq<Issue>, e: Entry)
    requires issues <= more && Covered(issues, e)
    ensures Covered(more, e)
  {
    if HasIssue(issues, e.path) {
      var i :| 0 <= i < |issues| && issues[i].path == e.path;
      assert more[i] == issues[i];
    }
    if HasReason(issues, "HARDLINK_UNRESOLVED", e.path) {
      var i :| 0 <= i < |issues| && issues[i].path == e.path && issues[i].reason == "HARDLINK_UNRESOLVED";
      assert more[i] == issues[i];
    }
  }

  // ----- Counters -----

  function IsKind(k: Kind): Entry -> nat { (e: Entry) => if e.stat.kind == k then 1 else 0 }
  function IsOther(): Entry -> nat { (e: Entry) => if e.stat.kind == REGULAR || e.stat.kind == DIRECTORY then 0 else 1 }
  function IsHashed(): Entry -> nat { (e: Entry) => if e.hash.Some? then 1 else 0 }
  function HashedSize(): Entry -> nat { (e: Entry) => if e.hash.Some? then e.stat.size else 0 }
  function IsUploads(): Entry -> nat { (e: Entry) => if HasUploads(e.path) then 1 else 0 }

  datatype Counters = Counters(entries: nat, directories: nat, files: nat, hashed: nat, hashedBytes: nat,
                               uploads: nat, other: nat)

  /** The counters as a second reader derives them from the rows. */
  function CountersOf(rows: seq<Entry>): Counters {
    Counters(|rows|, Sum(rows, IsKind(DIRECTORY)), Sum(rows, IsKind(REGULAR)), Sum(rows, IsHashed()),
             Sum(rows, HashedSize()), Sum(rows, IsUploads()), Sum(rows, IsOther()))
  }

  function Counted(c: Counters, e: Entry): Counters {
    Counters(c.entries + 1, c.directories + IsKind(DIRECTORY)(e), c.files + IsKind(REGULAR)(e),
      c.hashed + IsHashed()(e),
             c.hashedBytes + HashedSize()(e), c.uploads + IsUploads()(e), c.other + IsOther()(e))
  }

  lemma CountersAppend(rows: seq<Entry>, e: Entry)
    ensures CountersOf(rows + [e]) == Counted(CountersOf(rows), e)
  {
    SumAppend(rows, e, IsKind(DIRECTORY));
    SumAppend(rows, e, IsKind(REGULAR));
    SumAppend(rows, e, IsHashed());
    SumAppend(rows, e, HashedSize());
    SumAppend(rows, e, IsUploads());
    SumAppend(rows, e, IsOther());
  }

  lemma {:induction false} CountersAddUp(rows: seq<Entry>)
    ensures var c := CountersOf(rows); c.entries == c.directories + c.files + c.other
  {
    if |rows| > 0 {
      CountersAddUp(rows[..|rows| - 1]);
      CountersAppend(rows[..|rows| - 1], rows[|rows| - 1]);
      assert rows == rows[..|rows| - 1] + [rows[|rows| - 1]];
    }
  }

  ghost predicate DistinctPaths(rows: seq<Entry>) {
    forall i, j | 0 <= i < j < |rows| :: rows[i].path != rows[j].path
  }

  /** Rows added below one path only: none of the earlier ones is there. */
  ghost predicate Below(p: Path, rows: seq<Entry>, from: nat) {
    forall i | from <= i < |rows| :: p <= rows[i].path
  }

  ghost predicate NoneBelow(p: Path, rows: seq<Entry>) {
    forall i | 0 <= i < |rows| :: !(p <= rows[i].path)
  }

  // ----- Coverage -----

  ghost predicate HasRow(rows: seq<Entry>, p: Path) { exists i :: 0 <= i < |rows| && rows[i].path == p }

  /** Every name of one complete listing has its row. */
  ghost predicate ListingCovered(w: World, rows: seq<Entry>, d: Path, t: nat) {
    w.list(t).Names? && forall n | n in w.list(t).names && n != "." && n != ".." :: HasRow(rows, d + [n])
  }

  ghost predicate Expanded(w: World, rows: seq<Entry>, d: Path) { exists t: nat :: ListingCovered(w, rows, d, t) }

  /** Every reported directory from a position on has been listed completely, and every name reported. */
  ghost predicate AllExpanded(w: World, rows: seq<Entry>, from: nat) {
    forall k | from <= k < |rows| && rows[k].stat.kind == DIRECTORY :: Expanded(w, rows, rows[k].path)
  }

  lemma HasRowGrows(rows: seq<Entry>, more: seq<Entry>, p: Path)
    requires rows <= more && HasRow(rows, p)
    ensures HasRow(more, p)
  {
    var i :| 0 <= i < |rows| && rows[i].path == p;
    assert more[i] == rows[i];
  }

  lemma ExpandedGrows(w: World, rows: seq<Entry>, more: seq<Entry>, d: Path)
    requires rows <= more && Expanded(w, rows, d)
    ensures Expanded(w, more, d)
  {
    var t: nat :| ListingCovered(w, rows, d, t);
    forall n | n in w.list(t).names && n != "." && n != ".." ensures HasRow(more, d + [n]) {
      HasRowGrows(rows, more, d + [n]);
    }
    assert ListingCovered(w, more, d, t);
  }

  lemma AllExpandedJoin(w: World, start: nat, rows: seq<Entry>, more: seq<Entry>)
    requires rows <= more && AllExpanded(w, rows, start) && AllExpanded(w, more, |rows|)
    ensures AllExpanded(w, more, start)
  {
    forall k | start <= k < |more| && more[k].stat.kind == DIRECTORY ensures Expanded(w, more, more[k].path) {
      if k < |rows| {
        assert more[k] == rows[k];
        ExpandedGrows(w, rows, more, rows[k].path);
      }
    }
  }

  /** One attempt to read a file or a link: the bytes, or why not. */
  datatype Outcome = Gap(reason: string, detail: string) | Content(bytes: ByteString)

  // ----- Reasons -----

  lemma SymlinkReasons()
    ensures ReasonText("SYMLINK_IDENTITY_RACE") && ReasonText("SYMLINK_UNRESOLVED")
  {
  }

  lemma TargetReasons()
    ensures ReasonText("SYMLINK_TARGET_NOATIME_UNRESOLVED") && ReasonText("SYMLINK_TARGET_READ_UNRESOLVED")
  {
  }

  lemma FileReasons()
    ensures ReasonText("FILE_BYTE_CAP") && ReasonText("TOTAL_BYTE_CAP") && ReasonText("FILE_OPEN_UNRESOLVED")
  {
  }

  lemma ReadReasons()
    ensures ReasonText("FILE_IDENTITY_RACE") && ReasonText("FILE_READ_UNRESOLVED") && ReasonText("FILE_GROWTH_RACE")
  {
  }

  lemma ObjectReasons()
    ensures ReasonText("HARDLINK_UNRESOLVED") && ReasonText("FILE_CAP") && ReasonText("NONREGULAR_OBJECT_UNRESOLVED")
  {
  }

  lemma ChildReasons()
    ensures ReasonText("PATH_BYTE_CAP") && ReasonText("ENTRY_STAT_UNRESOLVED")
      && ReasonText("DIRECTORY_OPEN_UNRESOLVED")
  {
  }

  lemma RaceReasons()
    ensures ReasonText("DIRECTORY_IDENTITY_RACE") && ReasonText("ENTRY_FINAL_RACE") && ReasonText("ENTRY_IDENTITY_RACE")
  {
  }

  /** A path below one of the first children. */
  ghost predicate UnderSome(p: Path, names: seq<string>, i: nat, path: Path)
    requires i <= |names|
  {
    exists j :: 0 <= j < i && p + [names[j]] <= path
  }

  lemma NothingBelow(w: World, p: Path, rows: seq<Entry>)
    ensures Below(p, rows, |rows|) && AllExpanded(w, rows, |rows|)
  {
  }

  lemma NotDeeper(p: Path, n: string, path: Path)
    requires p <= path ==> path == p
    ensures !(p + [n] <= path)
  {
    assert p + [n] <= path ==> p <= path;
  }

  lemma OtherChild(p: Path, a: string, b: string, path: Path)
    requires a != b && p + [a] <= path
    ensures !(p + [b] <= path)
  {
    assert path[|p|] == (p + [a])[|p|] == a && (p + [b])[|p|] == b;
  }

  /** While only earlier children have been walked, nothing reported lies below the next one. */
  lemma ChildFresh(p: Path, names: seq<string>, i: nat, rows: seq<Entry>, from: nat)
    requires i < |names| && Ascending(names, (n: string) => n) && from <= |rows|
    requires forall k | 0 <= k < from :: p <= rows[k].path ==> rows[k].path == p
    requires forall k | from <= k < |rows| :: UnderSome(p, names, i, rows[k].path)
    ensures NoneBelow(p + [names[i]], rows)
  {
    hide Less;
    forall k | 0 <= k < |rows| ensures !(p + [names[i]] <= rows[k].path) {
      if k < from {
        NotDeeper(p, names[i], rows[k].path);
      } else {
        var j :| 0 <= j < i && p + [names[j]] <= rows[k].path;
        NamesDiffer(names, j, i);
        OtherChild(p, names[j], names[i], rows[k].path);
      }
    }
  }

  lemma NamesDiffer(names: seq<string>, j: nat, i: nat)
    requires Ascending(names, (n: string) => n) && j < i < |names|
    ensures names[j] != names[i]
  {
    LessIrreflexive(names[i]);
    assert Less(names[j], names[i]);
  }

  lemma ChildrenCover(p: Path, names: seq<string>, i: nat, was: seq<Entry>, rows: seq<Entry>, from: nat)
    requires i < |names| && from <= |was| && was <= rows && Below(p + [names[i]], rows, |was|)
    requires Below(p, was, from) && forall k | from <= k < |was| :: UnderSome(p, names, i, was[k].path)
    ensures Below(p, rows, from) && forall k | from <= k < |rows| :: UnderSome(p, names, i + 1, rows[k].path)
  {
    forall k | from <= k < |rows| ensures p <= rows[k].path && UnderSome(p, names, i + 1, rows[k].path) {
      if k < |was| {
        assert rows[k] == was[k];
        var j :| 0 <= j < i && p + [names[j]] <= was[k].path;
      } else {
        assert p + [names[i]] <= rows[k].path;
      }
    }
  }

  /** A digest was taken of exactly `size` bytes that one read of the file gave. */
  ghost predicate ReadWhole(w: World, hash: Option<string>, size: nat) {
    hash.Some? ==> exists t: nat :: w.read(t).Some? && |w.read(t).value| == size && hash.value == w.sha(w.read(t).value)
  }

  ghost predicate AllRead(w: World, rows: seq<Entry>) {
    forall i | 0 <= i < |rows| :: ReadWhole(w, rows[i].hash, rows[i].stat.size)
  }

  class Walker {
    const world: World
    const root: ByteString
    var rows: seq<Entry>
    var issues: seq<Issue>
    var directories: seq<(nat, nat)>   // identities already expanded
    var counters: Counters
    var stopped: bool
    var clock: nat
    var rowBytes: nat
    var issueBytes: nat

    constructor (world: World, root: ByteString)
      requires WorldForm(world)
      ensures this.world == world && this.root == root && rows == [] && issues == [] && Inv()
    {
      this.world := world;
      this.root := root;
      rows, issues, directories, stopped, clock, rowBytes, issueBytes := [], [], [], false, 0, 0, 0;
      counters := Counters(0, 0, 0, 0, 0, 0, 0);
    }

    /** Counters match the rows, every gap has its issue, no identity was expanded twice, no path
        was reported twice, and stopping never goes unmentioned. */
    ghost predicate Inv() reads this`rows, this`issues, this`directories, this`counters, this`stopped {
      && WorldForm(world)
      && counters == CountersOf(rows) && |rows| <= ENTRY_CAP
      && (forall i | 0 <= i < |rows| :: EntryForm(rows[i]) && Covered(issues, rows[i]))
      && (forall i | 0 <= i < |issues| :: IssueForm(issues[i]))
      && DistinctPaths(rows) && AllRead(world, rows)
      && (forall i, j | 0 <= i < j < |directories| :: directories[i] != directories[j])
      && (stopped ==> issues != [])
    }

    /** issue(); false stands for die (output or line cap). */
    method Issued(reason: string, p: Path, detail: string) returns (alive: bool)
      requires Inv() && ReasonText(reason) && SafePath(p)
      modifies this`issues, this`issueBytes
      ensures alive ==> Inv() && issues == old(issues) + [Issue(reason, p, world.sha(detail))]
      ensures alive ==> HasReason(issues, reason, p) && HasIssue(issues, p)
      ensures alive <==> old(issueBytes) + |IssueLine(Issue(reason, p, world.sha(detail)))| + 1 <= MAX_OUTPUT_BYTES
                         && |old(issues)| < 3 * ENTRY_CAP
    {
      var i := Issue(reason, p, world.sha(detail));
      if issueBytes + |IssueLine(i)| + 1 > MAX_OUTPUT_BYTES || |issues| >= 3 * ENTRY_CAP { return false; }
      issueBytes := issueBytes + |IssueLine(i)| + 1;
      issues := issues + [i];
      forall k | 0 <= k < |rows| ensures Covered(issues, rows[k]) { CoveredGrows(old(issues), issues, rows[k]); }
      assert issues[|old(issues)|] == i;
      alive := true;
    }

    /** fstat, fstatat and lstat. */
    method Status() returns (s: Option<Stat>)
      modifies this`clock
    {
      s := world.stat(clock);
      clock := clock + 1;
    }

    /** check_deadline; false is die. */
    method InTime() returns (alive: bool)
      modifies this`clock
    {
      alive := !world.late(clock);
      clock := clock + 1;
    }

    /** hash_regular: a digest only of exactly `size` bytes of a file that was the same object before,
        during and after; otherwise an issue at its path. */
    method HashRegular(p: Path, before: Stat) returns (alive: bool, hash: Option<string>)
      requires Inv() && SafePath(p)
      modifies this`issues, this`issueBytes, this`clock
      ensures alive ==> Inv() && old(issues) <= issues
      ensures alive && hash.None? ==> HasIssue(issues, p)
      ensures alive && hash.Some? ==> HexDigest(hash.value) && ReadWhole(world, hash, before.size)
    {
      hash := None;
      var outcome: Outcome;
      alive, outcome := ReadRegular(before, counters.hashedBytes);
      if !alive { return; }
      match outcome
      case Gap(reason, detail) => alive := Issued(reason, p, detail);
      case Content(bytes) => hash := Some(world.sha(bytes));
    }

    method ReadRegular(before: Stat, hashedBytes: nat) returns (alive: bool, r: Outcome)
      modifies this`clock
      ensures alive && r.Gap? ==> ReasonText(r.reason)
      ensures alive && r.Content? ==> |r.bytes| == before.size && exists t: nat :: world.read(t) == Some(r.bytes)
    {
      hide ReasonText;
      FileReasons();
      ReadReasons();
      alive := true;
      if before.size > MAX_FILE_BYTES { return true, Gap("FILE_BYTE_CAP", "size"); }
      if hashedBytes > MAX_TOTAL_BYTES || before.size > MAX_TOTAL_BYTES - hashedBytes {
        return true, Gap("TOTAL_BYTE_CAP", "total");
      }
      clock := clock + 1;
      if !world.opens(clock - 1) { return true, Gap("FILE_OPEN_UNRESOLVED", "open"); }
      var found := Status();
      if found != Some(before) { return true, Gap("FILE_IDENTITY_RACE", "open"); }
      alive := InTime();
      r := ReadOpened(before);
    }

    method ReadOpened(before: Stat) returns (r: Outcome)
      modifies this`clock
      ensures r.Gap? ==> ReasonText(r.reason)
      ensures r.Content? ==> |r.bytes| == before.size && exists t: nat :: world.read(t) == Some(r.bytes)
    {
      hide ReasonText;
      ReadReasons();
      var content := world.read(clock);
      clock := clock + 1;
      if content.None? { return Gap("FILE_READ_UNRESOLVED", "read"); }
      if |content.value| > before.size { return Gap("FILE_GROWTH_RACE", "growth"); }
      var after := Status();
      var named := Status();
      if |content.value| != before.size || after != Some(before) || named != after {
        return Gap("FILE_IDENTITY_RACE", "read");
      }
      r := Content(content.value);
    }

    /** symlink_target. */
    method SymlinkTarget(p: Path, before: Stat) returns (alive: bool, target: Option<string>)
      requires Inv() && SafePath(p)
      modifies this`issues, this`issueBytes, this`clock
      ensures alive ==> Inv() && old(issues) <= issues
      ensures alive && target.Some? ==> ByteText(target.value) && |target.value| <= 4096
    {
      target := None;
      var outcome := ReadLink(before);
      match outcome
      case Gap(reason, detail) => alive := Issued(reason, p, detail);
      case Content(bytes) => alive, target := true, Some(bytes);
    }

    method ReadLink(before: Stat) returns (r: Outcome)
      modifies this`clock
      ensures r.Gap? ==> ReasonText(r.reason)
      ensures r.Content? ==> |r.bytes| <= 4096
    {
      hide ReasonText;
      SymlinkReasons();
      TargetReasons();
      clock := clock + 1;
      if !world.opens(clock - 1) { return Gap("SYMLINK_TARGET_READ_UNRESOLVED", "open"); }
      var found := Status();
      if found != Some(before) { return Gap("SYMLINK_IDENTITY_RACE", "open"); }
      clock := clock + 1;
      if !world.noatime(clock - 1) { return Gap("SYMLINK_TARGET_NOATIME_UNRESOLVED", "mount-flags"); }
      var content := world.link(clock);
      clock := clock + 1;
      if content.None? || |content.value| > 4096 { return Gap("SYMLINK_TARGET_READ_UNRESOLVED", "readlink"); }
      var after := Status();
      var named := Status();
      if after != Some(before) || named != after { return Gap("SYMLINK_IDENTITY_RACE", "readlink"); }
      r := Content(content.value);
    }

    /** The part of walk that reports one object: counters, target or hash, and exactly one row. */
    method Visit(p: Path, before: Stat) returns (alive: bool)
      requires Inv() && SafePath(p) && ShortPath(p) && |rows| < ENTRY_CAP && !stopped
      requires forall i | 0 <= i < |rows| :: rows[i].path != p
      modifies this`rows, this`rowBytes, this`counters, this`issues, this`issueBytes, this`stopped, this`clock
      ensures alive ==> Inv() && old(issues) <= issues
      ensures alive ==> |rows| == |old(rows)| + 1 && old(rows) <= rows && rows[|old(rows)|].path == p
                        && rows[|old(rows)|].stat == before
      ensures alive && issues == old(issues) ==> !stopped
    {
      hide IssueLine, EntryLine, IssueForm, HasIssue, HasReason, AllRead, ReadWhole, DistinctPaths, EntryForm, Covered,
        WorldForm;
      var target, hash: Option<string>;
      alive, target, hash := Evidence(p, before);
      if !alive { return; }
      var e := Entry(p, before, target, hash);
      var c := counters;
      counters := Counters(
        c.entries + 1,
        if before.kind == DIRECTORY then c.directories + 1 else c.directories,
        if before.kind == REGULAR then c.files + 1 else c.files,
        if hash.Some? then c.hashed + 1 else c.hashed,
        if hash.Some? then c.hashedBytes + before.size else c.hashedBytes,
        if HasUploads(p) then c.uploads + 1 else c.uploads,
        if before.kind != DIRECTORY && before.kind != REGULAR then c.other + 1 else c.other);
      alive := AddRow(e, c);
    }

    /** lines_add on the rows, with the counters already advanced. */
    method AddRow(e: Entry, ghost before: Counters) returns (alive: bool)
      requires WorldForm(world) && before == CountersOf(rows) && counters == Counted(before, e) && |rows| < ENTRY_CAP
      requires (forall i | 0 <= i < |rows| :: EntryForm(rows[i]) && Covered(issues, rows[i]))
      requires (forall i | 0 <= i < |issues| :: IssueForm(issues[i]))
      requires DistinctPaths(rows) && (forall i | 0 <= i < |rows| :: rows[i].path != e.path) && AllRead(world, rows)
      requires forall i, j | 0 <= i < j < |directories| :: directories[i] != directories[j]
      requires stopped ==> issues != []
      requires EntryForm(e) && Covered(issues, e) && ReadWhole(world, e.hash, e.stat.size)
      modifies this`rows, this`rowBytes
      ensures alive ==> Inv() && rows == old(rows) + [e]
      ensures alive <==> old(rowBytes) + |EntryLine(root, e)| + 1 <= MAX_OUTPUT_BYTES
    {
      hide CountersOf, Counted, Covered, EntryForm, ReadWhole;
      if rowBytes + |EntryLine(root, e)| + 1 > MAX_OUTPUT_BYTES { return false; }
      rowBytes := rowBytes + |EntryLine(root, e)| + 1;
      CountersAppend(rows, e);
      rows := rows + [e];
      alive := true;
    }

    /** What is known about the content of one object, with an issue for whatever is not. */
    method Evidence(p: Path, before: Stat) returns (alive: bool, target: Option<string>, hash: Option<string>)
      requires Inv() && SafePath(p) && ShortPath(p) && !stopped
      modifies this`issues, this`issueBytes, this`stopped, this`clock
      ensures alive ==> Inv() && old(issues) <= issues
      ensures alive ==> EntryForm(Entry(p, before, target, hash)) && Covered(issues, Entry(p, before, target, hash))
      ensures alive ==> ReadWhole(world, hash, before.size)
      ensures alive && issues == old(issues) ==> !stopped
    {
      hide ReasonText;
      SymlinkReasons();
      ObjectReasons();
      alive, target, hash := true, None, None;
      if before.kind == SYMLINK {
        alive, target := SymlinkTarget(p, before);
        if !alive { return; }
        alive := Issued("SYMLINK_UNRESOLVED", p, "no-follow");
      } else if before.kind == REGULAR {
        alive, hash := RegularEvidence(p, before);
      } else if before.kind != DIRECTORY {
        alive := Issued("NONREGULAR_OBJECT_UNRESOLVED", p, KindName(before.kind));
      }
    }

    method RegularEvidence(p: Path, before: Stat) returns (alive: bool, hash: Option<string>)
      requires Inv() && SafePath(p) && ShortPath(p) && !stopped && before.kind == REGULAR
      modifies this`issues, this`issueBytes, this`stopped, this`clock
      ensures alive ==> Inv() && old(issues) <= issues
      ensures alive ==> EntryForm(Entry(p, before, None, hash)) && Covered(issues, Entry(p, before, None, hash))
      ensures alive ==> ReadWhole(world, hash, before.size)
      ensures alive && issues == old(issues) ==> !stopped
    {
      hide ReasonText, IssueLine, IssueForm, CountersOf;
      ObjectReasons();
      alive, hash := true, None;
      if before.nlink != 1 {
        alive := Issued("HARDLINK_UNRESOLVED", p, "nlink");
        if !alive { return; }
      }
      ghost var linked := issues;
      if counters.files + 1 > FILE_CAP {
        alive := Issued("FILE_CAP", p, "files");
        stopped := true;
      } else {
        alive, hash := HashRegular(p, before);
      }
      if alive { CoveredGrows(linked, issues, Entry(p, before, None, Some(""))); }
    }

    /** The names are those of one complete listing. */
    ghost predicate Listed(names: seq<string>) {
      exists t: nat :: world.list(t).Names? && forall n :: n in names <==>
        n in world.list(t).names && n != "." && n != ".."
    }

    /** read_names: the safe names of one complete listing, sorted; None leaves an issue. */
    method ReadNames(p: Path) returns (alive: bool, r: Option<seq<string>>)
      requires Inv() && SafePath(p)
      modifies this`issues, this`issueBytes, this`stopped, this`clock
      ensures alive ==> Inv() && old(issues) <= issues
      ensures alive && r.Some? ==> SafePath(r.value) && Ascending(r.value, (n: string) => n)
      ensures alive && r.Some? ==> Listed(r.value) && issues == old(issues) && stopped == old(stopped)
      ensures alive && r.None? ==> issues != old(issues)
    {
      assert WorldForm(world);
      hide Inv, HasIssue, HasReason;
      r := None;
      var names, refusal;
      alive, names, refusal := List();
      if !alive { return; }
      if refusal.Some? {
        alive := Issued(refusal.value.0, p, refusal.value.1);
        if alive && refusal.value.0 != "DIRECTORY_READ_UNRESOLVED" { Halt(); }
        return;
      }
      var sorted := SortNames(names);
      forall n ensures n in sorted <==> n in names { SameElements(sorted, names, n); }
      assert Listed(sorted) by { SortedListed(names, sorted); }
      r := Some(sorted);
    }

    lemma SortedListed(names: seq<string>, sorted: seq<string>)
      requires Listed(names) && forall n :: n in sorted <==> n in names
      ensures Listed(sorted)
    {
      var t: nat :| world.list(t).Names? && forall n :: n in names <==>
        n in world.list(t).names && n != "." && n != "..";
    }

    /** One getdents64 run and its scan. */
    method List() returns (alive: bool, names: seq<string>, refusal: Option<(string, string)>)
      requires WorldForm(world)
      modifies this`clock
      ensures alive && refusal.Some? ==> ReasonText(refusal.value.0)
      ensures SafePath(names) && DistinctKeys(names, (n: string) => n)
      ensures alive && refusal.None? ==> Listed(names)
    {
      names, refusal := [], None;
      alive := InTime();
      if !alive { return; }
      var listing := world.list(clock);
      clock := clock + 1;
      if listing.ReadError? {
        refusal := Some(("DIRECTORY_READ_UNRESOLVED", "getdents"));
        return;
      }
      assert NoRepeats(listing);
      names, refusal := Admit(listing.names);
    }

    /** The stop flag, set only with an issue already recorded. */
    method Halt()
      requires Inv() && issues != []
      modifies this`stopped
      ensures Inv()
    {
      stopped := true;
    }

    /** qsort of the names; they are distinct, so the order is strict. */
    function SortNames(names: seq<string>): (sorted: seq<string>)
      requires SafePath(names) && DistinctKeys(names, (n: string) => n)
      ensures SafePath(sorted) && Ascending(sorted, (n: string) => n) && multiset(sorted) == multiset(names)
    {
      var key := (n: string) => n;
      SortAscends(names, key);
      assert forall i | 0 <= i < |names| :: Sort(names, key)[i] in multiset(names);
      Sort(names, key)
    }

    /** The scan of one listing: dot entries are skipped, an unsafe name or too many stop the walk. */
    method Admit(listed: seq<ByteString>) returns (names: seq<string>, refusal: Option<(string, string)>)
      requires forall i, j | 0 <= i < j < |listed| :: listed[i] != listed[j]
      ensures refusal.Some? ==> ReasonText(refusal.value.0)
      ensures SafePath(names) && DistinctKeys(names, (n: string) => n)
      ensures refusal.None? ==> forall n :: n in names <==> n in listed && n != "." && n != ".."
    {
      names := [];
      for k := 0 to |listed|
        invariant SafePath(names) && DistinctKeys(names, (n: string) => n)
        invariant forall n :: n in names <==> n in listed[..k] && n != "." && n != ".."
      {
        var n := listed[k];
        if n != "." && n != ".." {
          if !SafeComponent(n) { return names, Some(("UNSAFE_NAME_UNRESOLVED", "name")); }
          if |names| >= ENTRY_CAP { return names, Some(("ENTRY_CAP", "entries")); }
          assert n !in listed[..k];
          names := names + [n];
        }
      }
      refusal := None;
    }

    lemma EntriesCounted()
      requires Inv()
      ensures counters.entries == |rows| && (stopped ==> issues != [])
    {
      hide AllRead, DistinctPaths, EntryForm, Covered, IssueForm, WorldForm;
    }

    /** walk. Whatever the answers, it ends (the depth is bounded), reports only below its own path,
        and no path twice. */
    method WalkAt(p: Path, before: Stat, depth: nat) returns (alive: bool)
      requires Inv() && SafePath(p) && ShortPath(p) && NoneBelow(p, rows) && depth <= DEPTH_CAP + 1
      modifies this
      ensures alive ==> Inv() && old(issues) <= issues && old(rows) <= rows && Below(p, rows, |old(rows)|)
      ensures alive && !old(stopped) && |old(rows)| < ENTRY_CAP ==>
        |rows| > |old(rows)| && rows[|old(rows)|].path == p && rows[|old(rows)|].stat == before
      ensures alive && issues == old(issues) ==> stopped == old(stopped)
      ensures alive && issues == old(issues) && !old(stopped) ==>
        HasRow(rows, p) && AllExpanded(world, rows, |old(rows)|)
      decreases DEPTH_CAP + 2 - depth, 3
    {
      if stopped { return true; }
      EntriesCounted();
      hide Inv, HasIssue, HasReason, SafePath, NoneBelow, Below, AllExpanded, HasRow;
      alive := InTime();
      if !alive { return; }
      if counters.entries >= ENTRY_CAP {
        alive := Issued("ENTRY_CAP", p, "entries");
        if alive { Halt(); }
        return;
      }
      alive := ReportAndEnter(p, before, depth);
    }

    method ReportAndEnter(p: Path, before: Stat, depth: nat) returns (alive: bool)
      requires Inv() && SafePath(p) && ShortPath(p) && NoneBelow(p, rows) && depth <= DEPTH_CAP + 1 && !stopped
        && |rows| < ENTRY_CAP
      modifies this
      ensures alive ==> Inv() && old(issues) <= issues && old(rows) <= rows && Below(p, rows, |old(rows)|)
      ensures alive ==> |rows| > |old(rows)| && rows[|old(rows)|].path == p && rows[|old(rows)|].stat == before
      ensures alive && issues == old(issues) ==> !stopped && AllExpanded(world, rows, |old(rows)|)
      decreases DEPTH_CAP + 2 - depth, 2
    {
      hide Inv, SafePath, Expanded;
      alive := Visit(p, before);
      if !alive || before.kind != DIRECTORY || stopped { return; }
      ghost var was := issues;
      alive := Enter(p, before, depth);
      assert alive && issues == old(issues) ==> was == issues;
    }

    /** Why a reported directory is not expanded. */
    function Barred(before: Stat, depth: nat): (r: Option<(string, string)>)
      reads this`counters, this`directories
      ensures r.Some? ==> ReasonText(r.value.0)
    {
      if depth > DEPTH_CAP then Some(("DEPTH_CAP", "depth"))
      else if counters.directories > DIRECTORY_CAP then Some(("DIRECTORY_CAP", "dirs"))
      else if (before.dev, before.ino) in directories then Some(("DIRECTORY_IDENTITY_REPEAT", "identity"))
      else None
    }

    /** The second half of walk, for a reported directory: refuse it or expand it once. */
    method Enter(p: Path, before: Stat, depth: nat) returns (alive: bool)
      requires Inv() && SafePath(p) && !stopped && depth <= DEPTH_CAP + 1
      requires forall i | 0 <= i < |rows| :: p <= rows[i].path ==> rows[i].path == p
      modifies this
      ensures alive ==> Inv() && old(issues) <= issues && old(rows) <= rows && Below(p, rows, |old(rows)|)
      ensures alive && issues == old(issues) ==>
        !stopped && Expanded(world, rows, p) && AllExpanded(world, rows, |old(rows)|)
      decreases DEPTH_CAP + 2 - depth, 1
    {
      var bar := Barred(before, depth);
      if bar.Some? {
        alive := Issued(bar.value.0, p, bar.value.1);
        if alive && depth <= DEPTH_CAP && counters.directories > DIRECTORY_CAP { Halt(); }
        return;
      }
      assert depth <= DEPTH_CAP && (before.dev, before.ino) !in directories;
      directories := directories + [(before.dev, before.ino)];
      alive := Expand(p, depth);
    }

    method Expand(p: Path, depth: nat) returns (alive: bool)
      requires Inv() && SafePath(p) && !stopped && depth <= DEPTH_CAP
      requires forall i | 0 <= i < |rows| :: p <= rows[i].path ==> rows[i].path == p
      modifies this
      ensures alive ==> Inv() && old(issues) <= issues && old(rows) <= rows && Below(p, rows, |old(rows)|)
      ensures alive && issues == old(issues) ==>
        !stopped && Expanded(world, rows, p) && AllExpanded(world, rows, |old(rows)|)
      decreases DEPTH_CAP + 2 - depth, 0, 2
    {
      hide Inv;
      var first, last: Option<seq<string>>;
      alive, first := ReadNames(p);
      if !alive || first.None? { return; }
      alive := WalkChildren(p, first.value, depth);
      if alive && issues == old(issues) { ListedExpanded(p, first.value); }
      if !alive || stopped { return; }
      alive, last := ReadNames(p);
      if alive && last.Some? && last != first {
        alive := Issued("DIRECTORY_IDENTITY_RACE", p, "changed");
      }
    }

    lemma ListedExpanded(p: Path, names: seq<string>)
      requires Listed(names) && forall k | 0 <= k < |names| :: HasRow(rows, p + [names[k]])
      ensures Expanded(world, rows, p)
    {
      var t: nat :| world.list(t).Names? && forall n :: n in names <==>
        n in world.list(t).names && n != "." && n != "..";
      forall n | n in world.list(t).names && n != "." && n != ".." ensures HasRow(rows, p + [n]) {
        assert n in names;
      }
      assert ListingCovered(world, rows, p, t);
    }

    method WalkChildren(p: Path, names: seq<string>, depth: nat) returns (alive: bool)
      requires !stopped && Inv() && SafePath(p) && SafePath(names) && Ascending(names, (n: string) => n)
        && depth <= DEPTH_CAP
      requires forall i | 0 <= i < |rows| :: p <= rows[i].path ==> rows[i].path == p
      modifies this
      ensures alive ==> Inv() && old(issues) <= issues && old(rows) <= rows && Below(p, rows, |old(rows)|)
      ensures alive && issues == old(issues) ==> !stopped && AllExpanded(world, rows, |old(rows)|)
      ensures alive && issues == old(issues) ==> forall k | 0 <= k < |names| :: HasRow(rows, p + [names[k]])
      decreases DEPTH_CAP + 2 - depth, 0, 1
    {
      hide Inv, Below, NoneBelow, UnderSome, AllExpanded, HasRow, Less;
      var i := 0;
      NothingBelow(world, p, rows);
      while i < |names| && !stopped
        invariant 0 <= i <= |names|
        invariant Inv() && old(issues) <= issues && old(rows) <= rows && Below(p, rows, |old(rows)|)
        invariant forall k | |old(rows)| <= k < |rows| :: UnderSome(p, names, i, rows[k].path)
        invariant issues == old(issues) ==> !stopped && AllExpanded(world, rows, |old(rows)|)
        invariant issues == old(issues) ==> forall k | 0 <= k < i :: HasRow(rows, p + [names[k]])
      {
        ghost var was, before := rows, issues;
        ChildFresh(p, names, i, rows, |old(rows)|);
        alive := WalkChild(p, names[i], depth);
        if !alive { return; }
        if issues == old(issues) {
          assert before == issues;
          forall k | 0 <= k < i ensures HasRow(rows, p + [names[k]]) { HasRowGrows(was, rows, p + [names[k]]); }
          AllExpandedJoin(world, |old(rows)|, was, rows);
        }
        ChildrenCover(p, names, i, was, rows, |old(rows)|);
        i := i + 1;
      }
      alive := true;
    }

    /** What walk learns about a child before entering it. */
    method Probe(child: Path) returns (found: Option<Stat>, gap: (string, string))
      modifies this`clock
      ensures found.None? ==> ReasonText(gap.0)
      ensures found.Some? ==> ShortPath(child)
    {
      hide ReasonText;
      ChildReasons();
      RaceReasons();
      gap := ("", "");
      if !ShortPath(child) { return None, ("PATH_BYTE_CAP", "path"); }
      found := Status();
      if found.None? { return None, ("ENTRY_STAT_UNRESOLVED", "stat"); }
      if found.value.kind == DIRECTORY {
        clock := clock + 1;
        if !world.opens(clock - 1) { return None, ("DIRECTORY_OPEN_UNRESOLVED", "open"); }
        var again := Status();
        if again != found { return None, ("DIRECTORY_IDENTITY_RACE", "open"); }
      }
    }

    /** One pass of walk's loop over the names of a directory. */
    method WalkChild(p: Path, name: string, depth: nat) returns (alive: bool)
      requires Inv() && SafePath(p) && SafeComponent(name) && NoneBelow(p + [name], rows) && depth <= DEPTH_CAP
      modifies this
      ensures alive ==> Inv() && old(issues) <= issues && old(rows) <= rows && Below(p + [name], rows, |old(rows)|)
      ensures alive && issues == old(issues) ==> stopped == old(stopped)
      ensures alive && issues == old(issues) && !old(stopped) ==>
        HasRow(rows, p + [name]) && AllExpanded(world, rows, |old(rows)|)
      decreases DEPTH_CAP + 2 - depth, 0, 0
    {
      hide Inv, ReasonText;
      RaceReasons();
      var child := p + [name];
      var found, gap := Probe(child);
      if found.None? {
        alive := Issued(gap.0, child, gap.1);
        return;
      }
      alive := WalkAt(child, found.value, depth + 1);
      if !alive { return; }
      var final := Status();
      if final.None? {
        alive := Issued("ENTRY_FINAL_RACE", child, "stat");
      } else if final != found {
        alive := Issued("ENTRY_IDENTITY_RACE", child, "changed");
      }
    }
  }
}
