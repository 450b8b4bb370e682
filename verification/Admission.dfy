/** The volatile mode end to end: two walks under a policy that derive built from two earlier observations. */
module Admission {
  import opened Text
  import opened Records
  import opened Sorting
  import opened Walk
  import opened Inventory
  import opened Agreement
  import opened Snapshot
  import opened Drift
  import opened Diagnostic
  import opened RawPass
  import opened Streams
  import opened DriftAgreement
  import opened Policy
  import opened Volatile
  import opened LogPrefix
  import opened Disposition
  import opened Diagnosis

  // ----- What one observed record lets through -----

  /** A change at the record's path is admitted: of ctime alone, or the proved growth of a log. */
  ghost predicate LetsChange(r: DeltaRecord, root: ByteString, a: Entry, b: Entry, proof: PrefixProof)
    requires EntryForm(a) && EntryForm(b)
  {
    var s, t := StateOf(a), StateOf(b);
    match BehaviorOf(r)
    case Some(CtimeChange) => WithoutCtime(s) == WithoutCtime(t) && NonExecutable(s.mode)
    case Some(LogGrowth) =>
      && SameIdentity(s, t) && s.kind == "REGULAR" && NonExecutable(s.mode) && !s.uploads
      && EndsWith(Relative(a.path), LOG_SUFFIX)
      && t.size > s.size && t.mtime >= s.mtime && t.ctime >= s.ctime
      && proof(EntryFields(root, a), EntryFields(root, b))
    case _ => false
  }

  /** An unchanged file at the record's path is still what was observed. */
  ghost predicate LetsStay(r: DeltaRecord, a: Entry) requires EntryForm(a) {
    StateOf(a).kind == "REGULAR" && NonExecutable(StateOf(a).mode)
      && (StateOf(a).uploads <==> BehaviorOf(r) == Some(UploadLogGrowth))
  }

  /** One place of both walks: one path, and a changed object only where some record lets that change through. */
  ghost predicate Explained(observed: seq<DeltaRecord>, root: ByteString, a: Entry, b: Entry, proof: PrefixProof)
    requires EntryForm(a) && EntryForm(b)
  {
    && a.path == b.path
    && if StateOf(a) == StateOf(b) then forall j | 0 <= j < |observed| && observed[j].path == PathHex(a.path) ::
      LetsStay(observed[j], a)
       else exists j ::
         0 <= j < |observed| && observed[j].path == PathHex(a.path) && LetsChange(observed[j], root, a, b, proof)
  }

  lemma FieldsEqual(root: ByteString, a: Entry, b: Entry)
    requires EntryForm(a) && EntryForm(b) && a.path == b.path
    ensures EntryFields(root, a) == EntryFields(root, b) <==> StateOf(a) == StateOf(b)
  {
    FieldsAgree(root, a, b);
    var f, g, s, t := EntryFields(root, a), EntryFields(root, b), StateOf(a), StateOf(b);
    hide EntryFields, StateOf, EntryForm;
    assert f == g <==> forall i | 0 <= i < 16 :: f[i] == g[i];
  }

  lemma PathsEqual(p: Path, q: Path)
    requires SafePath(p) && SafePath(q)
    ensures PathHex(p) == PathHex(q) <==> p == q
  {
    RelativeBytes(p);
    RelativeBytes(q);
    UnhexHex(Relative(p));
    UnhexHex(Relative(q));
    hide Hex, Unhex, SafePath, Relative;
    if Relative(p) == Relative(q) { RelativeInjective(p, q); }
  }

  lemma StableIs(r: DeltaRecord, root: ByteString, a: Entry)
    requires EntryForm(a) && BehaviorOf(r).Some?
    ensures StableAllowed(RuleFor(r), EntryFields(root, a)) <==> LetsStay(r, a)
  {
    NumbersShown(root, a);
    assert StateOf(a).kind == KindName(a.stat.kind) && StateOf(a).mode == Octal(a.stat.mode)
      && StateOf(a).uploads == HasUploads(a.path);
    hide EntryFields, StateOf, EntryForm, Octal, KindName, NonExecutable, BehaviorOf, HasUploads, CanonicalDecimal,
      CanonicalSigned;
  }

  lemma ChangeIs(r: DeltaRecord, root: ByteString, a: Entry, b: Entry, proof: PrefixProof)
    requires EntryForm(a) && EntryForm(b) && a.path == b.path && a.path != [] && BehaviorOf(r).Some?
      && StateOf(a) != StateOf(b)
    ensures DriftAllowed(RuleFor(r), EntryFields(root, a), EntryFields(root, b), proof) <==>
      LetsChange(r, root, a, b, proof)
  {
    CtimeAgrees(root, a, b);
    GrowthAgrees(root, a, b);
    NumbersShown(root, a);
    NumbersShown(root, b);
    assert StateOf(a).mode == Octal(a.stat.mode) && StateOf(b).mode == Octal(b.stat.mode)
      && StateOf(a).uploads == HasUploads(a.path);
    hide EntryFields, StateOf, EntryForm, Octal, KindName, NonExecutable, CtimeOnly, MonotonicGrowth, Relative,
      BehaviorOf, HasUploads, EndsWith, CanonicalDecimal, CanonicalSigned, ParseDecimal, ParseSigned, PathHex;
  }

  // ----- Rules and records -----

  lemma SortedMember(observed: seq<DeltaRecord>, i: nat)
    requires i < |observed|
    ensures |Sort(observed, PathText())| == |observed| && Sort(observed, PathText())[i] in observed
  {
    hide Sort;
    var sorted := Sort(observed, PathText());
    assert sorted[i] in multiset(sorted);
  }

  lemma MemberSorted(observed: seq<DeltaRecord>, j: nat) returns (i: nat)
    requires j < |observed|
    ensures |Sort(observed, PathText())| == |observed| && i < |observed| && Sort(observed, PathText())[i] == observed[j]
  {
    hide Sort;
    var sorted := Sort(observed, PathText());
    assert observed[j] in multiset(observed);
    assert observed[j] in sorted;
    i :| 0 <= i < |sorted| && sorted[i] == observed[j];
  }

  /** The rule the helper finds for a path is the one of the record of that path. */
  lemma RuleKnown(observed: seq<DeltaRecord>, p: string)
    requires Indexable(observed)
    ensures RuleAt(RulesFor(observed), p) < |RulesFor(observed)| <==>
      exists j :: 0 <= j < |observed| && observed[j].path == p
    ensures forall j | 0 <= j < |observed| && observed[j].path == p ::
      RuleAt(RulesFor(observed), p) < |RulesFor(observed)|
        && RulesFor(observed)[RuleAt(RulesFor(observed), p)] == RuleFor(observed[j])
  {
    hide BehaviorOf, DecodeRelOk, Sort, RuleAt;
    var rules, sorted := RulesFor(observed), Sort(observed, PathText());
    var k := RuleAt(rules, p);
    if k < |rules| { SortedMember(observed, k); }
    forall j | 0 <= j < |observed| && observed[j].path == p ensures k < |rules| && rules[k] == RuleFor(observed[j]) {
      var i := MemberSorted(observed, j);
      assert rules[i].path == p;
    }
  }

  /** The check of one pair of rows, in terms of records and states. */
  lemma PairIs(observed: seq<DeltaRecord>, root: ByteString, a: Entry, b: Entry, proof: PrefixProof)
    requires Indexable(observed) && EntryForm(a) && EntryForm(b)
    ensures PairAllowed(RulesFor(observed), proof, EntryLine(root, a), EntryLine(root, b)) <==>
      Explained(observed, root, a, b, proof)
  {
    EntryLineSplits(root, a);
    EntryLineSplits(root, b);
    NumbersShown(root, a);
    NumbersShown(root, b);
    PathsEqual(a.path, b.path);
    if a.path == b.path { PairOf(observed, root, a, b, proof); }
    hide *;
  }

  lemma PairOf(observed: seq<DeltaRecord>, root: ByteString, a: Entry, b: Entry, proof: PrefixProof)
    requires Indexable(observed) && EntryForm(a) && EntryForm(b) && a.path == b.path
    requires Split(EntryLine(root, a), TAB) == EntryFields(root, a)
      && Split(EntryLine(root, b), TAB) == EntryFields(root, b)
    requires EntryFields(root, a)[1] == PathHex(a.path) == EntryFields(root, b)[1]
    ensures PairAllowed(RulesFor(observed), proof, EntryLine(root, a), EntryLine(root, b)) <==>
      Explained(observed, root, a, b, proof)
  {
    FieldsEqual(root, a, b);
    RuleKnown(observed, PathHex(a.path));
    hide EntryForm, EntryFields, EntryLine, Split, StateOf, BehaviorOf, DecodeRelOk, RuleAt, RulesFor, RuleFor,
      DriftAllowed, StableAllowed, LetsChange, LetsStay, PathHex;
    forall j | 0 <= j < |observed| && observed[j].path == PathHex(a.path)
      ensures StableAllowed(RuleFor(observed[j]), EntryFields(root, a)) <==> LetsStay(observed[j], a)
      ensures StateOf(a) != StateOf(b) ==>
        (DriftAllowed(RuleFor(observed[j]), EntryFields(root, a), EntryFields(root, b), proof) <==>
          LetsChange(observed[j], root, a, b, proof))
    {
      StableIs(observed[j], root, a);
      PathNotRoot(observed[j], a.path);
      if StateOf(a) != StateOf(b) { ChangeIs(observed[j], root, a, b, proof); }
    }
  }

  lemma PathNotRoot(r: DeltaRecord, p: Path)
    requires DecodeRelOk(r.path) && SafePath(p) && r.path == PathHex(p)
    ensures p != []
  {
  }

  // ----- Two snapshots under derived rules -----

  /** Two walks the policy admits: nothing unresolved, one root object, the same paths, every change explained and every
      observed path still there. */
  ghost predicate Settled(observed: seq<DeltaRecord>, r1: Result, r2: Result, proof: PrefixProof)
    requires ResultForm(r1) && ResultForm(r2)
  {
    && r1.issues == [] && r2.issues == []
    && r1.rootStat.dev == r2.rootStat.dev && r1.rootStat.ino == r2.rootStat.ino
    && |r1.rows| == |r2.rows|
    && (forall i | 0 <= i < |r1.rows| :: Explained(observed, r1.root, r1.rows[i], r2.rows[i], proof))
    && forall j | 0 <= j < |observed| :: Listed(r1.rows, observed[j].path)
  }

  ghost predicate Names(e: Entry, path: string) requires EntryForm(e) { PathHex(e.path) == path }

  ghost predicate Listed(rows: seq<Entry>, path: string) requires forall i | 0 <= i < |rows| :: EntryForm(rows[i]) {
    exists i :: 0 <= i < |rows| && Names(rows[i], path)
  }

  /** Two snapshots one helper of one run could have taken. */
  ghost predicate Paired(sha: string -> string, r1: Result, r2: Result) {
    && ResultForm(r1) && ResultForm(r2) && DigestForm(sha) && r1.root == r2.root && r1.pin == r2.pin && ShortPin(r1.pin)
    && |r1.root| <= MAX_RELATIVE_BYTES && r1.runtimeSha == r2.runtimeSha && r1.identitySha == r2.identitySha
  }

  lemma LinePath(root: ByteString, e: Entry)
    requires EntryForm(e)
    ensures Volatile.Path(EntryLine(root, e)) == PathHex(e.path)
  {
    EntryLineSplits(root, e);
    NumbersShown(root, e);
    hide EntryForm, EntryLine, Split, PathHex;
  }

  lemma HasPathIs(root: ByteString, rows: seq<Entry>, path: string)
    requires forall i | 0 <= i < |rows| :: EntryForm(rows[i])
    ensures HasPath(EntryLines(root, rows), path) <==> Listed(rows, path)
  {
    hide EntryForm, EntryLine, PathHex, Volatile.Path;
    var lines := EntryLines(root, rows);
    forall i | 0 <= i < |rows| ensures Volatile.Path(lines[i]) == path <==> Names(rows[i], path) {
      LinePath(root, rows[i]);
    }
    if Listed(rows, path) {
      var i :| 0 <= i < |rows| && Names(rows[i], path);
      assert Volatile.Path(lines[i]) == path;
    }
  }

  lemma AllListed(observed: seq<DeltaRecord>, root: ByteString, rows: seq<Entry>)
    requires forall i | 0 <= i < |rows| :: EntryForm(rows[i])
    ensures (forall k | 0 <= k < |observed| :: HasPath(EntryLines(root, rows), RulesFor(observed)[k].path))
      <==> forall j | 0 <= j < |observed| :: Listed(rows, observed[j].path)
  {
    hide EntryForm, EntryLines, HasPath, Listed, Sort, BehaviorOf;
    var sorted, rules := Sort(observed, PathText()), RulesFor(observed);
    if forall k | 0 <= k < |observed| :: HasPath(EntryLines(root, rows), rules[k].path) {
      forall j | 0 <= j < |observed| ensures Listed(rows, observed[j].path) {
        var i := MemberSorted(observed, j);
        HasPathIs(root, rows, rules[i].path);
      }
    }
    if forall j | 0 <= j < |observed| :: Listed(rows, observed[j].path) {
      forall k | 0 <= k < |observed| ensures HasPath(EntryLines(root, rows), rules[k].path) {
        SortedMember(observed, k);
        HasPathIs(root, rows, rules[k].path);
      }
    }
  }

  lemma PairsAre(observed: seq<DeltaRecord>, root: ByteString, a: seq<Entry>, b: seq<Entry>, proof: PrefixProof)
    requires Indexable(observed)
    requires (forall i | 0 <= i < |a| :: EntryForm(a[i])) && forall i | 0 <= i < |b| :: EntryForm(b[i])
    ensures PairsAllowed(RulesFor(observed), proof, EntryLines(root, a), EntryLines(root, b)) <==>
      |a| == |b| && forall i | 0 <= i < |a| :: Explained(observed, root, a[i], b[i], proof)
  {
    hide EntryForm, EntryLine, PairAllowed, Explained, RulesFor, Indexable;
    if |a| == |b| {
      forall i | 0 <= i < |a|
        ensures PairAllowed(RulesFor(observed), proof, EntryLines(root, a)[i], EntryLines(root, b)[i])
          <==> Explained(observed, root, a[i], b[i], proof)
      {
        PairIs(observed, root, a[i], b[i], proof);
      }
    }
  }

  /** The row part of the check, in terms of records and states. */
  lemma RowsAre(observed: seq<DeltaRecord>, root: ByteString, a: seq<Entry>, b: seq<Entry>, proof: PrefixProof)
    requires Indexable(observed)
    requires (forall i | 0 <= i < |a| :: EntryForm(a[i])) && forall i | 0 <= i < |b| :: EntryForm(b[i])
    ensures RowsAllowed(RulesFor(observed), proof, EntryLines(root, a), EntryLines(root, b)) <==>
      && |a| == |b| && (forall i | 0 <= i < |a| :: Explained(observed, root, a[i], b[i], proof))
      && forall j | 0 <= j < |observed| :: Listed(a, observed[j].path)
  {
    hide EntryForm, EntryLines, PairsAllowed, Explained, HasPath, Listed, RulesFor, Indexable;
    PairsAre(observed, root, a, b, proof);
    AllListed(observed, root, a);
  }

  lemma QuietReads(sha: string -> string, r: Result)
    requires ResultForm(r) && DigestForm(sha) && |r.root| <= MAX_RELATIVE_BYTES && ShortPin(r.pin)
    ensures RowsIn(IssueRow, TextOf(sha, r)) == Some([]) <==> r.issues == []
    ensures RowsIn(EntryRow, TextOf(sha, r)) == Some(EntryLines(r.root, r.rows))
    ensures r.issues == [] ==> Bindable(TextOf(sha, r)) && RootOf(TextOf(sha, r)) == RootFields(r.root, r.rootStat)
    ensures r.issues == [] ==> RuntimeOf(TextOf(sha, r)) == RuntimeFields(r.pin, r.runtimeSha, r.identitySha)
  {
    EntryStream(sha, r);
    IssueStream(sha, r);
    hide TextOf, RowsIn, EntryForm, IssueForm, Covered, Ascending, DistinctPaths, ShortPath, EntryLines, Bindable,
      RootOf, RuntimeOf, RootFields, RuntimeFields, PinForm;
    if r.issues == [] {
      assert Readable(r);
      RootAndRuntime(sha, r);
    }
  }

  /** The whole admission of two texts the helper printed, as a statement about what was observed and what was walked. */
  lemma AdmissibleIff(sha: string -> string, observed: seq<DeltaRecord>, r1: Result, r2: Result, proof: PrefixProof)
    requires Paired(sha, r1, r2) && Indexable(observed)
    ensures Admissible(RulesFor(observed), proof, TextOf(sha, r1), TextOf(sha, r2)) <==>
      Settled(observed, r1, r2, proof)
  {
    QuietReads(sha, r1);
    QuietReads(sha, r2);
    RowsAre(observed, r1.root, r1.rows, r2.rows, proof);
    if r1.issues == [] && r2.issues == [] { CapturesAre(sha, r1, r2); }
    hide ResultForm, TextOf, RowsIn, EntryLines, SameCapture, RowsAllowed, Explained, Listed, RulesFor, Indexable,
      DigestForm;
  }

  lemma CapturesAre(sha: string -> string, r1: Result, r2: Result)
    requires Paired(sha, r1, r2) && r1.issues == [] && r2.issues == []
    ensures SameCapture(TextOf(sha, r1), TextOf(sha, r2)) <==>
      r1.rootStat.dev == r2.rootStat.dev && r1.rootStat.ino == r2.rootStat.ino
  {
    hide ResultForm, TextOf, RowsIn, EntryLines, Bindable, RootOf, RuntimeOf, Hex, Decimal, SignedDecimal, Octal,
      DigestForm, PinForm;
    QuietReads(sha, r1);
    QuietReads(sha, r2);
    DecimalInjective(r1.rootStat.dev, r2.rootStat.dev);
    DecimalInjective(r1.rootStat.ino, r2.rootStat.ino);
    assert RootOf(TextOf(sha, r1))[1] == RootOf(TextOf(sha, r2))[1];
  }

  // ----- What an admitted change was -----

  /** Between the walks the file only grew: the bytes the first walk read and hashed still begin it, or they and the bytes
      now in their place are a collision of the digest. */
  ghost predicate OnlyAppended(w: World, look: Look, a: Entry) {
    exists t: nat :: w.read(t).Some? && Began(w.sha, w.read(t).value, look, a)
  }

  ghost predicate Began(sha: string -> string, before: string, look: Look, a: Entry) {
    && |before| == a.stat.size <= |look.file| && a.hash == Some(sha(before))
    && (before <= look.file || Collision(sha, before, look.file[..|before|]))
  }

  /** A changed object differs in ctime alone, or is a log that was only appended to. */
  ghost predicate Harmless(w: World, root: ByteString, a: Entry, b: Entry, looks: (Fields, Fields) -> Look)
    requires EntryForm(a) && EntryForm(b)
  {
    || WithoutCtime(StateOf(a)) == WithoutCtime(StateOf(b))
    || (SameIdentity(StateOf(a), StateOf(b)) && b.stat.size > a.stat.size && EndsWith(Relative(a.path), LOG_SUFFIX)
        && OnlyAppended(w, looks(EntryFields(root, a), EntryFields(root, b)), a))
  }

  lemma HashShown(root: ByteString, a: Entry)
    requires EntryForm(a)
    ensures EntryFields(root, a)[14] == OrDash(a.hash) && Matches(EntryFields(root, a)[4], a.stat.size)
      && StateOf(a).size == a.stat.size
  {
    NumbersShown(root, a);
    hide Decimal, SignedDecimal, Hex, Octal, KindName;
  }

  lemma DashNoDigest()
    ensures !HexDigest("-")
  {
  }

  lemma ProofAppends(w: World, root: ByteString, a: Entry, b: Entry, looks: (Fields, Fields) -> Look)
    requires WorldForm(w) && EntryForm(a) && EntryForm(b) && ReadWhole(w, a.hash, a.stat.size)
    requires Proof(w.sha, looks)(EntryFields(root, a), EntryFields(root, b))
    ensures OnlyAppended(w, looks(EntryFields(root, a), EntryFields(root, b)), a)
  {
    var f, g := EntryFields(root, a), EntryFields(root, b);
    var look := looks(f, g);
    HashShown(root, a);
    DashNoDigest();
    hide EntryFields, EntryForm, SameFile, Reaches, CanonicalDecimal, HexDigest;
    assert HexDigest(w.sha(look.file[..a.stat.size]));
    var t: nat :| w.read(t).Some? && |w.read(t).value| == a.stat.size && a.hash.value == w.sha(w.read(t).value);
    AppendOnly(look, w.sha, f, g, w.read(t).value);
    assert Began(w.sha, w.read(t).value, look, a);
  }

  /** Every change of an admitted pair of walks is harmless. */
  lemma AdmittedHarmless(w: World, observed: seq<DeltaRecord>, r1: Result, r2: Result, looks: (Fields, Fields) -> Look,
    i: nat)
    requires WorldForm(w) && ResultForm(r1) && ResultForm(r2) && AllRead(w, r1.rows)
      && Settled(observed, r1, r2, Proof(w.sha, looks))
    requires i < |r1.rows| && StateOf(r1.rows[i]) != StateOf(r2.rows[i])
    ensures r1.rows[i].path == r2.rows[i].path && Harmless(w, r1.root, r1.rows[i], r2.rows[i], looks)
  {
    var a, b := r1.rows[i], r2.rows[i];
    assert EntryForm(a) && EntryForm(b) && Explained(observed, r1.root, a, b, Proof(w.sha, looks))
      && ReadWhole(w, a.hash, a.stat.size);
    HashShown(r1.root, a);
    HashShown(r1.root, b);
    hide ResultForm, EntryFields, EntryForm, StateOf, ReadWhole, WorldForm, Proof, BehaviorOf, OnlyAppended,
      NonExecutable, AllRead, Settled;
    var j :| 0 <= j < |observed| && observed[j].path == PathHex(a.path)
      && LetsChange(observed[j], r1.root, a, b, Proof(w.sha, looks));
    if BehaviorOf(observed[j]) == Some(LogGrowth) { ProofAppends(w, r1.root, a, b, looks); }
  }

  /** The same paths, and no change but harmless ones. */
  ghost predicate AllHarmless(w: World, r1: Result, r2: Result, looks: (Fields, Fields) -> Look)
    requires ResultForm(r1) && ResultForm(r2) {
    |r1.rows| == |r2.rows| && forall i | 0 <= i < |r1.rows| :: Kept(w, r1.root, r1.rows[i], r2.rows[i], looks)
  }

  ghost predicate Kept(w: World, root: ByteString, a: Entry, b: Entry, looks: (Fields, Fields) -> Look)
    requires EntryForm(a) && EntryForm(b)
  {
    a.path == b.path && (StateOf(a) == StateOf(b) || Harmless(w, root, a, b, looks))
  }

  lemma NothingElse(w: World, observed: seq<DeltaRecord>, r1: Result, r2: Result, looks: (Fields, Fields) -> Look)
    requires WorldForm(w) && ResultForm(r1) && ResultForm(r2) && Hashed(w, r1)
      && Settled(observed, r1, r2, Proof(w.sha, looks))
    ensures AllHarmless(w, r1, r2, looks)
  {
    hide Harmless, WorldForm, AllRead, StateOf, EntryForm, Listed, Proof;
    forall i | 0 <= i < |r1.rows| ensures Kept(w, r1.root, r1.rows[i], r2.rows[i], looks) {
      assert Explained(observed, r1.root, r1.rows[i], r2.rows[i], Proof(w.sha, looks));
      if StateOf(r1.rows[i]) != StateOf(r2.rows[i]) { AdmittedHarmless(w, observed, r1, r2, looks, i); }
    }
  }

  // ----- The run -----

  /** The token exists and the helper reads it back. */
  ghost predicate Grantable(left: seq<DeltaRecord>, right: seq<DeltaRecord>, roles: map<string, Role>, high: bool) {
    Justified(left, right, roles, high) && |Token(RulesFor(left))| <= TOKEN_CAP && !(|roles| == 64 && high)
  }

  lemma AdmittedIff(sha: string -> string, left: seq<DeltaRecord>, right: seq<DeltaRecord>, roles: map<string, Role>,
    high: bool,
                    r1: Result, r2: Result, proof: PrefixProof)
    requires Paired(sha, r1, r2) && Justified(left, right, roles, high) && |Token(RulesFor(left))| <= TOKEN_CAP
    ensures ParseToken(Token(RulesFor(left))) == if |roles| == 64 && high then None else Some(RulesFor(left))
    ensures Admissible(RulesFor(left), proof, TextOf(sha, r1), TextOf(sha, r2)) <==> Settled(left, r1, r2, proof)
    ensures RowsIn(EntryRow, TextOf(sha, r1)) == Some(EntryLines(r1.root, r1.rows))
    ensures RowsIn(EntryRow, TextOf(sha, r2)) == Some(EntryLines(r2.root, r2.rows))
    ensures Settled(left, r1, r2, proof) ==> r1.complete && r2.complete
  {
    assert Indexable(left);
    hide Justified, Indexable, RulesFor, ParseToken, Token, Admissible, TextOf, RowsIn, EntryLines, DigestForm,
      Explained, Listed, EntryForm, IssueForm, Covered, Ascending, DistinctPaths;
    DerivedTokenRead(left, right, roles, high);
    AdmissibleIff(sha, left, r1, r2, proof);
    QuietReads(sha, r1);
    QuietReads(sha, r2);
  }

  ghost predicate Invoked(run: Run, world1: World, world2: World, pin: Pin, root: ByteString) {
    && WorldForm(world1) && WorldForm(world2) && world1.sha == run.sha && world2.sha == run.sha
    && PinForm(pin) && ShortPin(pin) && ValidRoot(root) && HexDigest(run.helperSha)
  }

  /** Every directory was listed completely. */
  ghost predicate Whole(world: World, r: Result) { AllExpanded(world, r.rows, 0) }

  /** Every digest was taken of bytes the walk read. */
  ghost predicate Hashed(world: World, r: Result) { AllRead(world, r.rows) }

  /** The two walks of the helper; false stands for die. */
  method TwoWalks(run: Run, world1: World, world2: World, pin: Pin, root: ByteString, seconds: nat)
    returns (walked: bool, text1: seq<string>, text2: seq<string>, r1: Result, r2: Result)
    requires Invoked(run, world1, world2, pin, root)
    ensures walked ==>
      Paired(run.sha, r1, r2) && r1.root == root && text1 == TextOf(run.sha, r1) && text2 == TextOf(run.sha, r2)
    ensures walked && r1.complete ==> Whole(world1, r1)
    ensures walked && r2.complete ==> Whole(world2, r2)
    ensures walked ==> Hashed(world1, r1)
  {
    hide Accepted, AllFromEpoch, AllExpanded, SnapshotLines, ResultForm, PinForm;
    text2 := [];
    walked, r1, text1 := TakeSnapshot(world1, pin, root, run.helperSha, run.identity, seconds);
    r2 := r1;
    if !walked { return; }
    walked, r2, text2 := TakeSnapshot(world2, pin, root, run.helperSha, run.identity, seconds);
    assert DigestForm(run.sha) by { assert DigestForm(world1.sha); }
  }

  /** The nonce, the second snapshot unchanged, and for each observed path whether it changed. */
  ghost function Printed(run: Run, observed: seq<DeltaRecord>, r1: Result, r2: Result): seq<string>
    requires ResultForm(r1) && ResultForm(r2)
  {
    VolatileLines(run.nonce, run.sha, Token(RulesFor(observed)), RulesFor(observed), TextOf(run.sha, r2),
      EntryLines(r1.root, r1.rows),
                  EntryLines(r2.root, r2.rows))
  }

  /** The walks settle, and the output is within its cap. */
  ghost predicate Cleared(run: Run, observed: seq<DeltaRecord>, r1: Result, r2: Result, proof: PrefixProof)
    requires ResultForm(r1) && ResultForm(r2)
  {
    Settled(observed, r1, r2, proof) && Size(Printed(run, observed, r1, r2)) <= MAX_OUTPUT_BYTES
  }

  /** derive and the volatile mode of main: a policy from two observations, then two walks of a tree that may change between
      and during them. Two finished walks are admitted exactly when the policy is granted and they settle under it; then
      both listed every directory completely, no path came or went, every change is of ctime alone or an append to a log, and
      the second snapshot is printed unchanged with one line for each observed path. */
  method Admit(run: Run, world1: World, world2: World, pin: Pin, root: ByteString, seconds: nat,
    looks: (Fields, Fields) -> Look,
               left: seq<DeltaRecord>, right: seq<DeltaRecord>, roles: map<string, Role>, high: bool)
    returns (walked: bool, admitted: bool, lines: seq<string>, r1: Result, r2: Result)
    requires Invoked(run, world1, world2, pin, root)
    ensures walked ==> Paired(run.sha, r1, r2) && r1.root == root && ResultForm(r1) && ResultForm(r2)
    ensures walked ==>
      (admitted <==> Grantable(left, right, roles, high) && Cleared(run, left, r1, r2, Proof(run.sha, looks)))
    ensures admitted ==> walked && lines == Printed(run, left, r1, r2)
    ensures admitted ==> Whole(world1, r1) && Whole(world2, r2)
    ensures admitted ==> AllHarmless(world1, r1, r2, looks)
  {
    hide WorldForm, PinForm, ShortPin, ValidRoot, HexDigest, Justified, RulesFor, Token, Admissible, Settled,
      VolatileLines, Size, Whole, TextOf, ParseToken, ResultForm, Hashed, AllHarmless, Proof, DigestForm, RowsIn,
      EntryLines;
    admitted, lines := false, [];
    var text1, text2;
    walked, text1, text2, r1, r2 := TwoWalks(run, world1, world2, pin, root, seconds);
    if !walked { return; }
    var token := DeriveToken(left, right, roles, high);
    if token.None? { return; }
    admitted, lines := EmitVolatile(run.nonce, run.sha, Proof(run.sha, looks), token.value, text1, text2);
    AdmittedIff(run.sha, left, right, roles, high, r1, r2, Proof(run.sha, looks));
    if admitted { NothingElse(world1, left, r1, r2, looks); }
  }
}
