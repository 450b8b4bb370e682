/** Reopen reservations: one file for one predecessor, committing to everything but its own reference, so accepted
    packages of one source never fork. */
module Reopen {
  import opened Text
  import opened Records
  import opened Json
  import opened Loads

  // ----- Documents -----

  datatype Ref = Ref(path: string, sha: string)

  /** The references a reservation makes to what it supersedes; `others` are the reviews, identities and dispositions,
      whose checks are the parameter `evidence`. */
  datatype Predecessor = Predecessor(reservation: Ref, package: Ref, others: seq<Ref>)

  datatype Reservation = Reservation(schema: nat, tool: string, state: string, domain: string, root: string, sourceOperation: string,
                                     sourcePackage: string, operation: string, created: int, expires: int,
                                       authoritySha: string,
                                     replayAllowed: bool, authority: bool, predecessor: Option<Predecessor>)

  /** What the lineage checks read in a package. */
  datatype Header = Header(phase: string, domain: string, root: string, operation: string, created: int, expires: int)

  /** A reopen package: its JSON value without continuation.reopen_reservation, and that reference. */
  datatype Package = Package(body: Value, reservation: Ref)

  ghost predicate PackageForm(p: Package) { Writable(p.body) && UniqueKeys(p.body) }

  /** The source a reopen continues: the consumed remediation, its marker directory, its site. */
  datatype Source = Source(marker: string, domain: string, root: string, operation: string, package: string)

  /** One state of the filesystem, and how documents are read from bytes. */
  datatype World = World(files: map<string, string>, sha: string -> string, reservationOf: string -> Option<Reservation>,
                         packageOf: string -> Option<Package>, header: Value -> Header,
                           evidence: (Reservation, Package) -> bool)

  ghost predicate WorldForm(w: World) {
    && (forall s: string :: HexDigest(w.sha(s)))
    && (forall s: string :: w.packageOf(s).Some? ==> PackageForm(w.packageOf(s).value))
    && forall v: Value :: w.header(Canon(v)) == w.header(v)
  }

  /** What reopen_authority_digest hashes. */
  ghost function CommittedText(p: Package): string requires PackageForm(p) {
    CanonIsCanonical(p.body);
    Dump(Canon(p.body))
  }

  /** Among these texts, which include every file and what every stored package commits to, no two have one digest.
      Nothing is asked of any other text: no digest of 64 characters is injective on all of them. */
  ghost predicate CollisionFree(w: World, texts: set<string>) requires WorldForm(w) {
    && w.files.Values <= texts
    && (forall raw | raw in w.files.Values && w.packageOf(raw).Some? :: CommittedText(w.packageOf(raw).value) in texts)
    && forall x, y | x in texts && y in texts :: w.sha(x) == w.sha(y) ==> x == y
  }

  const RESERVATION_CAP: nat := 65536
  const RESERVATION_TOOL: string := "wapp-security-emergency-reopen-reservation"
  const RESERVED: string := "RESERVED_FOR_DISTINCT_REOPEN"

  // ----- The namespace -----

  function BasePath(marker: string): string { marker + "/reopen-reservation.json" }

  function SuccessorPath(marker: string, sha: string): string { marker + "/reopen-successors/" + sha + ".json" }

  predicate InNamespace(marker: string, path: string) {
    path == BasePath(marker) || exists k | 0 <= k <= |path| :: SuccessorAt(marker, path, k)
  }

  predicate SuccessorAt(marker: string, path: string, k: nat) {
    k + 64 <= |path| && HexDigest(path[k..k + 64]) && path == SuccessorPath(marker, path[k..k + 64])
  }

  /** trusted_reopen_reservation, apart from ownership and link checks. */
  function Trusted(w: World, marker: string, ref: Ref): Option<Reservation> {
    if !InNamespace(marker, ref.path) || ref.path !in w.files || !HexDigest(ref.sha) then None
    else
      var raw := w.files[ref.path];
      if |raw| > RESERVATION_CAP || w.sha(raw) != ref.sha then None else w.reservationOf(raw)
  }

  function Loaded(w: World, ref: Ref): Option<Package> {
    if ref.path !in w.files || w.sha(w.files[ref.path]) != ref.sha then None else w.packageOf(w.files[ref.path])
  }

  /** verify_unconsumed_predecessor_reservation_shape: the file name follows from the predecessor. */
  predicate Shaped(marker: string, r: Reservation, path: string) {
    if r.schema == 1 then r.predecessor.None? && path == BasePath(marker)
    else
      && (r.schema == 2 || r.schema == 3) && r.predecessor.Some? && HexDigest(r.predecessor.value.reservation.sha)
      && path == SuccessorPath(marker, r.predecessor.value.reservation.sha)
  }

  /** reopen_authority_digest. */
  ghost function AuthorityDigest(w: World, p: Package): string requires PackageForm(p) {
    w.sha(CommittedText(p))
  }

  /** A reservation names exactly this package and this source. */
  ghost predicate Reserves(w: World, source: Source, r: Reservation, p: Package) requires PackageForm(p) {
    var h := w.header(p.body);
    && r.tool == RESERVATION_TOOL && r.state == RESERVED && r.domain == source.domain == h.domain
    && r.root == source.root == h.root
    && r.sourceOperation == source.operation && r.sourcePackage == source.package && r.operation == h.operation
    && r.created == h.created && r.expires == h.expires && r.authoritySha == AuthorityDigest(w, p)
    && !r.replayAllowed && !r.authority && h.phase == "REOPEN"
  }

  /** A package and its reservation belong together: what is checked of a predecessor, and of the package itself. */
  ghost predicate Bound(w: World, source: Source, p: Package) {
    && PackageForm(p)
    && var r := Trusted(w, source.marker, p.reservation);
       r.Some? && Shaped(source.marker, r.value, p.reservation.path) && Reserves(w, source, r.value, p)
  }

  /** The predecessor part of verify_reopen_source_lineage. */
  ghost predicate Supersedes(w: World, source: Source, r: Reservation, p: Package) requires PackageForm(p) {
    r.predecessor.Some? ==>
      var ref := r.predecessor.value;
      && Loaded(w, ref.package).Some?
      && var before := Loaded(w, ref.package).value;
         && Bound(w, source, before) && before.reservation == ref.reservation
         && w.header(before.body).operation != w.header(p.body).operation
         && w.header(before.body).created <= w.header(p.body).created
         && (r.schema == 3 ==> w.header(before.body).expires <= w.header(p.body).created)
         && w.evidence(r, before)
  }

  /** The reservation part of verify_reopen_source_lineage: what an accepted reopen package passes. */
  ghost predicate Accepted(w: World, source: Source, p: Package) {
    Bound(w, source, p) && Supersedes(w, source, Trusted(w, source.marker, p.reservation).value, p)
  }

  // ----- Commitment -----

  /** Two values with one canonical text are one value. */
  lemma DumpInjective(v: Value, u: Value)
    requires Writable(v) && Writable(u) && Dump(v) == Dump(u)
    ensures v == u
  {
    AlwaysFits(v);
    AlwaysFits(u);
    assert Dump(v) + "" == Dump(v) && Dump(u) + "" == Dump(u);
    ParseDump(v, "", None);
    ParseDump(u, "", None);
  }

  /** The reservation commits to the whole package except its own reference. */
  lemma CommitmentBinds(w: World, texts: set<string>, p: Package, q: Package)
    requires WorldForm(w) && CollisionFree(w, texts) && PackageForm(p) && PackageForm(q)
    requires CommittedText(p) in texts && CommittedText(q) in texts && AuthorityDigest(w, p) == AuthorityDigest(w, q)
    ensures Canon(p.body) == Canon(q.body)
  {
    CanonIsCanonical(p.body);
    CanonIsCanonical(q.body);
    hide Canon, Dump, Writable, UniqueKeys;
    DumpInjective(Canon(p.body), Canon(q.body));
  }

  /** One package: equal as JSON objects, with one reservation reference. */
  ghost predicate SamePackage(p: Package, q: Package) {
    Canon(p.body) == Canon(q.body) && p.reservation == q.reservation
  }

  ghost function PredecessorSha(w: World, source: Source, p: Package): Option<string> requires Bound(w, source, p) {
    var r := Trusted(w, source.marker, p.reservation).value;
    if r.predecessor.None? then None else Some(r.predecessor.value.reservation.sha)
  }

  lemma PathsApart(marker: string, sha: string)
    requires |sha| == 64
    ensures SuccessorPath(marker, sha) != BasePath(marker)
  {
    assert |SuccessorPath(marker, sha)| == |marker| + 19 + 64 + 5;
    assert |BasePath(marker)| == |marker| + 24;
  }

  lemma SuccessorInjective(marker: string, a: string, b: string)
    requires |a| == 64 && |b| == 64 && SuccessorPath(marker, a) == SuccessorPath(marker, b)
    ensures a == b
  {
    var p, n := SuccessorPath(marker, a), |marker| + 19;
    assert p[n..n + 64] == a;
    assert SuccessorPath(marker, b)[n..n + 64] == b;
  }

  /** The place of a reservation is its predecessor, in both directions. */
  lemma PlaceIsPredecessor(w: World, source: Source, p: Package, q: Package)
    requires Bound(w, source, p) && Bound(w, source, q)
    ensures p.reservation.path == q.reservation.path <==> PredecessorSha(w, source, p) == PredecessorSha(w, source, q)
  {
    var r, s := Trusted(w, source.marker, p.reservation).value, Trusted(w, source.marker, q.reservation).value;
    hide Trusted, Reserves, BasePath, SuccessorPath, HexText;
    if r.predecessor.Some? { PathsApart(source.marker, r.predecessor.value.reservation.sha); }
    if s.predecessor.Some? { PathsApart(source.marker, s.predecessor.value.reservation.sha); }
    if r.predecessor.Some? && s.predecessor.Some? && p.reservation.path == q.reservation.path {
      SuccessorInjective(source.marker, r.predecessor.value.reservation.sha, s.predecessor.value.reservation.sha);
    }
  }

  /** In one filesystem state, two packages bound to one source that supersede the same reservation, or none, are the
      same package. */
  lemma NoFork(w: World, texts: set<string>, source: Source, p: Package, q: Package)
    requires WorldForm(w) && CollisionFree(w, texts) && Bound(w, source, p) && Bound(w, source, q)
    requires CommittedText(p) in texts && CommittedText(q) in texts
    requires PredecessorSha(w, source, p) == PredecessorSha(w, source, q)
    ensures SamePackage(p, q)
  {
    PlaceIsPredecessor(w, source, p, q);
    hide Shaped, InNamespace, Canon, AuthorityDigest, PackageForm, CollisionFree, CommittedText;
    CommitmentBinds(w, texts, p, q);
  }

  // ----- Lineages -----

  /** Packages of one source, each superseding the one before, back to one that supersedes nothing. */
  ghost predicate Lineage(w: World, source: Source, chain: seq<Package>) {
    && |chain| > 0 && (forall i | 0 <= i < |chain| :: Bound(w, source, chain[i]))
    && PredecessorSha(w, source, chain[0]).None?
    && forall i | 0 < i < |chain| :: PredecessorSha(w, source, chain[i]) == Some(chain[i - 1].reservation.sha)
  }

  /** Of two lineages of one source, one continues the other: whatever order packages were reserved in, their history
      is a single line. */
  lemma {:induction false} OneLine(w: World, texts: set<string>, source: Source, a: seq<Package>, b: seq<Package>,
    i: nat)
    requires WorldForm(w) && CollisionFree(w, texts) && Lineage(w, source, a) && Lineage(w, source, b) && i < |a|
      && i < |b|
    requires forall p | p in a || p in b :: PackageForm(p) && CommittedText(p) in texts
    ensures SamePackage(a[i], b[i])
  {
    hide Bound, PredecessorSha, SamePackage, CollisionFree, CommittedText;
    if i > 0 {
      OneLine(w, texts, source, a, b, i - 1);
      SameReference(a[i - 1], b[i - 1]);
    }
    assert a[i] in a && b[i] in b;
    NoFork(w, texts, source, a[i], b[i]);
  }

  lemma SameReference(p: Package, q: Package)
    requires SamePackage(p, q)
    ensures p.reservation == q.reservation
  {
  }

  /** An accepted package extends the lineage of what it supersedes, under another operation and no earlier. */
  lemma AcceptedExtends(w: World, texts: set<string>, source: Source, chain: seq<Package>, p: Package)
    returns (longer: seq<Package>)
    requires WorldForm(w) && CollisionFree(w, texts) && Accepted(w, source, p) && Lineage(w, source, chain)
    requires CommittedText(chain[|chain| - 1]) in texts
    requires PredecessorSha(w, source, p) == Some(chain[|chain| - 1].reservation.sha)
    ensures longer == chain + [p] && Lineage(w, source, longer)
    ensures w.header(chain[|chain| - 1].body).operation != w.header(p.body).operation
    ensures w.header(chain[|chain| - 1].body).created <= w.header(p.body).created
  {
    longer := chain + [p];
    var last := chain[|chain| - 1];
    var r := Trusted(w, source.marker, p.reservation).value;
    var before := Loaded(w, r.predecessor.value.package).value;
    assert Bound(w, source, before) && before.reservation.sha == last.reservation.sha;
    SameContent(w, texts, source, before, last);
    hide Bound, Trusted, PredecessorSha, Supersedes;
    forall i | 0 < i < |longer| ensures PredecessorSha(w, source, longer[i]) == Some(longer[i - 1].reservation.sha) {
      if i < |chain| { assert longer[i] == chain[i] && longer[i - 1] == chain[i - 1]; }
    }
  }

  /** Bound packages whose reservations have one digest are one package. */
  lemma SameContent(w: World, texts: set<string>, source: Source, p: Package, q: Package)
    requires WorldForm(w) && CollisionFree(w, texts) && Bound(w, source, p) && Bound(w, source, q)
    requires CommittedText(p) in texts && CommittedText(q) in texts && p.reservation.sha == q.reservation.sha
    ensures SamePackage(p, q) && w.header(p.body) == w.header(q.body)
  {
    hide InNamespace, Canon, AuthorityDigest, PackageForm, HexText, CommittedText;
    CommitmentBinds(w, texts, p, q);
    assert w.header(Canon(p.body)) == w.header(Canon(q.body));
  }

  // ----- An instance: a base package and its successor -----

  function Repeat(c: char): string { seq(64, _ => c) }

  lemma RepeatHex(c: char)
    requires HexDigit(c)
    ensures HexDigest(Repeat(c))
  {
  }

  /** A digest that keeps five texts apart and gives every other text one value. */
  function ToyDigest(s: string): string {
    Repeat(if s == "R0" then '0' else if s == "R1" then '1' else if s == "P0" then '2' else if s == "\"a\"" then '3'
           else if s == "\"b\"" then '4' else '5')
  }

  const TOY_SOURCE: Source := Source("/m", "d", "/r", "s", "k")

  function ToyHeader(v: Value): Header { Header("REOPEN", "d", "/r", if v.Str? then v.text else "", 0, 0) }

  function ToyReservation(s: string): Option<Reservation> {
    if s == "R0" then
      Some(Reservation(1, RESERVATION_TOOL, RESERVED, "d", "/r", "s", "k", "a", 0, 0, Repeat('3'), false, false, None))
    else if s == "R1" then
      Some(Reservation(2, RESERVATION_TOOL, RESERVED, "d", "/r", "s", "k", "b", 0, 0, Repeat('4'), false, false,
                       Some(Predecessor(Ref(BasePath("/m"), Repeat('0')), Ref("/p", Repeat('2')), []))))
    else None
  }

  const TOY_BASE: Package := Package(Str("a"), Ref(BasePath("/m"), Repeat('0')))
  const TOY_NEXT: Package := Package(Str("b"), Ref(SuccessorPath("/m", Repeat('0')), Repeat('1')))

  const TOY_WORLD: World :=
    World(map[BasePath("/m") := "R0", SuccessorPath("/m", Repeat('0')) := "R1", "/p" := "P0"], s => ToyDigest(s),
          s => ToyReservation(s), s => if s == "P0" then Some(TOY_BASE) else None, v => ToyHeader(v), (_, _) => true)

  const TOY_TEXTS: set<string> := {"R0", "R1", "P0", "\"a\"", "\"b\""}

  lemma ToyWorldForm()
    ensures WorldForm(TOY_WORLD)
  {
    forall s: string ensures HexDigest(TOY_WORLD.sha(s)) { RepeatHex(ToyDigest(s)[0]); }
    forall v: Value ensures TOY_WORLD.header(Canon(v)) == TOY_WORLD.header(v) { CanonText(v); }
  }

  lemma CanonText(v: Value)
    ensures Canon(v).Str? <==> v.Str?
    ensures v.Str? ==> Canon(v) == v
  {
  }

  lemma ToyTexts()
    ensures PackageForm(TOY_BASE) && CommittedText(TOY_BASE) == "\"a\""
    ensures PackageForm(TOY_NEXT) && CommittedText(TOY_NEXT) == "\"b\""
  {
    assert Escape('a') == "a" && Escape('b') == "b";
    assert Escaped("a") == "a" && Escaped("b") == "b";
  }

  lemma ToyCollisionFree()
    ensures WorldForm(TOY_WORLD) && CollisionFree(TOY_WORLD, TOY_TEXTS)
  {
    ToyWorldForm();
    ToyTexts();
    hide WorldForm, CommittedText, PackageForm, BasePath, SuccessorPath;
    forall x, y | x in TOY_TEXTS && y in TOY_TEXTS && TOY_WORLD.sha(x) == TOY_WORLD.sha(y) ensures x == y {
      assert TOY_WORLD.sha(x)[0] == TOY_WORLD.sha(y)[0];
    }
  }

  lemma ToyTrusted()
    ensures Trusted(TOY_WORLD, "/m", TOY_BASE.reservation) == ToyReservation("R0")
    ensures Trusted(TOY_WORLD, "/m", TOY_NEXT.reservation) == ToyReservation("R1")
  {
    RepeatHex('0');
    RepeatHex('1');
    PathsApart("/m", Repeat('0'));
    var path := SuccessorPath("/m", Repeat('0'));
    assert path[21..85] == Repeat('0');
    assert SuccessorAt("/m", path, 21);
    assert BasePath("/m") != "/p" && path != "/p";
    hide Repeat, HexDigest, SuccessorPath, BasePath;
  }

  /** The premises of NoFork, OneLine and AcceptedExtends hold together: a base package, its accepted successor, and the
      lineage of the two. */
  lemma LineageExists()
    ensures WorldForm(TOY_WORLD) && CollisionFree(TOY_WORLD, TOY_TEXTS)
    ensures Accepted(TOY_WORLD, TOY_SOURCE, TOY_BASE) && Accepted(TOY_WORLD, TOY_SOURCE, TOY_NEXT)
    ensures CommittedText(TOY_BASE) in TOY_TEXTS && CommittedText(TOY_NEXT) in TOY_TEXTS
    ensures Lineage(TOY_WORLD, TOY_SOURCE, [TOY_BASE]) && Lineage(TOY_WORLD, TOY_SOURCE, [TOY_BASE, TOY_NEXT])
    ensures PredecessorSha(TOY_WORLD, TOY_SOURCE, TOY_NEXT) == Some(TOY_BASE.reservation.sha)
  {
    ToyCollisionFree();
    ToyTexts();
    ToyTrusted();
    ToyBound();
    hide WorldForm, CollisionFree, CommittedText, Bound, Trusted;
    assert Supersedes(TOY_WORLD, TOY_SOURCE, ToyReservation("R0").value, TOY_BASE);
    assert Supersedes(TOY_WORLD, TOY_SOURCE, ToyReservation("R1").value, TOY_NEXT) by {
      assert Loaded(TOY_WORLD, Ref("/p", Repeat('2'))) == Some(TOY_BASE);
    }
  }

  lemma ToyBound()
    ensures Bound(TOY_WORLD, TOY_SOURCE, TOY_BASE) && Bound(TOY_WORLD, TOY_SOURCE, TOY_NEXT)
  {
    ToyTexts();
    ToyTrusted();
    RepeatHex('0');
    hide Trusted, CommittedText, PackageForm, HexDigest, Repeat, BasePath, SuccessorPath;
  }
}
