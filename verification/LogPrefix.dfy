/** verify_log_prefix: the proof, through a fresh descriptor, that a log still begins with what was hashed before. */
module LogPrefix {
  import opened Text
  import opened Records
  import opened Inventory
  import opened RawPass
  import opened Volatile

  const IO_CHUNK: nat := 1048576

  /** What the operating system answers: the states of the root and of the file, the bytes behind the descriptor, and how
      many of them each read may take. */
  datatype Look = Look(rootBefore: Option<Stat>, held: Option<Stat>, file: string, takes: nat -> nat, after: Option<Stat>,
                       named: Option<Stat>, rootAfter: Option<Stat>)

  predicate Matches(text: string, n: nat) { CanonicalDecimal(text) && ParseDecimal(text) == n }

  predicate SignedMatches(text: string, n: int) { CanonicalSigned(text) && ParseSigned(text) == n }

  /** The opened file is the one of the second row. */
  predicate SameFile(s: Stat, g: Fields) requires |g| == 16 {
    && s.kind == REGULAR && Matches(g[10], s.dev) && Matches(g[11], s.ino) && ModeText(g[5])
    && ParseOctal(g[5]) == s.mode
    && !Executable(s.mode) && Matches(g[6], s.uid) && Matches(g[7], s.gid) && Matches(g[12], s.nlink)
    && Matches(g[4], s.size)
    && SignedMatches(g[8], s.mtime) && SignedMatches(g[9], s.ctime)
  }

  /** What one read returns of the bytes still wanted. */
  function Taken(file: string, most: nat, total: nat, size: nat): nat
    requires total <= size && total <= |file|
  {
    var want := if size - total > IO_CHUNK then IO_CHUNK else size - total;
    var got := if most > want then want else most;
    if got > |file| - total then |file| - total else got
  }

  /** The reads reach the size before one of them fails. */
  predicate Reaches(file: string, takes: nat -> nat, size: nat, total: nat, n: nat)
    requires total <= size && total <= |file|
    decreases size - total
  {
    total == size || (Taken(file, takes(n), total, size) > 0
                      && Reaches(file, takes, size, total + Taken(file, takes(n), total, size), n + 1))
  }

  /** What the check establishes. */
  predicate PrefixHolds(look: Look, sha: string -> string, f: Fields, g: Fields) requires |f| == 16 && |g| == 16 {
    && look.rootBefore.Some? && look.held.Some? && SameFile(look.held.value, g) && CanonicalDecimal(f[4])
    && var size := ParseDecimal(f[4]);
       && Reaches(look.file, look.takes, size, 0, 0) && size <= |look.file| && sha(look.file[..size]) == f[14]
       && look.after == look.held && look.named == look.after && look.rootAfter == look.rootBefore
  }

  lemma {:induction false} ReachesLong(file: string, takes: nat -> nat, size: nat, total: nat, n: nat)
    requires total <= size && total <= |file|
    ensures Reaches(file, takes, size, total, n) ==> size <= |file|
    ensures (forall k: nat :: takes(k) > 0) && size <= |file| ==> Reaches(file, takes, size, total, n)
    decreases size - total
  {
    var taken := Taken(file, takes(n), total, size);
    if total < size && taken > 0 { ReachesLong(file, takes, size, total + taken, n + 1); }
  }

  /** The hashing loop: none stands for die. */
  method HashPrefix(file: string, takes: nat -> nat, sha: string -> string, size: nat) returns (hash: Option<string>)
    ensures hash.Some? <==> Reaches(file, takes, size, 0, 0)
    ensures hash.Some? ==> size <= |file| && hash.value == sha(file[..size])
  {
    var data, total, n := "", 0, 0;
    while total < size
      invariant total <= size && total <= |file| && data == file[..total]
      invariant Reaches(file, takes, size, total, n) <==> Reaches(file, takes, size, 0, 0)
    {
      var got := Taken(file, takes(n), total, size);
      if got == 0 { return None; }
      assert file[..total + got] == file[..total] + file[total..total + got];
      data, total, n := data + file[total..total + got], total + got, n + 1;
    }
    hash := Some(sha(data));
  }

  /** verify_log_prefix; not alive stands for die. */
  method VerifyLogPrefix(look: Look, sha: string -> string, f: Fields, g: Fields) returns (alive: bool)
    requires |f| == 16 && |g| == 16
    ensures alive <==> PrefixHolds(look, sha, f, g)
  {
    hide SameFile, Reaches;
    if look.rootBefore.None? || look.held.None? || !SameFile(look.held.value, g) || !CanonicalDecimal(f[4]) {
      return false;
    }
    var hash := HashPrefix(look.file, look.takes, sha, ParseDecimal(f[4]));
    if hash.None? || hash.value != f[14] { return false; }
    alive := look.after == look.held && look.named == look.after && look.rootAfter == look.rootBefore;
  }

  /** Each growth the volatile mode meets, answered by its own look at the tree. */
  function Proof(sha: string -> string, looks: (Fields, Fields) -> Look): PrefixProof {
    (f: Fields, g: Fields) => |f| == 16 && |g| == 16 && PrefixHolds(looks(f, g), sha, f, g)
  }

  /** Two texts the digest confuses. */
  ghost predicate Collision(sha: string -> string, x: string, y: string) { x != y && sha(x) == sha(y) }

  /** A verified log was only appended to: the file still begins with the bytes whose digest the first row shows, or these
      and the bytes now in their place are a collision of the digest. */
  lemma AppendOnly(look: Look, sha: string -> string, f: Fields, g: Fields, before: string)
    requires |f| == 16 && |g| == 16 && PrefixHolds(look, sha, f, g)
    requires f[14] == sha(before) && Matches(f[4], |before|)
    ensures |before| <= |look.file| && (before <= look.file || Collision(sha, before, look.file[..|before|]))
  {
    hide Reaches, SameFile;
    var now := look.file[..|before|];
    if now == before { assert before <= look.file; }
  }
}
