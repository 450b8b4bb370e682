/** emit_volatile_inventory: two snapshots may differ only where a rule allows it, and only as it allows. */
module Volatile {
  import opened Text
  import opened Records
  import opened Sorting
  import opened Walk
  import opened Inventory
  import opened Drift
  import opened Diagnostic
  import opened Policy

  // ----- What a rule allows -----

  /** Any execute bit of an octal mode. */
  predicate Executable(m: nat) { m / 64 % 2 == 1 || m / 8 % 2 == 1 || m % 2 == 1 }

  predicate NonExecutable(text: string) { ModeText(text) && !Executable(ParseOctal(text)) }

  /** ctime_only. */
  predicate CtimeOnly(f: Fields, g: Fields) requires |f| == 16 && |g| == 16 {
    (forall i | 0 <= i < 16 && i != 9 :: f[i] == g[i]) && f[9] != g[9]
  }

  const LOG_SUFFIX: string := ".log"

  predicate LogPath(path: string) {
    HexText(path) && path != "" && |path| / 2 <= MAX_RELATIVE_BYTES && EndsWith(Unhex(path), LOG_SUFFIX)
  }

  /** monotonic_log_growth. */
  predicate MonotonicGrowth(f: Fields, g: Fields) requires |f| == 16 && |g| == 16 {
    && f[3] == g[3] && f[5] == g[5] && f[6] == g[6] && f[7] == g[7] && f[10] == g[10] && f[11] == g[11]
    && f[12] == g[12]
    && f[13] == g[13] && f[15] == g[15]
    && LogPath(f[1]) && f[3] == "REGULAR" && f[15] == "0" && g[15] == "0" && NonExecutable(f[5])
    && CanonicalDecimal(f[4]) && CanonicalDecimal(g[4]) && ParseDecimal(g[4]) > ParseDecimal(f[4])
    && CanonicalSigned(f[8]) && CanonicalSigned(g[8]) && ParseSigned(g[8]) >= ParseSigned(f[8])
    && CanonicalSigned(f[9]) && CanonicalSigned(g[9]) && ParseSigned(g[9]) >= ParseSigned(f[9])
  }

  /** The descriptor-bound proof that the old bytes are a prefix of the new file, as the operating system
      answers it. */
  type PrefixProof = (Fields, Fields) -> bool

  /** A changed row meets its rule. */
  predicate DriftAllowed(r: Rule, f: Fields, g: Fields, proof: PrefixProof) requires |f| == 16 && |g| == 16 {
    && (r.behavior == 'C' ==> CtimeOnly(f, g) && NonExecutable(f[5]) && NonExecutable(g[5]))
    && (r.behavior == 'L' ==> MonotonicGrowth(f, g) && f[15] == "0" && g[15] == "0" && proof(f, g))
    && (r.behavior == 'A' ==> MonotonicGrowth(f, g) && f[15] == "1" && g[15] == "1" && proof(f, g))
  }

  /** An unchanged row is still a legal target of its rule. */
  predicate StableAllowed(r: Rule, f: Fields) requires |f| == 16 {
    f[3] == "REGULAR" && NonExecutable(f[5]) && f[15] == (if r.behavior == 'A' then "1" else "0")
  }

  /** volatile_rule: the first rule of a path. */
  function RuleAt(rules: seq<Rule>, path: string): (k: nat)
    ensures k <= |rules| && (k < |rules| ==> rules[k].path == path) && forall i | 0 <= i < k :: rules[i].path != path
  {
    if |rules| == 0 || rules[0].path == path then 0 else 1 + RuleAt(rules[1..], path)
  }

  function Path(line: string): string { RowKey(EntryRow)(line) }

  /** Two rows at one place of both streams. */
  predicate PairAllowed(rules: seq<Rule>, proof: PrefixProof, a: string, b: string) {
    var f, g := Split(a, TAB), Split(b, TAB);
    && |f| == 16 && |g| == 16 && f[1] == g[1]
    && var k := RuleAt(rules, f[1]);
       if f != g then k < |rules| && DriftAllowed(rules[k], f, g, proof)
       else k < |rules| ==> StableAllowed(rules[k], f)
  }

  predicate PairsAllowed(rules: seq<Rule>, proof: PrefixProof, a: seq<string>, b: seq<string>) {
    |a| == |b| && forall i | 0 <= i < |a| :: PairAllowed(rules, proof, a[i], b[i])
  }

  predicate HasPath(a: seq<string>, path: string) { exists i | 0 <= i < |a| :: Path(a[i]) == path }

  /** What the helper demands of the two row streams. */
  predicate RowsAllowed(rules: seq<Rule>, proof: PrefixProof, a: seq<string>, b: seq<string>) {
    PairsAllowed(rules, proof, a, b) && forall k | 0 <= k < |rules| :: HasPath(a, rules[k].path)
  }

  /** Two passes of one root object by one runtime. */
  predicate SameCapture(first: seq<string>, second: seq<string>) {
    && Bindable(first) && Bindable(second)
    && RootOf(first)[1] == RootOf(second)[1] && RootOf(first)[3] == RootOf(second)[3]
    && RootOf(first)[4] == RootOf(second)[4]
    && RuntimeOf(first)[1] == RuntimeOf(second)[1] && RuntimeOf(first)[2] == RuntimeOf(second)[2]
    && RuntimeOf(first)[3] == RuntimeOf(second)[3] && RuntimeOf(first)[4] == RuntimeOf(second)[4]
  }

  /** Everything emit_volatile_inventory requires of two texts and a policy. */
  predicate Admissible(rules: seq<Rule>, proof: PrefixProof, first: seq<string>, second: seq<string>) {
    && SameCapture(first, second)
    && RowsIn(IssueRow, first) == Some([]) && RowsIn(IssueRow, second) == Some([])
    && RowsIn(EntryRow, first).Some? && RowsIn(EntryRow, second).Some?
    && RowsAllowed(rules, proof, RowsIn(EntryRow, first).value, RowsIn(EntryRow, second).value)
  }

  predicate Changed(a: seq<string>, b: seq<string>, path: string) {
    exists i | 0 <= i < |a| && i < |b| :: Path(a[i]) == path && a[i] != b[i]
  }

  // ----- What is printed -----

  function BehaviorName(c: char): string {
    if c == 'C' then "CTIME_ONLY" else if c == 'A' then "APPEND_PREFIX_VERIFIED_UPLOAD_LOG_GROWTH"
    else "APPEND_PREFIX_VERIFIED_LOG_GROWTH"
  }

  function PathLine(r: Rule, observed: bool): string {
    Join(["VOLATILE_RUNTIME_CANDIDATE_PATH", r.path, BehaviorName(r.behavior), if observed then "OBSERVED_DRIFT" else "OBSERVED_STABLE"], TAB)
  }

  function Trailer(sha: string -> string, token: string, rules: seq<Rule>, observed: seq<bool>): seq<string>
    requires |observed| == |rules|
  {
    [Join(["VOLATILE_RUNTIME_CANDIDATE", "BOUNDED_VOLATILE_RUNTIME_CANDIDATE_V1", sha(token), Decimal(|rules|), "VISIBLE",
           "UNVERIFIED_NON_AUTHORIZING"], TAB)]
    + seq(|rules|, k requires 0 <= k < |rules| => PathLine(rules[k], observed[k]))
  }

  // ----- The run -----

  /** Counts the issues a cursor finds; none stands for die. */
  method CountIssues(lines: seq<string>) returns (count: Option<nat>)
    ensures RowsIn(IssueRow, lines).None? ==> count.None?
    ensures count.Some? ==> RowsIn(IssueRow, lines).Some? && (count.value == 0 <==> RowsIn(IssueRow, lines) == Some([]))
    ensures RowsIn(IssueRow, lines).Some? ==> count.Some?
  {
    hide RowsIn, RowsFrom;
    var cursor := new Cursor(IssueRow, lines);
    ghost var whole := cursor.Rest();
    var n, done := 0, false;
    while !done
      invariant cursor.Valid()
      invariant whole.Some? <==> cursor.Rest().Some?
      invariant n == 0 ==> cursor.Rest() == whole
      invariant n > 0 && whole.Some? ==> whole.value != []
      invariant done ==> cursor.Rest() == Some([])
      decreases |cursor.lines| - cursor.position, !done
    {
      var alive, row := cursor.Next();
      if !alive { return None; }
      if row.None? { done := true; } else { n := n + 1; }
    }
    count := Some(n);
  }

  /** The flags say which rules have a row, and which of these rows changed. */
  ghost predicate Flags(rules: seq<Rule>, a: seq<string>, b: seq<string>, present: seq<bool>, observed: seq<bool>) {
    && |present| == |observed| == |rules| && |a| == |b|
    && (forall k | 0 <= k < |rules| :: present[k] <==> HasPath(a, rules[k].path))
    && (Distinct(a) ==> forall k | 0 <= k < |rules| :: observed[k] <==> Changed(a, b, rules[k].path))
  }

  ghost predicate Distinct(a: seq<string>) { forall i, j | 0 <= i < j < |a| :: Path(a[i]) != Path(a[j]) }

  lemma NoFlags(rules: seq<Rule>, none: seq<bool>)
    requires |none| == |rules| && forall k | 0 <= k < |rules| :: !none[k]
    ensures Flags(rules, [], [], none, none)
  {
  }

  lemma PairShape(rules: seq<Rule>, proof: PrefixProof, s: string, t: string)
    requires PairAllowed(rules, proof, s, t)
    ensures |Split(s, TAB)| == 16 && Path(s) == Split(s, TAB)[1] && Path(t) == Path(s)
    ensures Split(s, TAB) == Split(t, TAB) <==> s == t
  {
    JoinSplit(s, TAB);
    JoinSplit(t, TAB);
    hide Split, DriftAllowed, StableAllowed;
  }

  lemma HasPathGrows(a: seq<string>, s: string, path: string)
    ensures HasPath(a + [s], path) <==> HasPath(a, path) || Path(s) == path
  {
    hide RowKey;
    if HasPath(a, path) {
      var i :| 0 <= i < |a| && Path(a[i]) == path;
      assert (a + [s])[i] == a[i];
    }
    assert (a + [s])[|a|] == s;
  }

  lemma ChangedGrows(a: seq<string>, b: seq<string>, s: string, t: string, path: string)
    requires |a| == |b| && Distinct(a + [s])
    ensures Path(s) == path ==> !HasPath(a, path) && (Changed(a + [s], b + [t], path) <==> s != t)
    ensures Path(s) != path ==> (Changed(a + [s], b + [t], path) <==> Changed(a, b, path))
  {
    hide RowKey;
    var a', b' := a + [s], b + [t];
    assert a'[|a|] == s && b'[|a|] == t;
    forall i | 0 <= i < |a| ensures a'[i] == a[i] && b'[i] == b[i] && Path(a[i]) != Path(s) {
      assert Path(a'[i]) != Path(a'[|a|]);
    }
    if Path(s) != path && Changed(a, b, path) {
      var i :| 0 <= i < |a| && i < |b| && Path(a[i]) == path && a[i] != b[i];
      assert Path(a'[i]) == path && a'[i] != b'[i];
    }
  }

  lemma FlagsGrow(rules: seq<Rule>, proof: PrefixProof, a: seq<string>, b: seq<string>, s: string, t: string,
                  p: seq<bool>, o: seq<bool>, p': seq<bool>, o': seq<bool>)
    requires RulesAscend(rules) && Flags(rules, a, b, p, o) && PairAllowed(rules, proof, s, t)
    requires |Split(s, TAB)| >= 2
    requires var k := RuleAt(rules, Split(s, TAB)[1]);
      && p' == (if k < |rules| then p[k := true] else p)
      && o' == if k < |rules| then o[k := Split(s, TAB) != Split(t, TAB)] else o
    ensures Flags(rules, a + [s], b + [t], p', o')
  {
    PairShape(rules, proof, s, t);
    hide Split, PairAllowed, Less, RowKey, HasPath, Changed, Path;
    var at := RuleAt(rules, Path(s));
    forall k | 0 <= k < |rules|
      ensures rules[k].path == Path(s) <==> k == at
    {
      if k != at && rules[k].path == Path(s) { LessIrreflexive(rules[k].path); }
    }
    forall k | 0 <= k < |rules| ensures p'[k] <==> HasPath(a + [s], rules[k].path) {
      HasPathGrows(a, s, rules[k].path);
    }
    if Distinct(a + [s]) {
      DistinctPrefix(a, s);
      forall k | 0 <= k < |rules| ensures o'[k] <==> Changed(a + [s], b + [t], rules[k].path) {
        ChangedGrows(a, b, s, t, rules[k].path);
      }
    }
  }

  lemma DistinctPrefix(a: seq<string>, s: string)
    requires Distinct(a + [s])
    ensures Distinct(a)
  {
    hide Path;
    forall i, j | 0 <= i < j < |a| ensures Path(a[i]) != Path(a[j]) { assert Path((a + [s])[i]) != Path((a + [s])[j]); }
  }

  /** rule->present and rule->observed after one pair of rows. */
  method Mark(rules: seq<Rule>, a: string, b: string, present: seq<bool>, observed: seq<bool>)
    returns (present': seq<bool>, observed': seq<bool>)
    requires |present| == |observed| == |rules| && |Split(a, TAB)| >= 2
    ensures |present'| == |observed'| == |rules|
    ensures var k := RuleAt(rules, Split(a, TAB)[1]);
      && present' == (if k < |rules| then present[k := true] else present)
      && observed' == if k < |rules| then observed[k := Split(a, TAB) != Split(b, TAB)] else observed
  {
    var k := RuleAt(rules, Split(a, TAB)[1]);
    present', observed' := present, observed;
    if k < |rules| {
      present', observed' := present[k := true], observed[k := Split(a, TAB) != Split(b, TAB)];
    }
  }

  /** The first rows of two streams have been checked and marked, and the others are still to come. */
  ghost predicate Zipped(rules: seq<Rule>, proof: PrefixProof, x: seq<string>, y: seq<string>, s: seq<string>,
    t: seq<string>,
                         present: seq<bool>, observed: seq<bool>) {
    exists i | 0 <= i <= |x| && i <= |y| :: ZippedAt(rules, proof, x, y, i, s, t, present, observed)
  }

  ghost predicate ZippedAt(rules: seq<Rule>, proof: PrefixProof, x: seq<string>, y: seq<string>, i: nat, s: seq<string>,
    t: seq<string>,
                           present: seq<bool>, observed: seq<bool>)
    requires i <= |x| && i <= |y|
  {
    && x[i..] == s && y[i..] == t && (forall k | 0 <= k < i :: PairAllowed(rules, proof, x[k], y[k]))
    && (RulesAscend(rules) ==> Flags(rules, x[..i], y[..i], present, observed))
  }

  lemma ZipStart(rules: seq<Rule>, proof: PrefixProof, x: seq<string>, y: seq<string>, none: seq<bool>)
    requires |none| == |rules| && forall k | 0 <= k < |rules| :: !none[k]
    ensures Zipped(rules, proof, x, y, x, y, none, none)
  {
    hide PairAllowed, Flags;
    NoFlags(rules, none);
    assert x[..0] == [] && y[..0] == [] && x[0..] == x && y[0..] == y;
    assert ZippedAt(rules, proof, x, y, 0, x, y, none, none);
  }

  lemma ZipStep(rules: seq<Rule>, proof: PrefixProof, x: seq<string>, y: seq<string>, s: seq<string>, t: seq<string>,
                p: seq<bool>, o: seq<bool>, p': seq<bool>, o': seq<bool>)
    requires Zipped(rules, proof, x, y, s, t, p, o) && |s| > 0 && |t| > 0 && PairAllowed(rules, proof, s[0], t[0])
    requires |Split(s[0], TAB)| >= 2
    requires var k := RuleAt(rules, Split(s[0], TAB)[1]);
      && |p| == |o| == |rules| && p' == (if k < |rules| then p[k := true] else p)
      && o' == if k < |rules| then o[k := Split(s[0], TAB) != Split(t[0], TAB)] else o
    ensures Zipped(rules, proof, x, y, s[1..], t[1..], p', o')
  {
    hide PairAllowed, Flags, Split, RulesAscend;
    var i :| 0 <= i <= |x| && i <= |y| && ZippedAt(rules, proof, x, y, i, s, t, p, o);
    assert x[i] == s[0] && y[i] == t[0];
    assert x[..i + 1] == x[..i] + [s[0]] && y[..i + 1] == y[..i] + [t[0]];
    assert x[i + 1..] == s[1..] && y[i + 1..] == t[1..];
    if RulesAscend(rules) { FlagsGrow(rules, proof, x[..i], y[..i], s[0], t[0], p, o, p', o'); }
    assert ZippedAt(rules, proof, x, y, i + 1, s[1..], t[1..], p', o');
  }

  lemma ZipEnd(rules: seq<Rule>, proof: PrefixProof, x: seq<string>, y: seq<string>, s: seq<string>, t: seq<string>,
               present: seq<bool>, observed: seq<bool>)
    requires Zipped(rules, proof, x, y, s, t, present, observed)
    ensures |s| == 0 && |t| == 0 ==> PairsAllowed(rules, proof, x, y)
    ensures |s| == 0 && |t| == 0 && RulesAscend(rules) ==> Flags(rules, x, y, present, observed)
    ensures (|s| == 0 <==> |t| > 0) ==> !PairsAllowed(rules, proof, x, y)
    ensures |s| > 0 && |t| > 0 && !PairAllowed(rules, proof, s[0], t[0]) ==> !PairsAllowed(rules, proof, x, y)
  {
    hide PairAllowed, Flags, RulesAscend;
    var i :| 0 <= i <= |x| && i <= |y| && ZippedAt(rules, proof, x, y, i, s, t, present, observed);
    if |s| == 0 { assert x[..i] == x; }
    if |t| == 0 { assert y[..i] == y; }
    if |s| > 0 { assert x[i] == s[0]; }
    if |t| > 0 { assert y[i] == t[0]; }
  }

  /** The zip of both entry streams: every place must agree on the path and pass its rule. */
  method CheckRows(rules: seq<Rule>, proof: PrefixProof, first: seq<string>, second: seq<string>)
    returns (alive: bool, present: seq<bool>, observed: seq<bool>)
    ensures |present| == |observed| == |rules|
    ensures RowsIn(EntryRow, first).None? || RowsIn(EntryRow, second).None? ==> !alive
    ensures RowsIn(EntryRow, first).Some? && RowsIn(EntryRow, second).Some? ==>
      var a, b := RowsIn(EntryRow, first).value, RowsIn(EntryRow, second).value;
      (alive <==> PairsAllowed(rules, proof, a, b))
        && (alive && RulesAscend(rules) ==> Flags(rules, a, b, present, observed))
  {
    hide RowsIn, RowsFrom, PairAllowed, PairsAllowed, RulesAscend, Flags, Zipped, Split, RuleAt, Stream;
    present, observed := seq(|rules|, _ => false), seq(|rules|, _ => false);
    var one := new Cursor(EntryRow, first);
    var two := new Cursor(EntryRow, second);
    ghost var x, y := one.Rest(), two.Rest();
    ghost var whole := x.Some? && y.Some?;
    if whole { ZipStart(rules, proof, x.value, y.value, present); }
    var a, b: Option<string>;
    alive, a, b := NextPair(one, two);
    if !alive { return; }
    while a.Some? || b.Some?
      invariant alive && |present| == |observed| == |rules|
      invariant one.Valid() && two.Valid() && (whole <==> one.Rest().Some? && two.Rest().Some?)
      invariant whole ==>
        Zipped(rules, proof, x.value, y.value, Stream(a, one.Rest()), Stream(b, two.Rest()), present, observed)
      invariant (a.None? ==> one.Rest().Some?) && (b.None? ==> two.Rest().Some?)
      invariant whole ==> StreamHead(a, one.Rest()) && StreamHead(b, two.Rest())
      decreases |one.lines| - one.position + (if a.Some? then 1 else 0)
    {
      ghost var s, t, p, o := Stream(a, one.Rest()), Stream(b, two.Rest()), present, observed;
      if a.None? || b.None? || !PairAllowed(rules, proof, a.value, b.value) {
        if whole { ZipEnd(rules, proof, x.value, y.value, s, t, present, observed); }
        return false, present, observed;
      }
      PairShape(rules, proof, a.value, b.value);
      present, observed := Mark(rules, a.value, b.value, present, observed);
      if whole { ZipStep(rules, proof, x.value, y.value, s, t, p, o, present, observed); }
      alive, a, b := NextPair(one, two);
      if !alive { return; }
    }
    if whole {
      ZipEnd(rules, proof, x.value, y.value, Stream(a, one.Rest()), Stream(b, two.Rest()), present, observed);
    }
  }

  /** Steps both cursors. */
  method NextPair(one: Cursor, two: Cursor) returns (alive: bool, a: Option<string>, b: Option<string>)
    requires one.Valid() && two.Valid() && one != two
    modifies one, two
    ensures one.Valid() && two.Valid()
    ensures one.position >= old(one.position) && (a.Some? ==> one.position > old(one.position))
    ensures !alive ==> !(old(one.Rest()).Some? && old(two.Rest()).Some?)
    ensures alive ==> (a.None? ==> one.Rest().Some?) && (b.None? ==> two.Rest().Some?)
    ensures alive ==> (old(one.Rest()).Some? && old(two.Rest()).Some? <==> one.Rest().Some? && two.Rest().Some?)
    ensures alive && one.Rest().Some? && two.Rest().Some? ==>
      && old(one.Rest()) == Some(Stream(a, one.Rest())) && old(two.Rest()) == Some(Stream(b, two.Rest()))
      && StreamHead(a, one.Rest()) && StreamHead(b, two.Rest())
  {
    hide RowsFrom, Stream, StreamHead;
    b := None;
    alive, a := Advance(one);
    if !alive { return; }
    alive, b := Advance(two);
  }

  // ----- The whole emission -----

  /** What is printed: the nonce, the second snapshot unchanged, and one line for each rule. */
  function VolatileLines(nonce: string, sha: string -> string, token: string, rules: seq<Rule>, second: seq<string>,
                         a: seq<string>, b: seq<string>): seq<string>
  {
    ["CAPTURE_NONCE\t" + nonce] + second
    + Trailer(sha, token, rules, seq(|rules|, k requires 0 <= k < |rules| => Changed(a, b, rules[k].path)))
  }

  /** emit_volatile_inventory: it prints exactly when the policy parses and both snapshots are admissible under it. */
  method EmitVolatile(nonce: string, sha: string -> string, proof: PrefixProof, token: string, first: seq<string>,
    second: seq<string>)
    returns (alive: bool, lines: seq<string>)
    ensures alive <==>
      && ParseToken(token).Some? && Admissible(ParseToken(token).value, proof, first, second)
      && Size(VolatileLines(nonce, sha, token, ParseToken(token).value, second, RowsIn(EntryRow, first).value,
        RowsIn(EntryRow, second).value))
         <= MAX_OUTPUT_BYTES
    ensures alive ==>
      lines == VolatileLines(nonce, sha, token, ParseToken(token).value, second, RowsIn(EntryRow, first).value,
        RowsIn(EntryRow, second).value)
  {
    hide RowsIn, ParseToken, PairsAllowed, HasPath, SameCapture, Flags, Changed, RulesAscend, Size, ParseItems, Trailer;
    lines := [];
    if !SameCapture(first, second) { return false, lines; }
    var policy := ParseVolatilePolicy(token);
    if policy.None? { return false, lines; }
    var rules := policy.value;
    PolicyForm(token);
    var n := CountIssues(first);
    if n.None? { return false, lines; }
    var m := CountIssues(second);
    if m.None? || n.value > 0 || m.value > 0 { return false, lines; }
    var present, observed;
    alive, present, observed := CheckRows(rules, proof, first, second);
    if !alive { return; }
    ghost var a, b := RowsIn(EntryRow, first).value, RowsIn(EntryRow, second).value;
    StreamDistinct(first);
    FlagsMean(rules, a, b, present, observed);
    if exists k | 0 <= k < |rules| :: !present[k] { return false, lines; }
    lines := ["CAPTURE_NONCE\t" + nonce] + second + Trailer(sha, token, rules, observed);
    assert observed == seq(|rules|, k requires 0 <= k < |rules| => Changed(a, b, rules[k].path));
    alive := Size(lines) <= MAX_OUTPUT_BYTES;
  }

  lemma PolicyForm(token: string)
    requires ParseToken(token).Some?
    ensures RulesAscend(ParseToken(token).value)
  {
    ParsedForm(Pieces(token, ','), []);
  }

  lemma StreamDistinct(lines: seq<string>)
    requires RowsIn(EntryRow, lines).Some?
    ensures Distinct(RowsIn(EntryRow, lines).value)
  {
    RowsExactly(EntryRow, lines, None, 0);
    var a := RowsIn(EntryRow, lines).value;
    hide RowsFrom, RowForm, WithPrefix, RowKey, Less;
    forall i, j | 0 <= i < j < |a| ensures Path(a[i]) != Path(a[j]) {
      LessIrreflexive(Path(a[j]));
      assert Less(RowKey(EntryRow)(a[i]), RowKey(EntryRow)(a[j]));
    }
  }

  lemma FlagsMean(rules: seq<Rule>, a: seq<string>, b: seq<string>, present: seq<bool>, observed: seq<bool>)
    requires Flags(rules, a, b, present, observed) && Distinct(a)
    ensures |present| == |observed| == |rules|
    ensures forall k | 0 <= k < |rules| :: present[k] <==> HasPath(a, rules[k].path)
    ensures forall k | 0 <= k < |rules| :: observed[k] <==> Changed(a, b, rules[k].path)
  {
    hide HasPath, Changed, Distinct;
  }

  // ----- What an admitted pair of snapshots cannot hide -----

  /** Every difference a diagnostic run would report between admitted snapshots is one object, present on both
      sides, at the path of a C or L rule that it meets. */
  lemma DriftConfined(rules: seq<Rule>, proof: PrefixProof, first: seq<string>, second: seq<string>, key: string)
    requires Admissible(rules, proof, first, second) && (forall k | 0 <= k < |rules| :: RuleForm(rules[k]))
    ensures var a, b := RowsIn(EntryRow, first).value, RowsIn(EntryRow, second).value;
      var d := FindDelta(EntryRow, Merge(EntryRow, a, b), key);
      && (Find(EntryRow, a, key).Some? <==> Find(EntryRow, b, key).Some?)
      && (d.Some? ==> d.value.left.Some? && d.value.right.Some?)
      && (d.Some? ==> RuleAt(rules, key) < |rules| && rules[RuleAt(rules, key)].behavior in {'C', 'L'})
  {
    var a, b := RowsIn(EntryRow, first).value, RowsIn(EntryRow, second).value;
    RowsExactly(EntryRow, first, None, 0);
    RowsExactly(EntryRow, second, None, 0);
    hide RowsFrom, RowForm, WithPrefix, RowKey, Less, PairAllowed, SameCapture, HasPath, RuleForm, Merge;
    MergeExact(EntryRow, a, b, key);
    FindZip(rules, proof, a, b, key);
    if Find(EntryRow, a, key) != Find(EntryRow, b, key) {
      DriftRule(rules, proof, Find(EntryRow, a, key).value, Find(EntryRow, b, key).value);
    }
  }

  lemma {:induction false} FindZip(rules: seq<Rule>, proof: PrefixProof, a: seq<string>, b: seq<string>, key: string)
    requires PairsAllowed(rules, proof, a, b)
    ensures Find(EntryRow, a, key).Some? <==> Find(EntryRow, b, key).Some?
    ensures Find(EntryRow, a, key).Some? ==>
      var s, t := Find(EntryRow, a, key).value,
        Find(EntryRow, b, key).value; PairAllowed(rules, proof, s, t) && Path(s) == key
  {
    if |a| > 0 {
      PairShape(rules, proof, a[0], b[0]);
      hide PairAllowed, RowKey;
      FindZip(rules, proof, a[1..], b[1..], key);
    }
  }

  lemma DriftRule(rules: seq<Rule>, proof: PrefixProof, s: string, t: string)
    requires PairAllowed(rules, proof, s, t) && s != t && (forall k | 0 <= k < |rules| :: RuleForm(rules[k]))
    ensures var k := RuleAt(rules, Path(s)); k < |rules| && rules[k].behavior in {'C', 'L'}
  {
    PairShape(rules, proof, s, t);
    hide Split, Path, CanonicalRelHex, NonExecutable, LogPath;
  }
}
