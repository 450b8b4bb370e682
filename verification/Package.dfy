/** The exact-file part of an operator package: its checks, its two manifests, and what the quarantine helper
    makes of them. */
module Package {
  import opened Text
  import opened Records
  import opened Manifest
  import Targets
  import Disk

  // ----- The package -----

  /** A QUARANTINE_EXACT_FILE action; paths are the bytes of their UTF-8 form. */
  datatype Action = Action(path: string, sha: string, size: nat, mode: string, uid: string, gid: string, device: string,
                           inode: string, parentDevice: string, parentInode: string)

  predicate Positive(s: string) { CanonicalDecimal(s) && s != "0" }


  predicate Component(c: string) { c !in {"", ".", ".."} }

  /** A path whose components are names. */
  predicate Normal(p: string) { forall i | 0 <= i < |Split(p, '/')| :: Component(Split(p, '/')[i]) }

  predicate Below(root: string, path: string) { |path| > |root| + 1 && path[..|root| + 1] == root + "/" }

  function RelativeTo(root: string, path: string): string requires Below(root, path) { path[|root| + 1..] }

  /** verify_action and the serving-root test, for this primitive. */
  predicate ActionForm(root: string, a: Action) {
    && ByteText(a.path) && Below(root, a.path) && Normal(RelativeTo(root, a.path)) && HexDigest(a.sha)
    && |a.mode| == 4 && a.mode[0] == '0' && ModeText(a.mode) && NumberText(a.uid) && NumberText(a.gid)
    && Positive(a.device) && Positive(a.inode) && Positive(a.parentDevice) && Positive(a.parentInode)
  }

  /** The ordering, uniqueness and cardinality checks of verify_package. */
  predicate PackageForm(root: string, actions: seq<Action>) {
    && |actions| <= TARGET_CAP && (forall i | 0 <= i < |actions| :: ActionForm(root, actions[i]))
    && (forall i, j | 0 <= i < j < |actions| :: Less(actions[i].path, actions[j].path))
    && forall i, j | 0 <= i < j < |actions| ::
      (actions[i].device, actions[i].inode) != (actions[j].device, actions[j].inode)
  }

  // ----- exact_file_manifests -----

  function TargetFields(root: string, a: Action): (f: seq<string>)
    requires ActionForm(root, a)
    ensures |f| == 8
  {
    [Hex(RelativeTo(root, a.path)), a.sha, Decimal(a.size), Decimal(ParseOctal(a.mode)), a.uid, a.gid, a.device,
      a.inode]
  }

  function TargetLines(root: string, actions: seq<Action>): (lines: seq<string>)
    requires forall i | 0 <= i < |actions| :: ActionForm(root, actions[i])
    ensures |lines| == |actions|
  {
    seq(|actions|, i requires 0 <= i < |actions| => Join(TargetFields(root, actions[i]), TAB))
  }

  function ParentLines(actions: seq<Action>): (lines: seq<string>)
    ensures |lines| == |actions|
  {
    seq(|actions|, i requires 0 <= i < |actions| => Join([actions[i].parentDevice, actions[i].parentInode], TAB))
  }

  function TextOf(lines: seq<string>): string { Join(lines, '\n') + "\n" }

  method ExactFileManifests(root: string, actions: seq<Action>) returns (targets: string, parents: string)
    requires forall i | 0 <= i < |actions| :: ActionForm(root, actions[i])
    ensures targets == TextOf(TargetLines(root, actions)) && parents == TextOf(ParentLines(actions))
  {
    hide ActionForm, TargetFields, Join;
    var targetRows: seq<string>, parentRows: seq<string> := [], [];
    for i := 0 to |actions|
      invariant targetRows == TargetLines(root, actions)[..i] && parentRows == ParentLines(actions)[..i]
    {
      targetRows := targetRows + [Join(TargetFields(root, actions[i]), TAB)];
      parentRows := parentRows + [Join([actions[i].parentDevice, actions[i].parentInode], TAB)];
    }
    assert targetRows == TargetLines(root, actions) && parentRows == ParentLines(actions);
    targets, parents := TextOf(targetRows), TextOf(parentRows);
  }

  // ----- What the helper parses -----

  predicate EndsInDots(c: string) { |c| >= 2 && c[|c| - 2..] == ".." }

  /** What the helper asks of a path made of names: a bounded length, no control bytes, and no directory whose name
      ends in two dots, such as "a..". */
  predicate PathFits(p: string) {
    && |p| <= PATH_CAP && (forall i | 0 <= i < |p| :: p[i] >= ' ')
    && forall i | 0 <= i < |Split(p, '/')| - 1 :: !EndsInDots(Split(p, '/')[i])
  }

  /** The bounds the helper adds to the package's own checks. */
  predicate Fits(root: string, a: Action) requires ActionForm(root, a) {
    && PathFits(RelativeTo(root, a.path)) && a.size <= MAX_U64 && ParseDecimal(a.uid) <= MAX_U32
    && ParseDecimal(a.gid) <= MAX_U32
    && ParseDecimal(a.device) <= MAX_U64 && ParseDecimal(a.inode) <= MAX_U64
  }

  predicate ParentFits(a: Action) requires Positive(a.parentDevice) && Positive(a.parentInode) {
    ParseDecimal(a.parentDevice) <= MAX_U64 && ParseDecimal(a.parentInode) <= MAX_U64
  }

  function ExpectedRow(root: string, a: Action): Row requires ActionForm(root, a) {
    Row(RelativeTo(root, a.path), a.sha, a.size, ParseOctal(a.mode), ParseDecimal(a.uid), ParseDecimal(a.gid),
        ParseDecimal(a.device), ParseDecimal(a.inode))
  }

  function ExpectedRows(root: string, actions: seq<Action>): (rows: seq<Row>)
    requires forall i | 0 <= i < |actions| :: ActionForm(root, actions[i])
    ensures |rows| == |actions|
  {
    seq(|actions|, i requires 0 <= i < |actions| => ExpectedRow(root, actions[i]))
  }

  function ExpectedParent(a: Action): Parent requires Positive(a.parentDevice) && Positive(a.parentInode) {
    Parent(ParseDecimal(a.parentDevice), ParseDecimal(a.parentInode))
  }

  function ExpectedParents(actions: seq<Action>): (parents: seq<Parent>)
    requires forall i | 0 <= i < |actions| :: Positive(actions[i].parentDevice) && Positive(actions[i].parentInode)
    ensures |parents| == |actions|
  {
    seq(|actions|, i requires 0 <= i < |actions| => ExpectedParent(actions[i]))
  }

  lemma NumberOfDigits(s: string)
    requires NumberText(s)
    ensures Number(s) == if ParseDecimal(s) <= MAX_U64 then Some(ParseDecimal(s)) else None
  {
    assert Digit(s[0]);
  }

  lemma NumberOfDecimal(n: nat)
    ensures Number(Decimal(n)) == if n <= MAX_U64 then Some(n) else None
    ensures NumberText(Decimal(n))
  {
    DecimalRoundTrip(n);
    NumberOfDigits(Decimal(n));
  }

  lemma PositiveNumber(s: string)
    requires Positive(s)
    ensures NumberText(s) && ParseDecimal(s) > 0
  {
    ZeroOnly(s);
  }

  // ----- The two path predicates -----

  lemma PartLater(c: string, rest: string, part: string, i: nat)
    requires i <= |rest| && PartAt(rest, part, i)
    ensures Contains(c + ['/'] + rest, part)
  {
    var s := c + ['/'] + rest;
    assert s[|c| + 1 + i..|c| + 1 + i + |part|] == rest[i..i + |part|];
    assert PartAt(s, part, |c| + 1 + i);
  }

  lemma PartFrom(c: string, rest: string, part: string, i: nat)
    requires i > |c| && i <= |c| + 1 + |rest| && PartAt(c + ['/'] + rest, part, i)
    ensures Contains(rest, part)
  {
    var s := c + ['/'] + rest;
    assert s[i..i + |part|] == rest[i - |c| - 1..i - |c| - 1 + |part|];
    assert PartAt(rest, part, i - |c| - 1);
  }

  /** Where a parent reference hides in a path: at the end of a directory name. */
  lemma DotsStep(c: string, rest: string)
    requires Free(c, '/')
    ensures Contains(c + ['/'] + rest, "../") <==> EndsInDots(c) || Contains(rest, "../")
  {
    var s := c + ['/'] + rest;
    if EndsInDots(c) {
      assert s[|c| - 2..|c| + 1] == "../";
      assert PartAt(s, "../", |c| - 2);
    }
    if Contains(rest, "../") {
      var i :| 0 <= i <= |rest| && PartAt(rest, "../", i);
      PartLater(c, rest, "../", i);
    }
    if Contains(s, "../") {
      var i :| 0 <= i <= |s| && PartAt(s, "../", i);
      DotsAt(c, rest, i);
      if i > |c| { PartFrom(c, rest, "../", i); }
    }
  }

  lemma DotsAt(c: string, rest: string, i: nat)
    requires Free(c, '/') && PartAt(c + ['/'] + rest, "../", i)
    ensures i > |c| || EndsInDots(c)
  {
    var s := c + ['/'] + rest;
    assert s[i..i + 3][0] == '.' && s[i..i + 3][1] == '.' && s[i..i + 3][2] == '/';
    assert s[i] == '.' && s[i + 1] == '.' && s[i + 2] == '/' && s[|c|] == '/';
    assert forall j | 0 <= j < |c| :: s[j] == c[j] && c[j] != '/';
    if i + 2 == |c| { assert c[|c| - 2..] == s[i..i + 2]; }
  }

  lemma SlashesStep(c: string, rest: string)
    requires Free(c, '/') && |rest| > 0 && rest[0] != '/'
    ensures Contains(c + ['/'] + rest, "//") <==> Contains(rest, "//")
  {
    var s := c + ['/'] + rest;
    if Contains(rest, "//") {
      var i :| 0 <= i <= |rest| && PartAt(rest, "//", i);
      PartLater(c, rest, "//", i);
    }
    if Contains(s, "//") {
      var i :| 0 <= i <= |s| && PartAt(s, "//", i);
      assert s[i..i + 2][0] == '/' && s[i..i + 2][1] == '/';
      assert s[i] == '/' && s[i + 1] == '/' && s[|c| + 1] == rest[0];
      assert forall j | 0 <= j < |c| :: s[j] == c[j] && c[j] != '/';
      if i > |c| { PartFrom(c, rest, "//", i); }
    }
  }

  lemma NoPart(c: string, part: string, k: nat)
    requires Free(c, '/') && k < |part| && part[k] == '/'
    ensures !Contains(c, part)
  {
    forall i | 0 <= i <= |c| ensures !PartAt(c, part, i) {
      if i + |part| <= |c| { assert c[i..i + |part|][k] == c[i + k]; }
    }
  }

  lemma OneName(p: string)
    requires Component(p) && Free(p, '/')
    ensures |p| > 0 && p[0] != '/' && !Contains(p, "//") && p != "." && (|p| >= 3 ==> p[|p| - 3..] != "/..")
      && !Contains(p, "../")
  {
    hide Contains;
    NoPart(p, "//", 0);
    NoPart(p, "../", 2);
    if |p| >= 3 { assert p[|p| - 3..][0] == p[|p| - 3]; }
  }

  lemma NormalParts(p: string) returns (k: nat)
    requires Normal(p)
    ensures k <= |p| && Free(p[..k], '/') && Component(p[..k])
    ensures k == |p| ==> Split(p, '/') == [p]
    ensures k < |p| ==>
      && p == p[..k] + ['/'] + p[k + 1..] && Split(p, '/') == [p[..k]] + Split(p[k + 1..], '/') && Normal(p[k + 1..])
  {
    k := FindFrom(p, '/', 0);
    var parts := Split(p, '/');
    assert Component(parts[0]);
    if k < |p| {
      var rest := p[k + 1..];
      forall i | 0 <= i < |Split(rest, '/')| ensures Component(Split(rest, '/')[i]) {
        assert parts[i + 1] == Split(rest, '/')[i];
      }
    } else {
      assert p[..k] == p;
    }
  }

  /** What the helper's substring tests mean for a path made of names. */
  lemma {:induction false} NormalPath(p: string)
    requires Normal(p)
    ensures |p| > 0 && p[0] != '/' && !Contains(p, "//") && p != "." && (|p| >= 3 ==> p[|p| - 3..] != "/..")
    ensures Contains(p, "../") <==> exists i :: 0 <= i < |Split(p, '/')| - 1 && EndsInDots(Split(p, '/')[i])
    decreases |p|
  {
    hide Normal, Split, Contains, EndsInDots, Component;
    var k := NormalParts(p);
    if k == |p| {
      assert p[..k] == p;
      OneName(p);
    } else {
      var c, rest := p[..k], p[k + 1..];
      NormalPath(rest);
      DotsStep(c, rest);
      SlashesStep(c, rest);
      DotsParts(c, Split(rest, '/'));
      TailDots(c, rest);
      LongerPath(c, rest);
    }
  }

  lemma LongerPath(c: string, rest: string)
    requires Component(c) && Free(c, '/') && |rest| > 0
    ensures var p := c + ['/'] + rest; |p| > 0 && p[0] != '/' && p != "."
  {
    var p := c + ['/'] + rest;
    assert p[0] == c[0] && |p| > 1;
  }

  lemma DotsParts(c: string, parts: seq<string>)
    requires |parts| >= 1
    ensures (exists i :: 0 <= i < |[c] + parts| - 1 && EndsInDots(([c] + parts)[i])) <==>
      EndsInDots(c) || exists i :: 0 <= i < |parts| - 1 && EndsInDots(parts[i])
  {
    var all := [c] + parts;
    assert all[0] == c;
    if i :| 0 <= i < |all| - 1 && EndsInDots(all[i]) {
      if i > 0 { assert parts[i - 1] == all[i]; }
    }
    if i :| 0 <= i < |parts| - 1 && EndsInDots(parts[i]) { assert all[i + 1] == parts[i]; }
  }

  lemma TailDots(c: string, rest: string)
    requires |rest| > 0 && Normal(rest) && (|rest| >= 3 ==> rest[|rest| - 3..] != "/..")
    ensures var p := c + ['/'] + rest; |p| >= 3 ==> p[|p| - 3..] != "/.."
  {
    var p := c + ['/'] + rest;
    assert !Normal("..") by { SplitLast("..", '/'); assert !Component(Split("..", '/')[0]); }
    if |rest| >= 3 {
      assert p[|p| - 3..] == rest[|rest| - 3..];
    } else if |rest| == 2 {
      assert p[|p| - 3..][1..] == rest;
    } else if |p| >= 3 {
      assert p[|p| - 3..][1] == '/';
    }
  }

  // ----- The round trip -----

  /** For a path made of names, the substring tests of the helper come down to that. */
  lemma PathAcceptedIff(p: string)
    requires Normal(p)
    ensures PathAccepted(p) <==> PathFits(p)
  {
    NormalPath(p);
    hide Split, Normal;
    if Contains(p, "/../") {
      var i :| 0 <= i <= |p| && PartAt(p, "/../", i);
      assert p[i..i + 4][1..] == p[i + 1..i + 4];
      assert PartAt(p, "../", i + 1);
    }
  }

  lemma HexFits(p: string)
    requires ByteText(p)
    ensures Unhex(Hex(p)) == p && HexText(Hex(p)) && (|Hex(p)| > 2 * PATH_CAP <==> |p| > PATH_CAP)
  {
    UnhexHex(p);
  }

  /** One line survives exactly when the action meets the helper's bounds. */
  lemma LineRead(root: string, a: Action)
    requires ActionForm(root, a)
    ensures Pieces(Join(TargetFields(root, a), TAB), TAB) == TargetFields(root, a)
    ensures RowOf(TargetFields(root, a)) == if Fits(root, a) then Some(ExpectedRow(root, a)) else None
  {
    FieldsFree(root, a);
    PiecesJoin(TargetFields(root, a), TAB);
    hide Pieces, Join, Free;
    FieldsRead(root, a);
  }

  lemma TailBytes(s: string, k: nat)
    requires ByteText(s) && k <= |s|
    ensures ByteText(s[k..])
  {
  }

  lemma FieldsRead(root: string, a: Action)
    requires ActionForm(root, a)
    ensures RowOf(TargetFields(root, a)) == if Fits(root, a) then Some(ExpectedRow(root, a)) else None
  {
    hide Hex, Unhex, PathAccepted, HexText, HexDigest, Number, Decimal, ParseDecimal, Normal, ParseOctal,
      CanonicalDecimal, AllDigits, EndsInDots, ModeText, ByteText, NumberText, Positive;
    var p, f := RelativeTo(root, a.path), TargetFields(root, a);
    TailBytes(a.path, |root| + 1);
    HexFits(p);
    PathAcceptedIff(p);
    if PathFits(p) { assert |p| <= PATH_CAP; }
    NumbersRead(a);
    assert f[0] == Hex(p) && f[1] == a.sha && f[2] == Decimal(a.size) && f[3] == Decimal(ParseOctal(a.mode));
    assert f[4] == a.uid && f[5] == a.gid && f[6] == a.device && f[7] == a.inode;
  }

  lemma NumbersRead(a: Action)
    requires NumberText(a.uid) && NumberText(a.gid) && Positive(a.device) && Positive(a.inode) && ModeText(a.mode)
    ensures Number(Decimal(a.size)) == if a.size <= MAX_U64 then Some(a.size) else None
    ensures Number(Decimal(ParseOctal(a.mode))) == Some(ParseOctal(a.mode)) && ParseOctal(a.mode) <= 4095
    ensures Number(a.uid) == if ParseDecimal(a.uid) <= MAX_U64 then Some(ParseDecimal(a.uid)) else None
    ensures Number(a.gid) == if ParseDecimal(a.gid) <= MAX_U64 then Some(ParseDecimal(a.gid)) else None
    ensures Number(a.device) == if ParseDecimal(a.device) <= MAX_U64 then Some(ParseDecimal(a.device)) else None
    ensures Number(a.inode) == if ParseDecimal(a.inode) <= MAX_U64 then Some(ParseDecimal(a.inode)) else None
    ensures ParseDecimal(a.inode) > 0
  {
    hide Number, Decimal, ParseDecimal, AllDigits;
    NumberOfDecimal(a.size);
    NumberOfDecimal(ParseOctal(a.mode));
    NumberOfDigits(a.uid);
    NumberOfDigits(a.gid);
    PositiveNumber(a.device);
    PositiveNumber(a.inode);
    NumberOfDigits(a.device);
    NumberOfDigits(a.inode);
  }

  predicate Ascii(s: string) { forall i | 0 <= i < |s| :: 0 < s[i] as int < 128 }

  lemma DigitsFree(s: string)
    requires NumberText(s)
    ensures |s| > 0 && Free(s, TAB) && Free(s, '\n') && Ascii(s)
  {
  }

  lemma HexFree(s: string)
    requires HexText(s)
    ensures Free(s, TAB) && Free(s, '\n') && Ascii(s)
  {
  }

  lemma FieldsFree(root: string, a: Action)
    requires ActionForm(root, a)
    ensures forall i | 0 <= i < 8 :: |TargetFields(root, a)[i]| > 0 && Free(TargetFields(root, a)[i], TAB)
    ensures forall i | 0 <= i < 8 :: Free(TargetFields(root, a)[i], '\n') && Ascii(TargetFields(root, a)[i])
  {
    hide Free, Ascii, Decimal, Hex, HexText, NumberText, CanonicalDecimal, Normal, ParseOctal;
    var f := TargetFields(root, a);
    HexFree(f[0]);
    HexFree(f[1]);
    NumberOfDecimal(a.size);
    NumberOfDecimal(ParseOctal(a.mode));
    PositiveNumber(a.device);
    PositiveNumber(a.inode);
    DigitsFree(f[2]);
    DigitsFree(f[3]);
    DigitsFree(f[4]);
    DigitsFree(f[5]);
    DigitsFree(f[6]);
    DigitsFree(f[7]);
  }

  lemma {:induction false} JoinFree(f: seq<string>, sep: char, c: char)
    requires c != sep && 0 < sep as int < 128 && forall i | 0 <= i < |f| :: Free(f[i], c) && Ascii(f[i])
    ensures Free(Join(f, sep), c) && Ascii(Join(f, sep))
  {
    if |f| > 1 { JoinFree(f[1..], sep, c); }
  }

  predicate AllFit(root: string, actions: seq<Action>)
    requires forall i | 0 <= i < |actions| :: ActionForm(root, actions[i])
  {
    forall i | 0 <= i < |actions| :: Fits(root, actions[i])
  }

  /** Full paths below one root sort like the relative paths the helper compares. */
  lemma RelativeOrder(root: string, a: string, b: string)
    requires Below(root, a) && Below(root, b)
    ensures Less(a, b) <==> Less(RelativeTo(root, a), RelativeTo(root, b))
  {
    LessAfterPrefix(root + "/", RelativeTo(root, a), RelativeTo(root, b));
    assert a == root + "/" + RelativeTo(root, a) && b == root + "/" + RelativeTo(root, b);
  }

  /** The line loop from the k-th row on. */
  lemma {:induction false} RowsRead(root: string, actions: seq<Action>, k: nat)
    requires PackageForm(root, actions) && k <= |actions| && AllFit(root, actions[..k])
    ensures RowsOf(TargetLines(root, actions)[k..], ExpectedRows(root, actions)[..k]) ==
      if AllFit(root, actions) then Some(ExpectedRows(root, actions)) else None
    decreases |actions| - k
  {
    hide ActionForm, Fits, RowOf, Pieces, Join, TargetFields, ExpectedRow, Less;
    var lines, rows := TargetLines(root, actions), ExpectedRows(root, actions);
    if k == |actions| {
      assert actions[..k] == actions && rows[..k] == rows;
    } else {
      LineRead(root, actions[k]);
      assert lines[k..][0] == lines[k] && lines[k..][1..] == lines[k + 1..];
      assert rows[..k] + [rows[k]] == rows[..k + 1];
      if k > 0 {
        assert Less(actions[k - 1].path, actions[k].path);
        RowsOrdered(root, actions, k);
        assert rows[..k][k - 1] == rows[k - 1];
      }
      if Fits(root, actions[k]) {
        assert actions[..k + 1] == actions[..k] + [actions[k]];
        RowsRead(root, actions, k + 1);
      }
    }
  }

  lemma RowsOrdered(root: string, actions: seq<Action>, k: nat)
    requires 0 < k < |actions| && forall i | 0 <= i < |actions| :: ActionForm(root, actions[i])
    requires Less(actions[k - 1].path, actions[k].path)
    ensures Less(ExpectedRows(root, actions)[k - 1].path, ExpectedRows(root, actions)[k].path)
  {
    assert ActionForm(root, actions[k - 1]) && ActionForm(root, actions[k]);
    RelativeOrder(root, actions[k - 1].path, actions[k].path);
  }

  lemma {:induction false} TextAscii(lines: seq<string>)
    requires forall i | 0 <= i < |lines| :: Ascii(lines[i])
    ensures Ascii(TextOf(lines))
  {
    if |lines| > 1 {
      TextAscii(lines[1..]);
      assert TextOf(lines) == lines[0] + "\n" + TextOf(lines[1..]);
    }
  }

  lemma AsciiBytes(s: string)
    requires Ascii(s)
    ensures ByteText(s) && (0 as char) !in s
  {
  }

  lemma LinesFree(root: string, actions: seq<Action>)
    requires forall i | 0 <= i < |actions| :: ActionForm(root, actions[i])
    ensures forall i | 0 <= i < |actions| ::
      var line := TargetLines(root, actions)[i]; |line| > 0 && Free(line, '\n') && Ascii(line)
  {
    hide ActionForm, TargetFields, Free, Ascii;
    forall i | 0 <= i < |actions|
      ensures var line := TargetLines(root, actions)[i]; |line| > 0 && Free(line, '\n') && Ascii(line)
    {
      FieldsFree(root, actions[i]);
      JoinFree(TargetFields(root, actions[i]), TAB, '\n');
    }
  }

  /** Any text the parser is given in hexadecimal with its own digest. */
  lemma TextBound(text: string, sha: string -> string)
    requires Ascii(text) && |text| > 0
    ensures ByteText(text) && Unhex(Hex(text)) == text && (Bound(Hex(text), sha(text), sha) <==> |text| <= MANIFEST_CAP)
  {
    AsciiBytes(text);
    UnhexHex(text);
    hide Hex, Unhex;
  }

  /** The manifest of a package, hexadecimal as it travels, is parsed back to its targets exactly when there is at
      least one, the text is within the cap and every action meets the helper's bounds. */
  lemma ManifestRoundTrip(root: string, actions: seq<Action>, sha: string -> string)
    requires PackageForm(root, actions)
    ensures var text := TextOf(TargetLines(root, actions));
      && ByteText(text)
      && ParseTargets(Hex(text), sha(text), sha) ==
        if |actions| > 0 && |text| <= MANIFEST_CAP && AllFit(root, actions) then Some(ExpectedRows(root, actions))
          else None
  {
    var lines := TargetLines(root, actions);
    LinesFree(root, actions);
    TextAscii(lines);
    TextBound(TextOf(lines), sha);
    PiecesLines(lines, '\n');
    assert lines[0..] == lines && ExpectedRows(root, actions)[..0] == [] && actions[..0] == [];
    RowsRead(root, actions, 0);
    hide Bound, Hex, Unhex, Pieces, RowsOf, Join, ActionForm, TargetLines, ExpectedRows, AllFit, Ascii, ByteText;
  }

  // ----- Parents -----

  lemma ParentRead(a: Action)
    requires Positive(a.parentDevice) && Positive(a.parentInode)
    ensures ParentOf(Join([a.parentDevice, a.parentInode], TAB)) == if ParentFits(a) then Some(ExpectedParent(a))
      else None
    ensures var line := Join([a.parentDevice, a.parentInode], TAB); |line| > 0 && Free(line, '\n') && Ascii(line)
  {
    hide Number, Split, ParseDecimal, CanonicalDecimal;
    var f := [a.parentDevice, a.parentInode];
    PositiveNumber(f[0]);
    PositiveNumber(f[1]);
    NumberOfDigits(f[0]);
    NumberOfDigits(f[1]);
    DigitsFree(f[0]);
    DigitsFree(f[1]);
    SplitJoin(f, TAB);
    JoinFree(f, TAB, '\n');
  }

  predicate ParentsNamed(actions: seq<Action>) {
    forall i | 0 <= i < |actions| :: Positive(actions[i].parentDevice) && Positive(actions[i].parentInode)
  }

  predicate ParentsFit(actions: seq<Action>) requires ParentsNamed(actions) {
    forall i | 0 <= i < |actions| :: ParentFits(actions[i])
  }

  lemma {:induction false} ParentsRead(actions: seq<Action>, k: nat)
    requires ParentsNamed(actions) && k <= |actions| && ParentsFit(actions[..k])
    ensures ParentsOf(ParentLines(actions)[k..], ExpectedParents(actions)[..k], |actions|) ==
      if ParentsFit(actions) then Some(ExpectedParents(actions)) else None
    decreases |actions| - k
  {
    hide ParentOf, Join, ParentFits, Positive;
    var lines, parents := ParentLines(actions), ExpectedParents(actions);
    if k == |actions| {
      assert actions[..k] == actions && parents[..k] == parents;
    } else {
      ParentRead(actions[k]);
      assert lines[k..][0] == lines[k] && lines[k..][1..] == lines[k + 1..];
      assert parents[..k] + [parents[k]] == parents[..k + 1];
      if ParentFits(actions[k]) {
        assert actions[..k + 1] == actions[..k] + [actions[k]];
        ParentsRead(actions, k + 1);
      }
    }
  }

  /** The parent manifest is parsed back to the parents of the same targets, in the same order. */
  lemma ParentsRoundTrip(actions: seq<Action>, sha: string -> string)
    requires ParentsNamed(actions)
    ensures var text := TextOf(ParentLines(actions));
      && ByteText(text)
      && ParseParents(Hex(text), sha(text), sha, |actions|) ==
        if |text| <= MANIFEST_CAP && ParentsFit(actions) then Some(ExpectedParents(actions)) else None
  {
    var lines := ParentLines(actions);
    hide ParentOf, Positive, Free, ParentFits;
    forall i | 0 <= i < |lines| ensures |lines[i]| > 0 && Free(lines[i], '\n') && Ascii(lines[i]) {
      ParentRead(actions[i]);
    }
    TextAscii(lines);
    TextBound(TextOf(lines), sha);
    PiecesLines(lines, '\n');
    assert lines[0..] == lines && ExpectedParents(actions)[..0] == [] && actions[..0] == [];
    ParentsRead(actions, 0);
    hide Bound, Hex, Unhex, Pieces, ParentsOf, Join, ParentLines, ExpectedParents, ParentsFit, Ascii, ByteText;
  }
}
