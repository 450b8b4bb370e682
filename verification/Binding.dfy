/** From parsed manifest rows to the targets of the transaction: where a path leads, and which packages name one
    object or one place twice. */
module Binding {
  import opened Text
  import opened Records
  import opened Manifest
  import opened Package
  import opened Targets
  import Disk

  // ----- Where a path leads -----

  /** Directory components as the kernel resolves them: a dot stays where it is. */
  function DropDots(parts: seq<string>): seq<string> {
    if |parts| == 0 then [] else (if parts[0] == "." then [] else [parts[0]]) + DropDots(parts[1..])
  }

  /** split_path and open_parent_path. A final dot or dot-dot is never a regular file, so such a row is refused when
      the file is opened. */
  function Locate(row: Row, parent: Parent): Disk.Option<Target> { Place(Split(row.path, '/'), row, parent) }

  function Place(parts: seq<string>, row: Row, parent: Parent): Disk.Option<Target>
    requires |parts| >= 1
  {
    var name := parts[|parts| - 1];
    if !Component(name) || |name| >= 256 then Disk.None
    else
      Disk.Some(Target(DropDots(parts[..|parts| - 1]), name, row.sha, row.size, row.mode, row.uid, row.gid,
                       Disk.FileId(parent.dev, parent.ino), Disk.FileId(row.dev, row.ino)))
  }

  ghost predicate Located(rows: seq<Row>, parents: seq<Parent>, ts: seq<Target>) {
    |rows| == |parents| == |ts| && forall i | 0 <= i < |ts| :: Locate(rows[i], parents[i]) == Disk.Some(ts[i])
  }

  lemma {:induction false} NoDots(parts: seq<string>)
    requires forall i | 0 <= i < |parts| :: Component(parts[i])
    ensures DropDots(parts) == parts
  {
    if |parts| > 0 { NoDots(parts[1..]); }
  }

  /** Paths made of names lead to different places when they differ. */
  lemma NormalPlaces(p: string, q: string)
    requires Normal(p) && Normal(q) && p != q
    ensures var x, y := Split(p, '/'), Split(q, '/');
      DropDots(x[..|x| - 1]) != DropDots(y[..|y| - 1]) || x[|x| - 1] != y[|y| - 1]
  {
    hide Split, Join, DropDots, Normal;
    var x, y := Split(p, '/'), Split(q, '/');
    NamesOnly(p);
    NamesOnly(q);
    JoinSplit(p, '/');
    JoinSplit(q, '/');
    assert x == x[..|x| - 1] + [x[|x| - 1]] && y == y[..|y| - 1] + [y[|y| - 1]];
  }

  lemma NamesOnly(p: string)
    requires Normal(p)
    ensures var x := Split(p, '/'); DropDots(x[..|x| - 1]) == x[..|x| - 1]
  {
    var x := Split(p, '/');
    hide Split, Component;
    NoDots(x[..|x| - 1]);
  }

  lemma ObjectsDiffer(a: Action, b: Action)
    requires Positive(a.device) && Positive(a.inode) && Positive(b.device) && Positive(b.inode)
    requires (a.device, a.inode) != (b.device, b.inode)
    ensures (ParseDecimal(a.device), ParseDecimal(a.inode)) != (ParseDecimal(b.device), ParseDecimal(b.inode))
  {
    CanonicalInverse(a.device);
    CanonicalInverse(b.device);
    CanonicalInverse(a.inode);
    CanonicalInverse(b.inode);
  }

  /** The targets of a package are different objects at different places: no two manifest rows can defeat each
      other. */
  lemma PackageTargets(root: string, actions: seq<Action>, ts: seq<Target>)
    requires PackageForm(root, actions) && Located(ExpectedRows(root, actions), ExpectedParents(actions), ts)
    ensures DistinctFiles(ts)
    ensures forall i, j | 0 <= i < j < |ts| :: ts[i].Live() != ts[j].Live() && ts[i].Quar() != ts[j].Quar()
    ensures AliasModesAgree(ts)
  {
    hide PackageForm, Located;
    forall i, j | 0 <= i < j < |ts|
      ensures ts[i].file != ts[j].file && ts[i].Live() != ts[j].Live() && ts[i].Quar() != ts[j].Quar()
    {
      PairApart(root, actions, ts, i, j);
    }
  }

  lemma PairApart(root: string, actions: seq<Action>, ts: seq<Target>, i: nat, j: nat)
    requires PackageForm(root, actions) && Located(ExpectedRows(root, actions), ExpectedParents(actions), ts)
      && i < j < |ts|
    ensures ts[i].file != ts[j].file && ts[i].Live() != ts[j].Live() && ts[i].Quar() != ts[j].Quar()
  {
    assert Less(actions[i].path, actions[j].path);
    assert (actions[i].device, actions[i].inode) != (actions[j].device, actions[j].inode);
    ActionsApart(root, actions[i], actions[j], ts[i], ts[j]);
  }

  /** Where a located row leads. */
  lemma LocatedAt(root: string, a: Action, x: Target)
    requires ActionForm(root, a) && Locate(ExpectedRow(root, a), ExpectedParent(a)) == Disk.Some(x)
    ensures Positive(a.device) && Positive(a.inode) && Normal(RelativeTo(root, a.path))
      && a.path == root + "/" + RelativeTo(root, a.path)
    ensures x.file == Disk.FileId(ParseDecimal(a.device), ParseDecimal(a.inode))
    ensures var parts := Split(RelativeTo(root, a.path),
      '/'); x.dir == DropDots(parts[..|parts| - 1]) && x.name == parts[|parts| - 1]
  {
    hide Normal, Positive, Split, DropDots, Component, ByteText, HexDigest, ModeText, NumberText, ParseOctal;
    assert a.path == root + "/" + RelativeTo(root, a.path);
  }

  lemma ActionsApart(root: string, a: Action, b: Action, x: Target, y: Target)
    requires ActionForm(root, a) && ActionForm(root, b) && Less(a.path, b.path)
      && (a.device, a.inode) != (b.device, b.inode)
    requires Locate(ExpectedRow(root, a), ExpectedParent(a)) == Disk.Some(x)
    requires Locate(ExpectedRow(root, b), ExpectedParent(b)) == Disk.Some(y)
    ensures x.file != y.file && x.Live() != y.Live() && x.Quar() != y.Quar()
  {
    LocatedAt(root, a, x);
    LocatedAt(root, b, y);
    hide *;
    LessIrreflexive(a.path);
    ObjectsDiffer(a, b);
    NormalPlaces(RelativeTo(root, a.path), RelativeTo(root, b.path));
    SlotsDiffer(x, y);
  }

  lemma SlotsDiffer(x: Target, y: Target)
    requires x.dir != y.dir || x.name != y.name
    ensures x.Live() != y.Live() && x.Quar() != y.Quar()
  {
  }

  /** The parser alone does not exclude it: with any path it accepts, it also accepts the same path behind a dot
      component, and both rows lead to one place. */
  lemma AliasAccepted(p: string, row: Row, parent: Parent)
    requires Normal(p) && PathAccepted(p) && |p| + 2 <= PATH_CAP && row.path == p
    requires Locate(row, parent).Some?
    ensures PathAccepted("./" + p) && ("./" + p) != p && (Less("./" + p, p) || Less(p, "./" + p))
    ensures var other := Locate(row.(path := "./" + p), parent);
      other.Some? && other.value.Live() == Locate(row, parent).value.Live()
  {
    hide *;
    var q := "./" + p;
    assert q == "." + ['/'] + p && |q| == |p| + 2;
    LessTotal(q, p);
    DottedAccepted(p);
    DottedSplits(p);
    LocateIs(row, parent);
    LocateIs(row.(path := q), parent);
    PlaceDotted(Split(p, '/'), row, row.(path := q), parent);
  }

  lemma DottedSplits(p: string)
    ensures Split("." + ['/'] + p, '/') == ["."] + Split(p, '/')
  {
    SplitStep(".", '/', p);
  }

  lemma LocateIs(row: Row, parent: Parent)
    ensures Locate(row, parent) == Place(Split(row.path, '/'), row, parent)
  {
  }

  lemma PlaceDotted(parts: seq<string>, row: Row, dotted: Row, parent: Parent)
    requires |parts| >= 1 && Place(parts, row, parent).Some?
    ensures var other := Place(["."] + parts, dotted, parent);
      other.Some? && other.value.Live() == Place(parts, row, parent).value.Live()
  {
    var longer := ["."] + parts;
    assert longer[|longer| - 1] == parts[|parts| - 1] && longer[..|longer| - 1] == ["."] + parts[..|parts| - 1];
    DropFirst(parts[..|parts| - 1]);
    hide DropDots;
  }

  lemma DropFirst(parts: seq<string>)
    ensures DropDots(["."] + parts) == DropDots(parts)
  {
    assert (["."] + parts)[1..] == parts;
  }

  lemma DottedAccepted(p: string)
    requires Normal(p) && PathAccepted(p) && |p| + 2 <= PATH_CAP
    ensures PathAccepted("." + ['/'] + p)
  {
    var q := "." + ['/'] + p;
    NormalPath(p);
    DotsStep(".", p);
    SlashesStep(".", p);
    NotBelow(q);
    TailDots(".", p);
    hide Normal, Contains, Split, EndsInDots;
    assert forall i | 2 <= i < |q| :: q[i] == p[i - 2];
    assert !EndsInDots(".") by { NoDotsEnd(); }
  }

  lemma NoDotsEnd()
    ensures !EndsInDots(".")
  {
  }

  lemma NotBelow(q: string)
    requires !Contains(q, "../")
    ensures !Contains(q, "/../")
  {
    forall i | 0 <= i <= |q| ensures !PartAt(q, "/../", i) {
      assert !PartAt(q, "../", i + 1) || i + 1 > |q|;
      if i + 4 <= |q| { assert q[i..i + 4][1..] == q[i + 1..i + 4]; }
    }
  }
}
