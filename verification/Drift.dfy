/** diagnostic_delta: two record cursors over two snapshot texts, merged into the exact difference. */
module Drift {
  import opened Text
  import opened Records
  import opened Sorting
  import opened Walk
  import opened Inventory

  const DIAGNOSTIC_LINE_CAP: nat := MAX_RELATIVE_BYTES * 9 + 4096

  /** canonical_relhex. */
  predicate CanonicalRelHex(text: string) {
    && HexText(text)
    && (text == "" ||
        (|text| / 2 <= MAX_RELATIVE_BYTES
         && forall i | 0 <= i < |Split(Unhex(text), '/')| :: SafeComponent(Split(Unhex(text), '/')[i])))
  }

  datatype RowType = EntryRow | IssueRow

  function Prefix(t: RowType): string { if t.EntryRow? then "ENTRY\t" else "UNRESOLVED\t" }

  predicate IsRow(t: RowType, line: string) { Prefix(t) <= line }

  /** What orders a stream: the path of an entry, the whole line of an issue. */
  function RowKey(t: RowType): string -> string {
    (line: string) => if t.EntryRow? then (var f := Split(line, TAB); if |f| > 1 then f[1] else "") else line
  }

  /** The shape checks of diagnostic_entry_next and diagnostic_issue_next. */
  predicate RowForm(t: RowType, line: string) {
    var f := Split(line, TAB);
    && |line| < DIAGNOSTIC_LINE_CAP
    && (if t.EntryRow? then |f| == 16 && f[0] == "ENTRY" && CanonicalRelHex(f[1])
        else |f| == 4 && f[0] == "UNRESOLVED" && CanonicalRelHex(f[2]) && HexDigest(f[3]))
  }

  /** The rows of one type in a text, if the cursor would reach the end without dying. */
  function RowsFrom(t: RowType, lines: seq<string>, previous: Option<string>, count: nat): Option<seq<string>> {
    if |lines| == 0 then Some([])
    else if !IsRow(t, lines[0]) then RowsFrom(t, lines[1..], previous, count)
    else if count >= ENTRY_CAP || !RowForm(t, lines[0])
      || (previous.Some? && !Less(previous.value, RowKey(t)(lines[0]))) then None
    else
      var rest := RowsFrom(t, lines[1..], Some(RowKey(t)(lines[0])), count + 1);
      if rest.None? then None else Some([lines[0]] + rest.value)
  }

  function RowsIn(t: RowType, lines: seq<string>): Option<seq<string>> { RowsFrom(t, lines, None, 0) }

  /** The lines that start with a prefix. */
  function WithPrefix(lines: seq<string>, prefix: string): seq<string> {
    if |lines| == 0 then [] else (if prefix <= lines[0] then [lines[0]] else []) + WithPrefix(lines[1..], prefix)
  }

  /** What a cursor needs of the rows still to come. */
  ghost predicate WellFormed(t: RowType, rows: seq<string>, previous: Option<string>, count: nat) {
    && (|rows| > 0 ==> count + |rows| <= ENTRY_CAP && (previous.Some? ==> Less(previous.value, RowKey(t)(rows[0]))))
    && (forall i | 0 <= i < |rows| :: RowForm(t, rows[i])) && Ascending(rows, RowKey(t))
  }

  /** A cursor reads a text to its end exactly when the rows of its type are well formed and strictly ordered,
      and then yields exactly those rows. */
  lemma {:induction false} RowsExactly(t: RowType, lines: seq<string>, previous: Option<string>, count: nat)
    ensures var rows := WithPrefix(lines, Prefix(t));
      RowsFrom(t, lines, previous, count) == if WellFormed(t, rows, previous, count) then Some(rows) else None
  {
    hide RowForm, RowKey, Less, Prefix;
    if |lines| > 0 {
      var line, rest := lines[0], lines[1..];
      var rows := WithPrefix(lines, Prefix(t));
      if !IsRow(t, line) {
        RowsExactly(t, rest, previous, count);
        assert rows == WithPrefix(rest, Prefix(t));
      } else {
        RowsExactly(t, rest, Some(RowKey(t)(line)), count + 1);
        assert rows == [line] + WithPrefix(rest, Prefix(t));
        WellFormedStep(t, rows, previous, count);
      }
    }
  }

  lemma WellFormedStep(t: RowType, rows: seq<string>, previous: Option<string>, count: nat)
    requires |rows| > 0
    ensures WellFormed(t, rows, previous, count) <==>
      && count < ENTRY_CAP && RowForm(t, rows[0]) && (previous.Some? ==> Less(previous.value, RowKey(t)(rows[0])))
      && WellFormed(t, rows[1..], Some(RowKey(t)(rows[0])), count + 1)
  {
    hide RowForm, RowKey, Less;
    var tail, key := rows[1..], RowKey(t);
    if Ascending(tail, key) && (|tail| > 0 ==> Less(key(rows[0]), key(tail[0]))) {
      forall j | 0 < j < |rows| ensures Less(key(rows[0]), key(rows[j])) {
        if j > 1 { LessTransitive(key(rows[0]), key(tail[0]), key(tail[j - 1])); }
      }
    }
    assert forall i | 0 <= i < |tail| :: tail[i] == rows[i + 1];
    assert forall i | 0 < i < |rows| :: rows[i] == tail[i - 1];
  }

  class Cursor {
    const kind: RowType
    const lines: seq<string>
    var position: nat
    var previous: Option<string>
    var count: nat

    constructor (kind: RowType, lines: seq<string>)
      ensures Valid() && this.kind == kind && this.lines == lines && Rest() == RowsIn(kind, lines)
    {
      this.kind := kind;
      this.lines := lines;
      position, previous, count := 0, None, 0;
      new;
      assert lines[0..] == lines;
    }

    ghost predicate Valid() reads this { position <= |lines| }

    ghost function Rest(): Option<seq<string>>
      reads this
      requires Valid()
    {
      RowsFrom(kind, lines[position..], previous, count)
    }

    /** The next row, or none at the end; not alive stands for die. */
    method Next() returns (alive: bool, row: Option<string>)
      requires Valid()
      modifies this
      ensures Valid() && position >= old(position) && (row.Some? ==> position > old(position))
      ensures !alive ==> old(Rest()).None?
      ensures alive && row.None? ==> old(Rest()) == Some([]) && Rest() == Some([])
      ensures alive && row.Some? ==>
        && (Rest().None? ==> old(Rest()).None?)
        && (Rest().Some? ==> old(Rest()) == Some([row.value] + Rest().value))
    {
      hide RowForm, RowKey, Less;
      while position < |lines|
        invariant Valid() && Rest() == old(Rest())
        invariant previous == old(previous) && count == old(count)
      {
        var line := lines[position];
        assert lines[position..][0] == line && lines[position..][1..] == lines[position + 1..];
        position := position + 1;
        if IsRow(kind, line) {
          if count >= ENTRY_CAP || !RowForm(kind, line)
            || (previous.Some? && !Less(previous.value, RowKey(kind)(line))) {
            return false, None;
          }
          previous, count := Some(RowKey(kind)(line)), count + 1;
          return true, Some(line);
        }
      }
      alive, row := true, None;
    }
  }

  // ----- The difference of two streams -----

  /** One difference: what the key held in the first stream and what it holds in the second. */
  datatype Delta = Delta(left: Option<string>, right: Option<string>)

  function DeltaKey(t: RowType): Delta -> string {
    (d: Delta) => if d.left.Some? then RowKey(t)(d.left.value) else if d.right.Some? then RowKey(t)(d.right.value)
      else ""
  }

  /** The merge both loops of diagnostic_delta run. */
  function Merge(t: RowType, a: seq<string>, b: seq<string>): seq<Delta>
    decreases |a| + |b|
  {
    if |a| == 0 && |b| == 0 then []
    else if |b| == 0 then [Delta(Some(a[0]), None)] + Merge(t, a[1..], b)
    else if |a| == 0 then [Delta(None, Some(b[0]))] + Merge(t, a, b[1..])
    else
      var k, l := RowKey(t)(a[0]), RowKey(t)(b[0]);
      if k == l then (if a[0] == b[0] then [] else [Delta(Some(a[0]), Some(b[0]))]) + Merge(t, a[1..], b[1..])
      else if Less(k, l) then [Delta(Some(a[0]), None)] + Merge(t, a[1..], b)
      else [Delta(None, Some(b[0]))] + Merge(t, a, b[1..])
  }

  /** Never more records than rows. */
  lemma {:induction false} MergeCount(t: RowType, a: seq<string>, b: seq<string>)
    ensures |Merge(t, a, b)| <= |a| + |b|
    decreases |a| + |b|
  {
    hide RowKey;
    if |a| > 0 && |b| > 0 { MergeCount(t, a[1..], b[1..]); }
    if |a| > 0 { MergeCount(t, a[1..], b); }
    if |b| > 0 { MergeCount(t, a, b[1..]); }
  }

  /** Without a common key, one record for each row. */
  lemma {:induction false} MergeDisjoint(t: RowType, a: seq<string>, b: seq<string>)
    requires forall x, y | x in a && y in b :: RowKey(t)(x) != RowKey(t)(y)
    ensures |Merge(t, a, b)| == |a| + |b|
    decreases |a| + |b|
  {
    hide RowKey;
    if |a| > 0 && |b| > 0 { assert a[0] in a && b[0] in b; }
    if |a| > 0 { MergeDisjoint(t, a[1..], b); }
    if |b| > 0 { MergeDisjoint(t, a, b[1..]); }
  }

  /** With only their first key in common, at most two records less. */
  lemma MergeAfterFirst(t: RowType, a: seq<string>, b: seq<string>)
    requires |a| > 0 && |b| > 0 && RowKey(t)(a[0]) == RowKey(t)(b[0])
    requires forall x, y | x in a[1..] && y in b[1..] :: RowKey(t)(x) != RowKey(t)(y)
    ensures |Merge(t, a, b)| >= |a| + |b| - 2
  {
    hide RowKey;
    MergeDisjoint(t, a[1..], b[1..]);
  }

  /** What a stream holds at a key. */
  function Find(t: RowType, a: seq<string>, key: string): Option<string> {
    if |a| == 0 then None else if RowKey(t)(a[0]) == key then Some(a[0]) else Find(t, a[1..], key)
  }

  lemma {:induction false} FindBelow(t: RowType, a: seq<string>, key: string)
    requires forall i | 0 <= i < |a| :: Less(key, RowKey(t)(a[i]))
    ensures Find(t, a, key) == None
  {
    hide RowKey;
    if |a| > 0 {
      LessIrreflexive(key);
      FindBelow(t, a[1..], key);
    }
  }

  lemma {:induction false} FindIn(t: RowType, a: seq<string>, key: string)
    ensures Find(t, a, key).Some? ==> Find(t, a, key).value in a && RowKey(t)(Find(t, a, key).value) == key
    ensures Find(t, a, key).None? ==> forall i | 0 <= i < |a| :: RowKey(t)(a[i]) != key
  {
    hide RowKey;
    if |a| > 0 { FindIn(t, a[1..], key); }
  }

  lemma AscendingTail<T>(a: seq<T>, key: T -> string)
    requires Ascending(a, key) && |a| > 0
    ensures Ascending(a[1..], key) && forall i | 0 <= i < |a[1..]| :: Less(key(a[0]), key(a[1..][i]))
  {
  }

  /** The difference reported at a key, if any. */
  function FindDelta(t: RowType, ds: seq<Delta>, key: string): Option<Delta> {
    if |ds| == 0 then None else if DeltaKey(t)(ds[0]) == key then Some(ds[0]) else FindDelta(t, ds[1..], key)
  }

  /** The merge is the exact difference: at every key it reports the two contents when they differ,
      and nothing when they do not. */
  lemma {:induction false} MergeExact(t: RowType, a: seq<string>, b: seq<string>, key: string)
    requires Ascending(a, RowKey(t)) && Ascending(b, RowKey(t))
    ensures FindDelta(t, Merge(t, a, b), key) ==
      if Find(t, a, key) == Find(t, b, key) then None else Some(Delta(Find(t, a, key), Find(t, b, key)))
    decreases |a| + |b|
  {
    hide RowKey;
    if |a| > 0 { AscendingTail(a, RowKey(t)); }
    if |b| > 0 { AscendingTail(b, RowKey(t)); }
    if |a| == 0 && |b| == 0 {
    } else if |b| == 0 {
      MergeExact(t, a[1..], b, key);
      if key == RowKey(t)(a[0]) { FindBelow(t, a[1..], key); }
    } else if |a| == 0 {
      MergeExact(t, a, b[1..], key);
      if key == RowKey(t)(b[0]) { FindBelow(t, b[1..], key); }
    } else {
      MergeExactStep(t, a, b, key);
    }
  }

  lemma {:induction false} MergeExactStep(t: RowType, a: seq<string>, b: seq<string>, key: string)
    requires Ascending(a, RowKey(t)) && Ascending(b, RowKey(t)) && |a| > 0 && |b| > 0
    ensures FindDelta(t, Merge(t, a, b), key) ==
      if Find(t, a, key) == Find(t, b, key) then None else Some(Delta(Find(t, a, key), Find(t, b, key)))
    decreases |a| + |b|, 0
  {
    hide RowKey;
    var k, l := RowKey(t)(a[0]), RowKey(t)(b[0]);
    AscendingTail(a, RowKey(t));
    AscendingTail(b, RowKey(t));
    if k == l {
      MergeExact(t, a[1..], b[1..], key);
      var rest := Merge(t, a[1..], b[1..]);
      assert Merge(t, a, b) == (if a[0] == b[0] then [] else [Delta(Some(a[0]), Some(b[0]))]) + rest;
      if a[0] == b[0] { assert Merge(t, a, b) == rest; }
      else { assert Merge(t, a, b)[1..] == rest; }
      if key == k {
        FindBelow(t, a[1..], key);
        FindBelow(t, b[1..], key);
      }
    } else if Less(k, l) {
      MergeExact(t, a[1..], b, key);
      if key == k {
        KeysAbove(t, b, k);
        FindBelow(t, b, k);
      }
    } else {
      LessTotal(k, l);
      MergeExact(t, a, b[1..], key);
      if key == l {
        KeysAbove(t, a, l);
        FindBelow(t, a, l);
      }
    }
  }

  lemma KeysAbove(t: RowType, a: seq<string>, key: string)
    requires Ascending(a, RowKey(t)) && |a| > 0 && Less(key, RowKey(t)(a[0]))
    ensures forall i | 0 <= i < |a| :: Less(key, RowKey(t)(a[i]))
  {
    hide RowKey;
    forall i | 0 < i < |a| ensures Less(key, RowKey(t)(a[i])) {
      LessTransitive(key, RowKey(t)(a[0]), RowKey(t)(a[i]));
    }
  }

  /** Reported keys come from the streams, and stay above any bound of theirs. */
  lemma {:induction false} MergeBound(t: RowType, a: seq<string>, b: seq<string>, low: string)
    requires forall i | 0 <= i < |a| :: Less(low, RowKey(t)(a[i]))
    requires forall i | 0 <= i < |b| :: Less(low, RowKey(t)(b[i]))
    ensures forall i | 0 <= i < |Merge(t, a, b)| :: Less(low, DeltaKey(t)(Merge(t, a, b)[i]))
    decreases |a| + |b|
  {
    hide RowKey;
    if |a| == 0 && |b| == 0 {
    } else if |b| == 0 {
      MergeBound(t, a[1..], b, low);
    } else if |a| == 0 {
      MergeBound(t, a, b[1..], low);
    } else {
      MergeBound(t, a[1..], b[1..], low);
      MergeBound(t, a[1..], b, low);
      MergeBound(t, a, b[1..], low);
    }
  }

  /** The report is in strict key order. */
  lemma {:induction false} MergeAscends(t: RowType, a: seq<string>, b: seq<string>)
    requires Ascending(a, RowKey(t)) && Ascending(b, RowKey(t))
    ensures Ascending(Merge(t, a, b), DeltaKey(t))
    decreases |a| + |b|
  {
    hide RowKey;
    if |a| > 0 { AscendingTail(a, RowKey(t)); }
    if |b| > 0 { AscendingTail(b, RowKey(t)); }
    if |a| == 0 && |b| == 0 {
    } else if |b| == 0 {
      MergeAscends(t, a[1..], b);
      MergeBound(t, a[1..], b, RowKey(t)(a[0]));
    } else if |a| == 0 {
      MergeAscends(t, a, b[1..]);
      MergeBound(t, a, b[1..], RowKey(t)(b[0]));
    } else {
      MergeAscendsStep(t, a, b);
    }
  }

  lemma {:induction false} MergeAscendsStep(t: RowType, a: seq<string>, b: seq<string>)
    requires Ascending(a, RowKey(t)) && Ascending(b, RowKey(t)) && |a| > 0 && |b| > 0
    ensures Ascending(Merge(t, a, b), DeltaKey(t))
    decreases |a| + |b|, 0
  {
    hide RowKey;
    var k, l := RowKey(t)(a[0]), RowKey(t)(b[0]);
    AscendingTail(a, RowKey(t));
    AscendingTail(b, RowKey(t));
    if k == l {
      MergeAscends(t, a[1..], b[1..]);
      MergeBound(t, a[1..], b[1..], k);
    } else if Less(k, l) {
      MergeAscends(t, a[1..], b);
      KeysAbove(t, b, k);
      MergeBound(t, a[1..], b, k);
    } else {
      LessTotal(k, l);
      MergeAscends(t, a, b[1..]);
      KeysAbove(t, a, l);
      MergeBound(t, a, b[1..], l);
    }
  }

  // ----- Patching -----

  /** Replace, add or remove what the reported differences say, keeping the order. */
  function Patch(t: RowType, a: seq<string>, ds: seq<Delta>): seq<string>
    decreases |a| + |ds|
  {
    if |ds| == 0 then a
    else
      var d, key := ds[0], DeltaKey(t)(ds[0]);
      var after := if d.right.Some? then [d.right.value] else [];
      if |a| == 0 then after + Patch(t, a, ds[1..])
      else if RowKey(t)(a[0]) == key then after + Patch(t, a[1..], ds[1..])
      else if Less(RowKey(t)(a[0]), key) then [a[0]] + Patch(t, a[1..], ds)
      else after + Patch(t, a, ds[1..])
  }

  /** Patching the first stream with the reported difference gives the second. */
  lemma {:induction false} PatchRestores(t: RowType, a: seq<string>, b: seq<string>)
    requires Ascending(a, RowKey(t)) && Ascending(b, RowKey(t))
    ensures Patch(t, a, Merge(t, a, b)) == b
    decreases |a| + |b|
  {
    hide RowKey;
    if |a| > 0 { AscendingTail(a, RowKey(t)); }
    if |b| > 0 { AscendingTail(b, RowKey(t)); }
    if |a| == 0 && |b| == 0 {
    } else if |b| == 0 {
      PatchRestores(t, a[1..], b);
    } else if |a| == 0 {
      PatchRestores(t, a, b[1..]);
      assert b == [b[0]] + b[1..];
    } else {
      PatchStep(t, a, b);
    }
  }

  lemma {:induction false} PatchStep(t: RowType, a: seq<string>, b: seq<string>)
    requires Ascending(a, RowKey(t)) && Ascending(b, RowKey(t)) && |a| > 0 && |b| > 0
    ensures Patch(t, a, Merge(t, a, b)) == b
    decreases |a| + |b|, 0
  {
    hide RowKey;
    var k, l := RowKey(t)(a[0]), RowKey(t)(b[0]);
    assert a == [a[0]] + a[1..] && b == [b[0]] + b[1..];
    AscendingTail(a, RowKey(t));
    AscendingTail(b, RowKey(t));
    if k == l {
      PatchRestores(t, a[1..], b[1..]);
      var rest := Merge(t, a[1..], b[1..]);
      assert Merge(t, a, b) == (if a[0] == b[0] then [] else [Delta(Some(a[0]), Some(b[0]))]) + rest;
      if a[0] == b[0] {
        assert Merge(t, a, b) == rest;
        MergeBound(t, a[1..], b[1..], k);
        PatchKeeps(t, a, rest);
      } else {
        assert Merge(t, a, b)[1..] == rest;
      }
    } else if Less(k, l) {
      PatchRestores(t, a[1..], b);
    } else {
      LessTotal(k, l);
      LessAsymmetric(l, k);
      PatchRestores(t, a, b[1..]);
    }
  }

  /** Rows below every reported key are untouched. */
  lemma PatchKeeps(t: RowType, a: seq<string>, ds: seq<Delta>)
    requires |a| > 0 && forall i | 0 <= i < |ds| :: Less(RowKey(t)(a[0]), DeltaKey(t)(ds[i]))
    ensures Patch(t, a, ds) == [a[0]] + Patch(t, a[1..], ds)
  {
    hide RowKey, DeltaKey;
    assert a == [a[0]] + a[1..];
    if |ds| > 0 { LessAsymmetric(RowKey(t)(a[0]), DeltaKey(t)(ds[0])); }
  }

  // ----- The two loops -----

  ghost function Stream(row: Option<string>, rest: Option<seq<string>>): seq<string> {
    (if row.Some? then [row.value] else []) + if rest.Some? then rest.value else []
  }

  /** What a row in hand says about the rows still to come. */
  ghost predicate StreamHead(row: Option<string>, rest: Option<seq<string>>) {
    && (row.None? <==> |Stream(row, rest)| == 0)
    && (row.Some? ==> Stream(row, rest)[0] == row.value && rest.Some? && Stream(row, rest)[1..] == rest.value)
  }

  /** One step of a cursor, in terms of the rows still to come. */
  method Advance(cursor: Cursor) returns (alive: bool, row: Option<string>)
    requires cursor.Valid()
    modifies cursor
    ensures cursor.Valid() && cursor.position >= old(cursor.position)
      && (row.Some? ==> cursor.position > old(cursor.position))
    ensures !alive ==> old(cursor.Rest()).None?
    ensures alive ==> (row.None? ==> cursor.Rest().Some?) && (old(cursor.Rest()).Some? <==> cursor.Rest().Some?)
    ensures alive && cursor.Rest().Some? ==>
      old(cursor.Rest()) == Some(Stream(row, cursor.Rest())) && StreamHead(row, cursor.Rest())
  {
    hide RowsFrom;
    alive, row := cursor.Next();
    if alive && cursor.Rest().Some? {
      assert Stream(row, cursor.Rest()) == if row.Some? then [row.value] + cursor.Rest().value else cursor.Rest().value;
      assert row.Some? ==> Stream(row, cursor.Rest())[1..] == cursor.Rest().value;
    }
  }

  /** One merge loop of diagnostic_delta: it lives exactly when both streams are well formed, and
      then reports the merge. */
  method MergeStreams(t: RowType, first: seq<string>, second: seq<string>) returns (alive: bool, ds: seq<Delta>)
    ensures alive <==> RowsIn(t, first).Some? && RowsIn(t, second).Some?
    ensures alive ==> ds == Merge(t, RowsIn(t, first).value, RowsIn(t, second).value)
  {
    MergeNothing(t);
    hide RowKey, RowsIn, RowsFrom, Less, Merge, Stream;
    ds := [];
    var one := new Cursor(t, first);
    var two := new Cursor(t, second);
    ghost var a0, b0 := one.Rest(), two.Rest();
    ghost var whole := a0.Some? && b0.Some?;
    var a, b: Option<string>;
    alive, a := Advance(one);
    if !alive { return; }
    alive, b := Advance(two);
    if !alive { return; }
    while a.Some? || b.Some?
      invariant one.Valid() && two.Valid() && alive
      invariant whole <==> one.Rest().Some? && two.Rest().Some?
      invariant (a.None? ==> one.Rest().Some?) && (b.None? ==> two.Rest().Some?)
      invariant whole ==> StreamHead(a, one.Rest()) && StreamHead(b, two.Rest())
      invariant whole ==> ds + Merge(t, Stream(a, one.Rest()), Stream(b, two.Rest())) == Merge(t, a0.value, b0.value)
      decreases |one.lines| - one.position + |two.lines| - two.position + (if a.Some? then 1 else 0)
        + (if b.Some? then 1 else 0)
    {
      ghost var x, y := Stream(a, one.Rest()), Stream(b, two.Rest());
      ghost var was := ds;
      var left := a.Some?
        && (b.None? || RowKey(t)(a.value) == RowKey(t)(b.value) || Less(RowKey(t)(a.value), RowKey(t)(b.value)));
      var right := b.Some? && (!left || (a.Some? && RowKey(t)(a.value) == RowKey(t)(b.value)));
      if !(left && right && a == b) {
        ds := ds + [Delta(if left then a else None, if right then b else None)];
      }
      if whole { MergeStepHolds(t, x, y, was, ds, left, right); }
      if left {
        alive, a := Advance(one);
        if !alive { return; }
      }
      if right {
        alive, b := Advance(two);
        if !alive { return; }
      }
    }
    if whole { assert Stream(a, one.Rest()) == [] && Stream(b, two.Rest()) == []; }
  }

  lemma MergeNothing(t: RowType)
    ensures Merge(t, [], []) == []
  {
  }

  lemma MergeLeft(t: RowType, x: seq<string>, y: seq<string>)
    requires |x| > 0 && (|y| > 0 ==> RowKey(t)(x[0]) != RowKey(t)(y[0]) && Less(RowKey(t)(x[0]), RowKey(t)(y[0])))
    ensures Merge(t, x, y) == [Delta(Some(x[0]), None)] + Merge(t, x[1..], y)
  {
    hide RowKey, Less;
  }

  lemma MergeRight(t: RowType, x: seq<string>, y: seq<string>)
    requires |y| > 0 && (|x| > 0 ==> RowKey(t)(x[0]) != RowKey(t)(y[0]) && !Less(RowKey(t)(x[0]), RowKey(t)(y[0])))
    ensures Merge(t, x, y) == [Delta(None, Some(y[0]))] + Merge(t, x, y[1..])
  {
    hide RowKey, Less;
  }

  lemma MergeBoth(t: RowType, x: seq<string>, y: seq<string>)
    requires |x| > 0 && |y| > 0 && RowKey(t)(x[0]) == RowKey(t)(y[0])
    ensures Merge(t, x, y) == (if x[0] == y[0] then [] else [Delta(Some(x[0]), Some(y[0]))]) + Merge(t, x[1..], y[1..])
  {
    hide RowKey, Less;
  }

  lemma MergeStepHolds(t: RowType, x: seq<string>, y: seq<string>, was: seq<Delta>, ds: seq<Delta>, left: bool,
    right: bool)
    requires left || right
    requires left <==>
      |x| > 0 && (|y| == 0 || RowKey(t)(x[0]) == RowKey(t)(y[0]) || Less(RowKey(t)(x[0]), RowKey(t)(y[0])))
    requires right <==> |y| > 0 && (!left || (|x| > 0 && RowKey(t)(x[0]) == RowKey(t)(y[0])))
    requires ds == if left && right && x[0] == y[0] then was
                   else was + [Delta(if left then Some(x[0]) else None, if right then Some(y[0]) else None)]
    ensures ds + Merge(t, if left then x[1..] else x, if right then y[1..] else y) == was + Merge(t, x, y)
  {
    hide RowKey, Less, Merge;
    if left && right { MergeBoth(t, x, y); }
    else if left { MergeLeft(t, x, y); }
    else { MergeRight(t, x, y); }
  }
}
