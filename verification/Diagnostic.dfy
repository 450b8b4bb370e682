/** The diagnostic stream: what the helper prints about two differing snapshots. */
module Diagnostic {
  import opened Text
  import opened Records
  import opened Sorting
  import opened Walk
  import opened Inventory
  import opened Agreement
  import opened Drift

  // ----- Bindings of a snapshot text -----

  predicate FieldsFit(f: Fields, cap: nat) { forall i | 0 <= i < |f| :: |f[i]| < cap }

  /** parse_diagnostic_bindings lives exactly on these texts. */
  predicate Bindable(lines: seq<string>) {
    var roots, runtimes := WithPrefix(lines, "ROOT\t"), WithPrefix(lines, "RUNTIME\t");
    && |roots| == 1 && |runtimes| == 1
    && |roots[0]| < DIAGNOSTIC_LINE_CAP && |Split(roots[0], TAB)| == 11 && FieldsFit(Split(roots[0], TAB), 8193)
    && |runtimes[0]| < DIAGNOSTIC_LINE_CAP && |Split(runtimes[0], TAB)| == 5 && FieldsFit(Split(runtimes[0], TAB), 1025)
  }

  function RootOf(lines: seq<string>): (f: Fields)
    requires Bindable(lines)
    ensures |f| == 11
  {
    Split(WithPrefix(lines, "ROOT\t")[0], TAB)
  }

  function RuntimeOf(lines: seq<string>): (f: Fields)
    requires Bindable(lines)
    ensures |f| == 5
  {
    Split(WithPrefix(lines, "RUNTIME\t")[0], TAB)
  }

  /** Both passes describe one root path and one runtime, the one given to the helper. */
  predicate SameBinding(first: seq<string>, second: seq<string>, helperSha: string) {
    && Bindable(first) && Bindable(second)
    && RootOf(first)[1] == RootOf(second)[1]
    && RuntimeOf(first)[1] == RuntimeOf(second)[1] && RuntimeOf(first)[2] == RuntimeOf(second)[2]
    && RuntimeOf(first)[3] == RuntimeOf(second)[3] == helperSha && RuntimeOf(first)[4] == RuntimeOf(second)[4]
  }

  // ----- Records -----

  /** diagnostic_change. */
  function Change(left: Option<Fields>, right: Option<Fields>): string
    requires left.Some? ==> |left.value| == 16
    requires right.Some? ==> |right.value| == 16
  {
    if left.None? then "CREATED"
    else if right.None? then "DELETED"
    else if left.value[3] != right.value[3] || left.value[10] != right.value[10] || left.value[11] != right.value[11]
      then "REPLACED"
    else "MODIFIED"
  }

  /** The thirteen values printed for one side. */
  function Columns(f: Option<Fields>): (c: Fields)
    requires f.Some? ==> |f.value| == 16
    ensures |c| == 13
  {
    if f.None? then ["-", "-", "-", "-", "-", "-", "-", "-", "-", "-", "-", "-", "-"]
    else
      var v := f.value;
      [v[3], v[10], v[11], v[4], v[5], v[6], v[7], v[12], v[8], v[9], v[14], v[13], v[15]]
  }

  function SplitRow(line: Option<string>): Option<Fields> {
    if line.None? then None else Some(Split(line.value, TAB))
  }

  predicate EntryDelta(d: Delta) {
    && (d.left.Some? || d.right.Some?)
    && (d.left.Some? ==> |Split(d.left.value, TAB)| == 16) && (d.right.Some? ==> |Split(d.right.value, TAB)| == 16)
  }

  predicate IssueDelta(d: Delta) {
    && (d.left.Some? || d.right.Some?)
    && (d.left.Some? ==> |Split(d.left.value, TAB)| == 4) && (d.right.Some? ==> |Split(d.right.value, TAB)| == 4)
  }

  function DriftFields(d: Delta): (f: Fields)
    requires EntryDelta(d)
    ensures |f| == 31
  {
    var left, right := SplitRow(d.left), SplitRow(d.right);
    ["DRIFT", if left.Some? then left.value[1] else right.value[1], Change(left, right), Truth(left.Some?), Truth(right.Some?)]
    + Columns(left) + Columns(right)
  }

  function DriftLine(d: Delta): string requires EntryDelta(d) { Join(DriftFields(d), TAB) }

  function DriftIssueFields(d: Delta): (f: Fields)
    requires IssueDelta(d)
    ensures |f| == 6
  {
    var issue := Split(if d.left.Some? then d.left.value else d.right.value, TAB);
    ["DRIFT_ISSUE", issue[2], issue[1], issue[3], Truth(d.left.Some?), Truth(d.right.Some?)]
  }

  function DriftIssueLine(d: Delta): string requires IssueDelta(d) { Join(DriftIssueFields(d), TAB) }

  function DriftLines(ds: seq<Delta>): (lines: seq<string>)
    requires forall i | 0 <= i < |ds| :: EntryDelta(ds[i])
    ensures |lines| == |ds|
  {
    seq(|ds|, i requires 0 <= i < |ds| => DriftLine(ds[i]))
  }

  function DriftIssueLines(ds: seq<Delta>): (lines: seq<string>)
    requires forall i | 0 <= i < |ds| :: IssueDelta(ds[i])
    ensures |lines| == |ds|
  {
    seq(|ds|, i requires 0 <= i < |ds| => DriftIssueLine(ds[i]))
  }

  /** What a run binds besides the two texts. */
  datatype Run = Run(nonce: string, helperSha: string, identity: ByteString, sha: string -> string)

  function HeaderFields(run: Run, first: seq<string>, second: seq<string>, deltas: nat, issues: nat): (f: Fields)
    requires Bindable(first) && Bindable(second)
    ensures |f| == 16
  {
    ["DRIFT_DIAGNOSTIC", "SIGNED_DRIFT_DIAGNOSTIC_MODE_V1", RootOf(first)[1], RootOf(first)[3], RootOf(first)[4],
     RootOf(second)[3], RootOf(second)[4], run.sha(Concat(first)), run.sha(Concat(second)), run.helperSha,
     RuntimeOf(first)[4], Hex(run.identity), Decimal(deltas), Decimal(issues), "READ_ONLY", "NON_AUTHORIZING"]
  }

  function NonceLine(run: Run): string { "CAPTURE_NONCE\t" + run.nonce }

  /** Both streams of both texts can be read. */
  predicate StreamsReadable(first: seq<string>, second: seq<string>) {
    && RowsIn(EntryRow, first).Some? && RowsIn(EntryRow, second).Some?
    && RowsIn(IssueRow, first).Some? && RowsIn(IssueRow, second).Some?
  }

  function EntryDeltas(first: seq<string>, second: seq<string>): seq<Delta> requires StreamsReadable(first, second) {
    Merge(EntryRow, RowsIn(EntryRow, first).value, RowsIn(EntryRow, second).value)
  }

  function IssueDeltas(first: seq<string>, second: seq<string>): seq<Delta> requires StreamsReadable(first, second) {
    Merge(IssueRow, RowsIn(IssueRow, first).value, RowsIn(IssueRow, second).value)
  }

  /** Every row of a readable stream has the shape its cursor checked. */
  lemma {:induction false} RowsFromForm(t: RowType, lines: seq<string>, previous: Option<string>, count: nat)
    requires RowsFrom(t, lines, previous, count).Some?
    ensures forall i | 0 <= i < |RowsFrom(t, lines, previous, count).value| ::
      RowForm(t, RowsFrom(t, lines, previous, count).value[i])
  {
    hide RowForm, RowKey, Less;
    if |lines| > 0 {
      if !IsRow(t, lines[0]) { RowsFromForm(t, lines[1..], previous, count); }
      else { RowsFromForm(t, lines[1..], Some(RowKey(t)(lines[0])), count + 1); }
    }
  }

  /** Every difference comes from the streams, names one side at least, and is a difference. */
  lemma {:induction false} MergeFrom(t: RowType, a: seq<string>, b: seq<string>)
    ensures forall i | 0 <= i < |Merge(t, a, b)| ::
      var d := Merge(t, a, b)[i];
      && (d.left.Some? || d.right.Some?) && d.left != d.right
      && (d.left.Some? ==> d.left.value in a) && (d.right.Some? ==> d.right.value in b)
      && (d.left.Some? && d.right.Some? ==> RowKey(t)(d.left.value) == RowKey(t)(d.right.value))
    decreases |a| + |b|
  {
    hide RowKey, Less;
    if |a| == 0 && |b| == 0 {
    } else if |b| == 0 {
      MergeFrom(t, a[1..], b);
    } else if |a| == 0 {
      MergeFrom(t, a, b[1..]);
    } else {
      MergeFrom(t, a[1..], b[1..]);
      MergeFrom(t, a[1..], b);
      MergeFrom(t, a, b[1..]);
    }
  }

  lemma DeltasForm(first: seq<string>, second: seq<string>)
    requires StreamsReadable(first, second)
    ensures forall i | 0 <= i < |EntryDeltas(first, second)| :: EntryDelta(EntryDeltas(first, second)[i])
    ensures forall i | 0 <= i < |IssueDeltas(first, second)| :: IssueDelta(IssueDeltas(first, second)[i])
  {
    StreamDeltas(EntryRow, first, second);
    StreamDeltas(IssueRow, first, second);
  }

  lemma StreamDeltas(t: RowType, first: seq<string>, second: seq<string>)
    requires RowsIn(t, first).Some? && RowsIn(t, second).Some?
    ensures forall i | 0 <= i < |Merge(t, RowsIn(t, first).value, RowsIn(t, second).value)| ::
      var d := Merge(t, RowsIn(t, first).value, RowsIn(t, second).value)[i];
      if t.EntryRow? then EntryDelta(d) else IssueDelta(d)
  {
    var a, b := RowsIn(t, first).value, RowsIn(t, second).value;
    RowsFromForm(t, first, None, 0);
    RowsFromForm(t, second, None, 0);
    hide RowsIn, Merge, RowKey, Split;
    MergeFrom(t, a, b);
    forall i | 0 <= i < |Merge(t, a, b)|
      ensures var d := Merge(t, a, b)[i]; if t.EntryRow? then EntryDelta(d) else IssueDelta(d)
    {
      var d := Merge(t, a, b)[i];
      assert d.left.Some? ==> RowForm(t, d.left.value);
      assert d.right.Some? ==> RowForm(t, d.right.value);
    }
  }

  /** The text diagnostic_delta returns. */
  function StreamLines(run: Run, first: seq<string>, second: seq<string>): seq<string>
    requires Bindable(first) && Bindable(second) && StreamsReadable(first, second)
  {
    DeltasForm(first, second);
    var ds, us := EntryDeltas(first, second), IssueDeltas(first, second);
    [NonceLine(run), Join(HeaderFields(run, first, second, |ds|, |us|), TAB)] + DriftLines(ds) + DriftIssueLines(us)
  }

  /** What the check before the output asks; else the helper dies with "diagnostic mismatch not fully explainable". */
  predicate Explainable(deltas: nat, issues: nat) { deltas <= ENTRY_CAP && issues <= ENTRY_CAP && deltas + issues > 0 }

  /** What lines_add asks of one list of lines as it grows; else the helper dies with one of its two caps. */
  predicate Collectable(lines: seq<string>) { Size(lines) <= MAX_OUTPUT_BYTES && |lines| <= 3 * ENTRY_CAP }

  /** Both lists of differences could be collected. */
  predicate Collected(first: seq<string>, second: seq<string>)
    requires Bindable(first) && Bindable(second) && StreamsReadable(first, second)
  {
    DeltasForm(first, second);
    Collectable(DriftLines(EntryDeltas(first, second))) && Collectable(DriftIssueLines(IssueDeltas(first, second)))
  }

  /** Two texts on which the helper dies with that message. */
  predicate Unexplained(run: Run, first: seq<string>, second: seq<string>) {
    && first != second && SameBinding(first, second, run.helperSha) && Bindable(first) && Bindable(second)
    && StreamsReadable(first, second)
    && Collected(first, second) && !Explainable(|EntryDeltas(first, second)|, |IssueDeltas(first, second)|)
  }

  /** How diagnostic_delta ends, as far as the record counts decide it. */
  datatype Ending = PRINTED | UNEXPLAINED | OTHER_DEATH

  /** The caps on the number of records and on the bytes printed. */
  predicate WithinCaps(run: Run, first: seq<string>, second: seq<string>)
    requires Bindable(first) && Bindable(second) && StreamsReadable(first, second)
  {
    var ds, us := EntryDeltas(first, second), IssueDeltas(first, second);
    Explainable(|ds|, |us|) && Size(StreamLines(run, first, second)) + 1 <= MAX_OUTPUT_BYTES
  }

  /** diagnostic_delta: not alive stands for die. */
  method DiagnosticDelta(run: Run, first: seq<string>, second: seq<string>)
    returns (alive: bool, lines: seq<string>, ending: Ending)
    ensures alive <==>
      first != second && SameBinding(first, second, run.helperSha) && StreamsReadable(first, second)
        && WithinCaps(run, first, second)
    ensures alive ==> lines == StreamLines(run, first, second)
    ensures (alive <==> ending == PRINTED) && (ending == UNEXPLAINED <==> Unexplained(run, first, second))
  {
    hide SameBinding, StreamsReadable, RowsIn, Merge, StreamLines, Size, DriftLine, DriftIssueLine, HeaderFields;
    lines, ending := [], OTHER_DEATH;
    if first == second { return false, lines, ending; }
    if !SameBinding(first, second, run.helperSha) { return false, lines, ending; }
    assert Bindable(first) && Bindable(second) by { Bound(run, first, second); }
    var ds, us;
    alive, ds := MergeStreams(EntryRow, first, second);
    if !alive { StreamsAre(first, second); return; }
    alive, us := MergeStreams(IssueRow, first, second);
    StreamsAre(first, second);
    if !alive { return; }
    StreamIs(run, first, second);
    assert ds == EntryDeltas(first, second) && us == IssueDeltas(first, second);
    if !Collectable(DriftLines(ds)) || !Collectable(DriftIssueLines(us)) {
      CollectedIn(run, first, second);
      return false, lines, ending;
    }
    if !Explainable(|ds|, |us|) { return false, lines, UNEXPLAINED; }
    lines := [NonceLine(run), Join(HeaderFields(run, first, second, |ds|, |us|), TAB)] + DriftLines(ds)
      + DriftIssueLines(us);
    alive := Size(lines) + 1 <= MAX_OUTPUT_BYTES;
    if alive { ending := PRINTED; }
  }

  lemma {:induction false} SizeConcat(a: seq<string>, b: seq<string>)
    ensures Size(a + b) == Size(a) + Size(b)
  {
    if |a| == 0 {
      assert a + b == b;
    } else {
      assert (a + b)[1..] == a[1..] + b;
      SizeConcat(a[1..], b);
    }
  }

  /** Whatever could be printed could be collected. */
  lemma CollectedIn(run: Run, first: seq<string>, second: seq<string>)
    requires Bindable(first) && Bindable(second) && StreamsReadable(first, second)
    ensures WithinCaps(run, first, second) ==> Collected(first, second)
  {
    DeltasForm(first, second);
    var ds, us := EntryDeltas(first, second), IssueDeltas(first, second);
    var head := [NonceLine(run), Join(HeaderFields(run, first, second, |ds|, |us|), TAB)];
    hide EntryDeltas, IssueDeltas, DriftLine, DriftIssueLine, HeaderFields, StreamsReadable, Bindable, Size, NonceLine,
      Join;
    SizeConcat(head, DriftLines(ds));
    SizeConcat(head + DriftLines(ds), DriftIssueLines(us));
  }

  /** The bytes of short lines. */
  lemma {:induction false} ShortCollectable(lines: seq<string>, width: nat)
    requires forall i | 0 <= i < |lines| :: |lines[i]| < width
    ensures Size(lines) <= |lines| * width
  {
    if |lines| > 0 { ShortCollectable(lines[1..], width); }
  }

  lemma Bound(run: Run, first: seq<string>, second: seq<string>)
    requires SameBinding(first, second, run.helperSha)
    ensures Bindable(first) && Bindable(second)
  {
  }

  lemma StreamsAre(first: seq<string>, second: seq<string>)
    ensures StreamsReadable(first, second) <==>
      && RowsIn(EntryRow, first).Some? && RowsIn(EntryRow, second).Some?
      && RowsIn(IssueRow, first).Some? && RowsIn(IssueRow, second).Some?
  {
  }

  lemma StreamIs(run: Run, first: seq<string>, second: seq<string>)
    requires Bindable(first) && Bindable(second) && StreamsReadable(first, second)
    ensures forall i | 0 <= i < |EntryDeltas(first, second)| :: EntryDelta(EntryDeltas(first, second)[i])
    ensures forall i | 0 <= i < |IssueDeltas(first, second)| :: IssueDelta(IssueDeltas(first, second)[i])
    ensures var ds, us := EntryDeltas(first, second), IssueDeltas(first, second);
      StreamLines(run, first, second)
      == [NonceLine(run), Join(HeaderFields(run, first, second, |ds|, |us|), TAB)] + DriftLines(ds)
        + DriftIssueLines(us)
  {
    DeltasForm(first, second);
    hide EntryDeltas, IssueDeltas, DriftLines, DriftIssueLines, HeaderFields;
  }
}
