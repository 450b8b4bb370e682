/** classify and surface_derive: one object for each hashed regular file and each record without a file, and the
    verdict on all of them. */
module Verdict {
  import opened Text
  import opened Records
  import opened Sorting
  import opened Inventory
  import opened Volatile
  import opened Evidence

  // ----- One entry -----

  datatype Outcome = PASS | ACTION_REQUIRED | UNRESOLVED

  /** `rules` are printed sorted; `entry` stands for the copied fields, absent for a record without a file. */
  datatype Object = Object(path: string, entry: Option<Fields>, objectClass: string, location: string, outcome: Outcome,
                           disposition: string, rules: set<string>, provenance: Option<Record>)

  function LastOf(parts: seq<string>): string requires |parts| >= 1 { parts[|parts| - 1] }

  /** Position after the last occurrence, or 0. */
  function AfterLast(s: string, c: char): (k: nat)
    ensures k <= |s| && (k > 0 ==> s[k - 1] == c) && forall i | k <= i < |s| :: s[i] != c
  {
    if |s| == 0 then 0 else if s[|s| - 1] == c then |s| else AfterLast(s[..|s| - 1], c)
  }

  /** PurePosixPath.suffix of a final component. */
  function Suffix(name: string): string {
    var k := AfterLast(name, '.');
    if 1 < k < |name| then name[k - 1..] else ""
  }

  function LowerPath(f: Fields): string requires |f| == 16 && HexText(f[1]) { Lower(Unhex(f[1])) }

  predicate Runs(f: Fields, rule: Ruleset) requires |f| == 16 && HexText(f[1]) && ModeText(f[5]) {
    Suffix(LastOf(Split(LowerPath(f), '/'))) in rule.suffixes || Executable(ParseOctal(f[5]))
  }

  predicate UnderRuntime(text: string, roots: seq<string>) {
    exists i | 0 <= i < |roots| :: text == roots[i] || roots[i] + "/" <= text
  }

  predicate Uploaded(f: Fields) requires |f| == 16 { f[15] == "1" }

  /** What only the file itself decides. */
  predicate Dangerous(f: Fields, rule: Ruleset) requires EntryRowOk(f) {
    f[14] in rule.malicious || (Runs(f, rule) && Uploaded(f))
  }

  function ClassOf(f: Fields, rule: Ruleset): string requires EntryRowOk(f) {
    var text := LowerPath(f);
    if LastOf(Split(text, '/')) in rule.configNames then "CONFIG"
    else if text in rule.dropins then "DROPIN"
    else if UnderRuntime(text, rule.runtimeRoots) then "RUNTIME"
    else if Runs(f, rule) then "EXECUTABLE"
    else "REGULAR_CONTENT"
  }

  function LocationOf(f: Fields, rule: Ruleset): string requires EntryRowOk(f) {
    var text := LowerPath(f);
    if Uploaded(f) then "UPLOADS"
    else if '/' !in Unhex(f[1]) then "ROOT"
    else if UnderRuntime(text, rule.runtimeRoots) || text in rule.dropins then "WORDPRESS_RUNTIME"
    else "OTHER"
  }

  function OutcomeOf(f: Fields, rule: Ruleset, record: Option<Record>): Outcome requires EntryRowOk(f) {
    if Dangerous(f, rule) then ACTION_REQUIRED
    else if record.Some? && record.value.sha == f[14] then PASS
    else UNRESOLVED
  }

  function DispositionOf(f: Fields, rule: Ruleset, record: Option<Record>): string requires EntryRowOk(f) {
    if Runs(f, rule) && Uploaded(f) then "EXECUTABLE_UPLOAD"
    else if f[14] in rule.malicious then "KNOWN_MALICIOUS_EXACT"
    else if record.None? then "UNKNOWN_SECURITY_RELEVANT_CONTENT"
    else if record.value.sha == f[14] then record.value.disposition
    else "CONTRADICTORY_PROVENANCE"
  }

  /** The findings a file earns by itself, and the one its record adds. */
  function RulesOf(f: Fields, rule: Ruleset, record: Option<Record>): set<string> requires EntryRowOk(f) {
    (if f[14] in rule.malicious then {rule.malicious[f[14]]} else {})
    + (if Runs(f, rule) && Uploaded(f) then {rule.uploadsRule} else {})
    + (if record.None? then (if Dangerous(f, rule) then {} else {"SECURITY_RELEVANT_PROVENANCE_REQUIRED"})
       else if record.value.sha != f[14] then {"PROVENANCE_CONTENT_IDENTITY_MISMATCH"}
       else if Dangerous(f, rule) then {"PROVENANCE_CANNOT_DOWNGRADE_ACTION_REQUIRED"}
       else {"EXACT_SIGNED_PROVENANCE_MATCH"})
  }

  function Judged(f: Fields, rule: Ruleset, record: Option<Record>): Object requires EntryRowOk(f) {
    Object(f[1], Some(f), ClassOf(f, rule), LocationOf(f, rule), OutcomeOf(f, rule, record),
      DispositionOf(f, rule, record),
           RulesOf(f, rule, record), record)
  }

  /** classify: findings accumulate, and the result is rewritten as each test fires. */
  method Classify(f: Fields, rule: Ruleset, record: Option<Record>) returns (o: Object)
    requires EntryRowOk(f)
    ensures o == Judged(f, rule, record)
  {
    hide Split, Lower, Suffix, UnderRuntime, Unhex, HexText, HexDigest, ParseOctal, RelativeOk, ClassOf, LocationOf;
    var runs, dangerous := Runs(f, rule), false;
    var rules: set<string> := {};
    var outcome, disposition := UNRESOLVED, "UNKNOWN_SECURITY_RELEVANT_CONTENT";
    if f[14] in rule.malicious {
      rules := rules + {rule.malicious[f[14]]};
      outcome, disposition := ACTION_REQUIRED, "KNOWN_MALICIOUS_EXACT";
    }
    if runs && Uploaded(f) {
      rules := rules + {rule.uploadsRule};
      outcome, disposition := ACTION_REQUIRED, "EXECUTABLE_UPLOAD";
    }
    if record.Some? {
      if record.value.sha != f[14] {
        rules := rules + {"PROVENANCE_CONTENT_IDENTITY_MISMATCH"};
        if outcome != ACTION_REQUIRED { outcome, disposition := UNRESOLVED, "CONTRADICTORY_PROVENANCE"; }
      } else if outcome == ACTION_REQUIRED {
        rules := rules + {"PROVENANCE_CANNOT_DOWNGRADE_ACTION_REQUIRED"};
      } else {
        rules := rules + {"EXACT_SIGNED_PROVENANCE_MATCH"};
        outcome, disposition := PASS, record.value.disposition;
      }
    }
    if rules == {} { rules := {"SECURITY_RELEVANT_PROVENANCE_REQUIRED"}; }
    assert f[14] in rule.malicious ==> rule.malicious[f[14]] in rules;
    assert runs && Uploaded(f) ==> rule.uploadsRule in rules;
    o := Object(f[1], Some(f), ClassOf(f, rule), LocationOf(f, rule), outcome, disposition, rules, record);
  }

  /** No record, matching or not, takes back a required action or one of its findings. */
  lemma NoDowngrade(f: Fields, rule: Ruleset, record: Option<Record>)
    requires EntryRowOk(f)
    ensures Judged(f, rule, record).outcome == ACTION_REQUIRED <==> Judged(f, rule, None).outcome == ACTION_REQUIRED
    ensures Judged(f, rule, None).outcome == ACTION_REQUIRED ==>
      && Judged(f, rule, record).disposition == Judged(f, rule, None).disposition
      && Judged(f, rule, None).rules <= Judged(f, rule, record).rules
  {
    hide Runs, ClassOf, LocationOf, EntryRowOk;
  }

  // ----- The surface -----

  predicate Hashed(f: Fields) { |f| == 16 && f[3] == "REGULAR" && f[14] != "-" }

  function RecordFor(records: seq<Record>, path: string): Option<Record> {
    if path in IndexRecords(records) then Some(IndexRecords(records)[path]) else None
  }

  /** The object of a record that names nothing in the inventory. */
  function Absent(r: Record): Object {
    Object(r.path, None, "EXPECTED_PROVENANCE_OBJECT", "UNKNOWN", UNRESOLVED, "PROVENANCE_OBJECT_ABSENT",
      {"PROVENANCE_OBJECT_ABSENT"}, Some(r))
  }

  predicate Listed(entries: seq<Fields>, path: string) {
    exists i | 0 <= i < |entries| :: |entries[i]| == 16 && entries[i][1] == path
  }

  function ObjectPath(): Object -> string { (o: Object) => o.path }

  function Count(objects: seq<Object>, outcome: Outcome): nat {
    if |objects| == 0 then 0
      else Count(objects[..|objects| - 1], outcome) + if objects[|objects| - 1].outcome == outcome then 1 else 0
  }

  datatype State = COMPLETE_NO_ACTION | COMPLETE_ACTION_REQUIRED | UNRESOLVED_NON_CLEAN

  datatype Surface = Surface(objects: seq<Object>, passed: nat, action: nat, unresolved: nat, state: State)

  /** What surface_derive is given after its inputs have been checked: unique readable rows, strictly ordered
      records. */
  ghost predicate Checked(entries: seq<Fields>, records: seq<Record>) {
    RowsShaped(entries) && PathsUnique(entries) && Ascending(records, RecordPath())
  }

  /** The objects, in terms of the inputs: each hashed regular file once, each record without an entry once. */
  ghost predicate IsObject(o: Object, entries: seq<Fields>, rule: Ruleset, records: seq<Record>)
    requires RowsShaped(entries)
  {
    || (exists i ::
      0 <= i < |entries| && Hashed(entries[i]) && o == Judged(entries[i], rule, RecordFor(records, entries[i][1])))
    || (exists i :: 0 <= i < |records| && !Listed(entries, records[i].path) && o == Absent(records[i]))
  }

  /** Nothing left to do at an entry. */
  ghost predicate Settled(f: Fields, rule: Ruleset, records: seq<Record>) requires |f| == 16 && EntryRowOk(f) {
    !Dangerous(f, rule) && exists i :: 0 <= i < |records| && records[i].path == f[1] && records[i].sha == f[14]
  }

  ghost predicate AllSettled(entries: seq<Fields>, rule: Ruleset, records: seq<Record>) requires RowsShaped(entries) {
    && (forall i | 0 <= i < |entries| :: Hashed(entries[i]) ==> Settled(entries[i], rule, records))
    && forall i | 0 <= i < |records| :: Listed(entries, records[i].path)
  }

  lemma {:induction false} CountsSum(objects: seq<Object>)
    ensures Count(objects, PASS) + Count(objects, ACTION_REQUIRED) + Count(objects, UNRESOLVED) == |objects|
  {
    if |objects| > 0 { CountsSum(objects[..|objects| - 1]); }
  }

  lemma {:induction false} CountZero(objects: seq<Object>, outcome: Outcome)
    ensures Count(objects, outcome) == 0 <==> forall i | 0 <= i < |objects| :: objects[i].outcome != outcome
  {
    if |objects| > 0 { CountZero(objects[..|objects| - 1], outcome); }
  }

  /** The loop over the sorted entries. */
  method EntryObjects(entries: seq<Fields>, rule: Ruleset, records: seq<Record>) returns (objects: seq<Object>)
    requires RowsShaped(entries)
    ensures forall o :: o in objects <==>
      exists i :: 0 <= i < |entries| && Hashed(entries[i]) && o == Judged(entries[i], rule,
        RecordFor(records, entries[i][1]))
    ensures forall k | 0 <= k < |objects| ::
      objects[k].entry.Some? && objects[k].entry.value in entries && objects[k].path == objects[k].entry.value[1]
    ensures PathsUnique(entries) ==> DistinctKeys(objects, ObjectPath())
  {
    hide Judged, RecordFor, EntryRowOk;
    objects := [];
    for i := 0 to |entries|
      invariant forall o :: o in objects <==>
        exists k :: 0 <= k < i && Hashed(entries[k]) && o == Judged(entries[k], rule, RecordFor(records, entries[k][1]))
      invariant forall k | 0 <= k < |objects| ::
        objects[k].entry.Some? && objects[k].entry.value in entries[..i] && objects[k].path == objects[k].entry.value[1]
      invariant PathsUnique(entries) ==> DistinctKeys(objects, ObjectPath())
    {
      var f := entries[i];
      if Hashed(f) {
        var o := Classify(f, rule, RecordFor(records, f[1]));
        JudgedNames(f, rule, RecordFor(records, f[1]));
        if PathsUnique(entries) { FreshPath(entries, i, objects, o); }
        objects := objects + [o];
      }
    }
    assert entries[..|entries|] == entries;
  }

  lemma JudgedNames(f: Fields, rule: Ruleset, record: Option<Record>)
    requires EntryRowOk(f)
    ensures Judged(f, rule, record).path == f[1] && Judged(f, rule, record).entry == Some(f)
    ensures Judged(f, rule, record).outcome == OutcomeOf(f, rule, record)
  {
  }

  lemma FreshPath(entries: seq<Fields>, i: nat, objects: seq<Object>, o: Object)
    requires i < |entries| && |entries[i]| == 16 && PathsUnique(entries) && o.path == entries[i][1]
      && RowsShaped(entries)
    requires forall k | 0 <= k < |objects| ::
      objects[k].entry.Some? && objects[k].entry.value in entries[..i] && objects[k].path == objects[k].entry.value[1]
    requires DistinctKeys(objects, ObjectPath())
    ensures DistinctKeys(objects + [o], ObjectPath())
  {
    forall k | 0 <= k < |objects| ensures objects[k].path != o.path {
      var j :| 0 <= j < i && entries[..i][j] == objects[k].entry.value;
    }
  }

  /** The loop over the records nothing in the inventory answers to. */
  method AbsentObjects(entries: seq<Fields>, records: seq<Record>) returns (objects: seq<Object>)
    requires RowsShaped(entries)
    ensures forall o :: o in objects <==>
      exists i :: 0 <= i < |records| && !Listed(entries, records[i].path) && o == Absent(records[i])
    ensures forall k | 0 <= k < |objects| :: !Listed(entries, objects[k].path)
    ensures Ascending(records, RecordPath()) ==> DistinctKeys(objects, ObjectPath())
  {
    hide Listed, EntryRowOk;
    objects := [];
    for i := 0 to |records|
      invariant forall o :: o in objects <==>
        exists k :: 0 <= k < i && !Listed(entries, records[k].path) && o == Absent(records[k])
      invariant forall k | 0 <= k < |objects| :: !Listed(entries, objects[k].path)
      invariant Ascending(records, RecordPath()) ==> DistinctKeys(objects, ObjectPath())
    {
      if !Listed(entries, records[i].path) {
        forall k | 0 <= k < |objects| && Ascending(records, RecordPath()) ensures objects[k].path != records[i].path {
          assert objects[k] in objects;
          var j :| 0 <= j < i && !Listed(entries, records[j].path) && objects[k] == Absent(records[j]);
          assert Less(RecordPath()(records[j]), RecordPath()(records[i]));
          LessIrreflexive(records[i].path);
        }
        objects := objects + [Absent(records[i])];
      }
    }
  }

  /** surface_derive, after its inputs are checked. */
  method DeriveSurface(entries: seq<Fields>, coverage: bool, rule: Ruleset, records: seq<Record>) returns (s: Surface)
    requires Checked(entries, records)
    ensures Ascending(s.objects, ObjectPath()) && forall o :: o in s.objects <==> IsObject(o, entries, rule, records)
    ensures s.passed + s.action + s.unresolved == |s.objects|
    ensures s.passed == Count(s.objects, PASS) && s.action == Count(s.objects, ACTION_REQUIRED)
      && s.unresolved == Count(s.objects, UNRESOLVED)
    ensures s.state == COMPLETE_NO_ACTION <==> coverage && AllSettled(entries, rule, records)
    ensures s.state == UNRESOLVED_NON_CLEAN <==> !coverage || s.unresolved > 0
  {
    hide Hashed, Judged, RecordFor, Listed, EntryRowOk, Absent, Settled, Count, Sort, RowsShaped, PathsUnique;
    var found := EntryObjects(entries, rule, records);
    var missing := AbsentObjects(entries, records);
    var all := found + missing;
    var objects := Sort(all, ObjectPath());
    ObjectsApart(entries, found, missing);
    SortAscends(all, ObjectPath());
    forall o ensures o in objects <==> IsObject(o, entries, rule, records) {
      SameElements(objects, all, o);
      assert o in all <==> o in found || o in missing;
    }
    CountsSum(objects);
    var passed, action, unresolved := Count(objects, PASS), Count(objects, ACTION_REQUIRED), Count(objects, UNRESOLVED);
    var complete := coverage && unresolved == 0 && |objects| == passed + action;
    var state := if complete && action == 0 then COMPLETE_NO_ACTION else if complete then COMPLETE_ACTION_REQUIRED
      else UNRESOLVED_NON_CLEAN;
    s := Surface(objects, passed, action, unresolved, state);
    CleanMeans(entries, rule, records, objects);
  }

  lemma ObjectsApart(entries: seq<Fields>, found: seq<Object>, missing: seq<Object>)
    requires RowsShaped(entries) && DistinctKeys(found, ObjectPath()) && DistinctKeys(missing, ObjectPath())
    requires forall k | 0 <= k < |found| ::
      found[k].entry.Some? && found[k].entry.value in entries && found[k].path == found[k].entry.value[1]
    requires forall k | 0 <= k < |missing| :: !Listed(entries, missing[k].path)
    ensures DistinctKeys(found + missing, ObjectPath())
  {
    hide EntryRowOk;
    forall i, j | 0 <= i < |found| && 0 <= j < |missing| ensures found[i].path != missing[j].path {
      var k :| 0 <= k < |entries| && entries[k] == found[i].entry.value;
    }
  }

  /** All objects pass exactly when every entry is settled and every record has its entry. */
  lemma CleanMeans(entries: seq<Fields>, rule: Ruleset, records: seq<Record>, objects: seq<Object>)
    requires Checked(entries, records) && forall o :: o in objects <==> IsObject(o, entries, rule, records)
    ensures Count(objects, UNRESOLVED) == 0 && Count(objects, ACTION_REQUIRED) == 0 <==>
      AllSettled(entries, rule, records)
  {
    CountZero(objects, UNRESOLVED);
    CountZero(objects, ACTION_REQUIRED);
    if AllSettled(entries, rule, records) {
      forall k | 0 <= k < |objects| ensures objects[k].outcome == PASS {
        assert IsObject(objects[k], entries, rule, records);
        SettledPasses(objects[k], entries, rule, records);
      }
    }
    if forall k | 0 <= k < |objects| :: objects[k].outcome == PASS {
      PassesSettled(entries, rule, records, objects);
    }
  }

  lemma OutcomeSettled(f: Fields, rule: Ruleset, records: seq<Record>)
    requires |f| == 16 && EntryRowOk(f) && Ascending(records, RecordPath())
    ensures Judged(f, rule, RecordFor(records, f[1])).outcome == PASS <==> Settled(f, rule, records)
  {
    hide EntryRowOk, Dangerous;
    JudgedNames(f, rule, RecordFor(records, f[1]));
    IndexHolds(records, f[1]);
    if Settled(f, rule, records) {
      var i :| 0 <= i < |records| && records[i].path == f[1] && records[i].sha == f[14];
      OneRecord(records, i, f[1]);
    }
  }

  lemma OneRecord(records: seq<Record>, i: nat, path: string)
    requires Ascending(records, RecordPath()) && i < |records| && records[i].path == path
    ensures path in IndexRecords(records) && IndexRecords(records)[path] == records[i]
  {
    IndexHolds(records, path);
    var r := IndexRecords(records)[path];
    var j :| 0 <= j < |records| && records[j] == r;
    PathsDiffer(records);
  }

  lemma SettledPasses(o: Object, entries: seq<Fields>, rule: Ruleset, records: seq<Record>)
    requires Checked(entries, records) && AllSettled(entries, rule, records) && IsObject(o, entries, rule, records)
    ensures o.outcome == PASS
  {
    hide Judged, RecordFor, EntryRowOk, Settled, Listed;
    if i :|
      && 0 <= i < |entries| && Hashed(entries[i])
      && o == Judged(entries[i], rule, RecordFor(records, entries[i][1])) {
      OutcomeSettled(entries[i], rule, records);
    }
  }

  lemma PassesSettled(entries: seq<Fields>, rule: Ruleset, records: seq<Record>, objects: seq<Object>)
    requires Checked(entries, records) && (forall o :: o in objects <==> IsObject(o, entries, rule, records))
    requires forall k | 0 <= k < |objects| :: objects[k].outcome == PASS
    ensures AllSettled(entries, rule, records)
  {
    hide Judged, RecordFor, EntryRowOk, Settled, Listed;
    forall i | 0 <= i < |entries| && Hashed(entries[i]) ensures Settled(entries[i], rule, records) {
      var o := Judged(entries[i], rule, RecordFor(records, entries[i][1]));
      assert IsObject(o, entries, rule, records);
      assert o in objects;
      OutcomeSettled(entries[i], rule, records);
    }
    forall i | 0 <= i < |records| ensures Listed(entries, records[i].path) {
      var o := Absent(records[i]);
      assert o in objects <==> IsObject(o, entries, rule, records);
    }
  }
}
