/** Writing an artifact and recovering its bindings. */
module RoundTrip {
  import opened Text
  import opened Sorting
  import opened Json
  import opened Loads
  import opened RawPass
  import opened Artifact
  import opened JsonReader
  import opened Extraction

  /** The members of the artifact as they stand in its text. */
  ghost function TextFields(meta: Metadata, deltas: seq<DeltaRecord>, issues: seq<IssueRecord>): seq<Field>
    requires Inputs(meta, deltas, issues)
  {
    CanonFields(ArtifactFields(meta, DeltaValues(deltas), IssueValues(issues)))
  }

  lemma TextIs(meta: Metadata, deltas: seq<DeltaRecord>, issues: seq<IssueRecord>)
    requires Inputs(meta, deltas, issues)
    ensures var fields := TextFields(meta, deltas, issues);
      && Canon(Written(meta, deltas, issues)) == Obj(fields) && Apart(fields)
      && Writable(Obj(fields)) && CanonicalText(Written(meta, deltas, issues)) == Dump(Obj(fields)) + "\n"
  {
    var fields := ArtifactFields(meta, DeltaValues(deltas), IssueValues(issues));
    ArtifactAscends(meta, DeltaValues(deltas), IssueValues(issues));
    WrittenUnique(meta, deltas, issues);
    CanonIsCanonical(Written(meta, deltas, issues));
    CanonOrder(fields);
    CanonObjectIs(fields);
    AscendingDistinct(fields);
    hide Inputs, ArtifactFields, Dump, Writable, UniqueKeys, Canon, CanonFields, Canonical, Ascending, DeltaValues,
      IssueValues;
    assert forall i, j | 0 <= i < j < |fields| :: FieldKey()(fields[i]) != FieldKey()(fields[j]);
  }

  lemma CanonObjectIs(fields: seq<Field>)
    ensures Canon(Obj(fields)) == Obj(Sort(CanonFields(fields), FieldKey()))
  {
  }

  lemma {:induction false} CanonFieldAt(fields: seq<Field>, i: nat)
    requires i < |fields|
    ensures CanonFields(fields)[i] == Field(fields[i].key, Canon(fields[i].value))
  {
    hide Canon;
    if i > 0 { CanonFieldAt(fields[1..], i - 1); }
  }

  /** The member of a metadata key. */
  lemma MemberAt(meta: Metadata, deltas: seq<DeltaRecord>, issues: seq<IssueRecord>, keys: seq<string>, k: nat)
    returns (i: nat)
    requires Inputs(meta, deltas, issues) && keys in {HEAD, MIDDLE, PASSES, RUNTIME} && k < |keys| && keys[k] in meta
    ensures i < |TextFields(meta, deltas, issues)|
    ensures TextFields(meta, deltas, issues)[i] == Field(keys[k], Canon(meta[keys[k]]))
  {
    var ds, us := DeltaValues(deltas), IssueValues(issues);
    BlocksKeyed(meta);
    FieldsAre(meta, ds, us);
    var fields := ArtifactFields(meta, ds, us);
    hide HEAD, MIDDLE, PASSES, RUNTIME, ArtifactFields, DeltaValues, IssueValues, Canon, Complete, CanonFields, Keyed;
    var h, m, p := |HEAD|, |MIDDLE|, |PASSES|;
    i := if keys == HEAD then k else if keys == MIDDLE then h + 1 + k else if keys == PASSES then h + 1 + m + 1 + k
      else h + 1 + m + 1 + p + k;
    assert fields[i] == Field(keys[k], meta[keys[k]]);
    CanonFieldAt(fields, i);
  }

  /** Every member of the artifact is within the stream's caps. */
  ghost predicate WithinCaps(meta: Metadata, deltas: seq<DeltaRecord>, issues: seq<IssueRecord>)
    requires Inputs(meta, deltas, issues)
  {
    forall i | 0 <= i < |TextFields(meta, deltas, issues)| :: TopFits(TextFields(meta, deltas, issues)[i])
  }

  /** The four strings and the two paths of the metadata. */
  ghost predicate Recovers(found: Found, meta: Metadata) {
    && (forall k | k in WANTED :: k in meta && meta[k].Str? && k in found && found[k] == meta[k].text)
    && "product_seal" in meta && "product_seal_path" in found
    && found["product_seal_path"] == PathIn(Canon(meta["product_seal"]))
    && "raw_capture" in meta && "raw_capture_path" in found
    && found["raw_capture_path"] == PathIn(Canon(meta["raw_capture"]))
  }

  /** What extract_bindings recovers from a written artifact within its caps: the bindings that were written, whatever
      else and however many records the artifact holds. */
  lemma WrittenBindings(meta: Metadata, deltas: seq<DeltaRecord>, issues: seq<IssueRecord>)
    requires Inputs(meta, deltas, issues) && WithinCaps(meta, deltas, issues)
    ensures var found := Collected(map[], TextFields(meta, deltas, issues));
      && Recovers(found, meta) && Writable(Canon(Written(meta, deltas, issues)))
      && Extract(CanonicalText(Written(meta, deltas, issues))) == if Usable(found) then Some(found) else None
  {
    TextIs(meta, deltas, issues);
    SomeFields(meta, deltas, issues);
    CollectedRecovers(meta, deltas, issues);
    hide Canon, Collected, TopFits, Extract, TextFields, Written, Recovers, Writable, Dump, Inputs;
    ExtractWritten(TextFields(meta, deltas, issues));
  }

  lemma CollectedRecovers(meta: Metadata, deltas: seq<DeltaRecord>, issues: seq<IssueRecord>)
    requires Inputs(meta, deltas, issues) && WithinCaps(meta, deltas, issues)
    ensures Recovers(Collected(map[], TextFields(meta, deltas, issues)), meta)
  {
    TextIs(meta, deltas, issues);
    KeyPlaces();
    hide *;
    BindingAt(meta, deltas, issues, MIDDLE, 5);
    BindingAt(meta, deltas, issues, PASSES, 0);
    BindingAt(meta, deltas, issues, RUNTIME, 2);
    BindingAt(meta, deltas, issues, RUNTIME, 6);
    BindingAt(meta, deltas, issues, PASSES, 5);
    BindingAt(meta, deltas, issues, RUNTIME, 1);
    SixBindings(Collected(map[], TextFields(meta, deltas, issues)), meta);
  }

  lemma KeyPlaces()
    ensures |MIDDLE| == 6 && MIDDLE[5] == "inventory_operation_id" && |PASSES| == 6 && PASSES[0] == "observed_at"
      && PASSES[5] == "product_seal"
    ensures |RUNTIME| == 7 && RUNTIME[1] == "raw_capture" && RUNTIME[2] == "root_path_hex" && RUNTIME[6] == "tool"
  {
  }

  /** One binding of the metadata found again. */
  ghost predicate Recovered(key: string, found: Found, meta: Metadata) {
    && key in meta
    && (key in WANTED ==> meta[key].Str? && key in found && found[key] == meta[key].text)
    && (key == "product_seal" || key == "raw_capture" ==>
          PathName(key) in found && found[PathName(key)] == PathIn(Canon(meta[key])))
  }

  lemma SixBindings(found: Found, meta: Metadata)
    requires Recovered("inventory_operation_id", found, meta) && Recovered("observed_at", found, meta)
    requires Recovered("root_path_hex", found, meta) && Recovered("tool", found, meta)
    requires Recovered("product_seal", found, meta) && Recovered("raw_capture", found, meta)
    ensures Recovers(found, meta)
  {
    hide PathIn, Canon;
  }

  lemma SomeFields(meta: Metadata, deltas: seq<DeltaRecord>, issues: seq<IssueRecord>)
    requires Inputs(meta, deltas, issues)
    ensures |TextFields(meta, deltas, issues)| > 0
  {
  }

  lemma BindingAt(meta: Metadata, deltas: seq<DeltaRecord>, issues: seq<IssueRecord>, keys: seq<string>, k: nat)
    requires Inputs(meta, deltas, issues) && keys in {HEAD, MIDDLE, PASSES, RUNTIME} && k < |keys|
    requires Apart(TextFields(meta, deltas, issues)) && WithinCaps(meta, deltas, issues)
    ensures Recovered(keys[k], Collected(map[], TextFields(meta, deltas, issues)), meta)
  {
    KeyInMeta(meta, keys, k);
    var i := MemberAt(meta, deltas, issues, keys, k);
    var fields := TextFields(meta, deltas, issues);
    assert TopFits(fields[i]);
    hide HEAD, MIDDLE, PASSES, RUNTIME, TextFields, Collected, Inputs, PathIn, Writable, Basic, StringFits, Fits,
      SelectFits, Quoted;
    CollectedAt(map[], fields, i);
    if keys[k] in WANTED { CanonString(meta[keys[k]]); }
  }

  lemma KeyInMeta(meta: Metadata, keys: seq<string>, k: nat)
    requires Complete(meta) && keys in {HEAD, MIDDLE, PASSES, RUNTIME} && k < |keys|
    ensures keys[k] in meta
  {
    hide HEAD, MIDDLE, PASSES, RUNTIME;
    assert Keyed(meta, keys);
  }

  lemma CanonString(v: Value)
    ensures Canon(v).Str? <==> v.Str?
    ensures v.Str? ==> Canon(v) == v
  {
  }
}
