/** write_artifact: the diagnostic artifact streamed field by field around the records, and what its consumers read. */
module Artifact {
  import opened Text
  import opened Sorting
  import opened Json
  import opened Loads
  import opened RawPass

  const ARTIFACT_BYTE_CAP: nat := 251658240

  // ----- Records as JSON -----

  function Optional(o: Option<string>): Value { if o.None? then Null else Str(o.value) }

  /** A pass state: a dictionary, listed here in the order of its keys. */
  function PassValue(p: Option<PassState>): Value {
    if p.None? then Null
    else
      var s := p.value;
      Obj([Field("ctime_ns", Num(s.ctime)), Field("device", Num(s.device)), Field("gid", Num(s.gid)),
        Field("inode", Num(s.inode)),
           Field("mode", Str(s.mode)), Field("mtime_ns", Num(s.mtime)), Field("nlink", Num(s.nlink)),
             Field("sha256", Optional(s.sha)),
           Field("size", Num(s.size)), Field("symlink_target_hex", Optional(s.target)), Field("type", Str(s.kind)),
           Field("uid", Num(s.uid)), Field("uploads", Bool(s.uploads))])
  }

  function DeltaValue(r: DeltaRecord): Value {
    Obj([Field("change_type", Str(r.change)), Field("normalized_path_hex", Str(r.path)),
      Field("pass1", PassValue(r.pass1)),
         Field("pass1_exists", Bool(r.pass1.Some?)), Field("pass2", PassValue(r.pass2)),
           Field("pass2_exists", Bool(r.pass2.Some?))])
  }

  function IssueValue(r: IssueRecord): Value {
    Obj([Field("detail_sha256", Str(r.detail)), Field("normalized_path_hex", Str(r.path)),
      Field("pass1_exists", Bool(r.pass1)),
         Field("pass2_exists", Bool(r.pass2)), Field("reason", Str(r.reason))])
  }

  function DeltaValues(records: seq<DeltaRecord>): (values: seq<Value>)
    ensures |values| == |records|
  {
    seq(|records|, i requires 0 <= i < |records| => DeltaValue(records[i]))
  }

  function IssueValues(records: seq<IssueRecord>): (values: seq<Value>)
    ensures |values| == |records|
  {
    seq(|records|, i requires 0 <= i < |records| => IssueValue(records[i]))
  }

  // ----- The object -----

  type Metadata = map<string, Value>

  const HEAD: seq<string> := ["authority", "decision_eligible"]
  const MIDDLE: seq<string> := ["descriptor_bound", "diagnostic_mode", "ephemeral_bootstrap_audit", "ephemeral_bootstrap_audit_sha256",
                                "helper_sha256", "inventory_operation_id"]
  const PASSES: seq<string> := ["observed_at", "pass1_root", "pass1_snapshot_sha256", "pass2_root", "pass2_snapshot_sha256", "product_seal"]
  const RUNTIME: seq<string> := ["public_core_version", "raw_capture", "root_path_hex", "runtime_identity", "runtime_identity_sha256",
                                 "schema", "tool"]

  ghost predicate Keyed(meta: Metadata, keys: seq<string>) { forall i | 0 <= i < |keys| :: keys[i] in meta }

  ghost predicate Complete(meta: Metadata) {
    && Keyed(meta, HEAD) && Keyed(meta, MIDDLE) && Keyed(meta, PASSES) && Keyed(meta, RUNTIME)
    && forall k | k in meta :: Basic(k) && Writable(meta[k]) && Writable(Canon(meta[k])) && UniqueKeys(meta[k])
  }

  function Members(meta: Metadata, keys: seq<string>): (fields: seq<Field>)
    requires Keyed(meta, keys)
    ensures |fields| == |keys|
  {
    seq(|keys|, i requires 0 <= i < |keys| => Field(keys[i], meta[keys[i]]))
  }

  /** The metadata and both record lists; delta_count and issue_delta_count are not among the members. */
  ghost function ArtifactFields(meta: Metadata, deltas: seq<Value>, issues: seq<Value>): seq<Field>
    requires Complete(meta) {
    Members(meta, HEAD) + [Field("deltas", Arr(deltas))] + Members(meta, MIDDLE) + [Field("issue_deltas", Arr(issues))]
    + Members(meta, PASSES) + Members(meta, RUNTIME)
  }

  ghost function ArtifactOf(meta: Metadata, deltas: seq<Value>, issues: seq<Value>): Value requires Complete(meta) {
    Obj(ArtifactFields(meta, deltas, issues))
  }

  // ----- The bounded writer -----

  class BoundedWriter {
    const cap: nat
    const accepted: nat -> nat   // what each write call takes; zero is a failure
    var written: string
    var total: nat
    var clock: nat

    constructor (cap: nat, accepted: nat -> nat)
      ensures written == "" && Valid() && this.cap == cap
    {
      this.cap, this.accepted := cap, accepted;
      written, total, clock := "", 0, 0;
    }

    ghost predicate Valid() reads this { total == |written| <= cap }

    /** No write call fails, and this many bytes are allowed. */
    ghost predicate Admits(bytes: nat) { bytes <= cap && forall n: nat :: accepted(n) > 0 }

    /** Short writes are continued; not alive stands for fail. */
    method Write(payload: string) returns (alive: bool)
      requires Valid()
      modifies this
      ensures alive ==> Valid() && written == old(written) + payload
      ensures Admits(|old(written)| + |payload|) ==> alive
    {
      if total + |payload| > cap { return false; }
      var offset := 0;
      while offset < |payload|
        invariant 0 <= offset <= |payload| && written == old(written) + payload[..offset] && total == old(total)
      {
        var n := accepted(clock);
        clock := clock + 1;
        if n == 0 { return false; }
        var take := if n > |payload| - offset then |payload| - offset else n;
        written := written + payload[offset..offset + take];
        assert payload[..offset + take] == payload[..offset] + payload[offset..offset + take];
        offset := offset + take;
      }
      assert payload[..offset] == payload;
      total := total + |payload|;
      alive := true;
    }
  }

  // ----- The stream -----

  /** json_bytes. */
  function JsonText(v: Value): string requires Writable(Canon(v)) { Dump(Canon(v)) }

  ghost predicate Printable(fields: seq<Field>) {
    forall i | 0 <= i < |fields| :: Basic(fields[i].key) && Writable(Canon(fields[i].value))
  }

  lemma {:induction false} CanonPrintable(fields: seq<Field>)
    requires Printable(fields)
    ensures forall i | 0 <= i < |fields| :: Basic(CanonFields(fields)[i].key) && Writable(CanonFields(fields)[i].value)
  {
    hide Writable;
    if |fields| > 0 { CanonPrintable(fields[1..]); }
  }

  /** The text of the members written so far, inside their brace. */
  ghost function Opened(fields: seq<Field>): string requires Printable(fields) {
    CanonPrintable(fields);
    "{" + DumpFields(CanonFields(fields))
  }

  lemma {:induction false} CanonAppend(fields: seq<Field>, f: Field)
    ensures CanonFields(fields + [f]) == CanonFields(fields) + [Field(f.key, Canon(f.value))]
  {
    if |fields| == 0 {
      assert fields + [f] == [f];
    } else {
      assert (fields + [f])[1..] == fields[1..] + [f];
      CanonAppend(fields[1..], f);
    }
  }

  lemma AppendWritable(fields: seq<Field>, f: Field)
    requires (forall i | 0 <= i < |fields| :: Basic(fields[i].key) && Writable(fields[i].value)) && Basic(f.key)
      && Writable(f.value)
    ensures forall i | 0 <= i < |fields| + 1 :: Basic((fields + [f])[i].key) && Writable((fields + [f])[i].value)
  {
    hide Basic, Writable;
  }

  lemma {:induction false} DumpAppend(fields: seq<Field>, f: Field)
    requires (forall i | 0 <= i < |fields| :: Basic(fields[i].key) && Writable(fields[i].value)) && Basic(f.key)
      && Writable(f.value)
    ensures forall i | 0 <= i < |fields| + 1 :: Basic((fields + [f])[i].key) && Writable((fields + [f])[i].value)
    ensures DumpFields(fields + [f]) == DumpFields(fields) + (if |fields| == 0 then "" else ",") + DumpField(f)
  {
    hide DumpField, DumpFields, Writable, Basic;
    AppendWritable(fields, f);
    DumpFieldsIs(fields + [f]);
    if |fields| == 0 {
      assert fields + [f] == [f];
      assert DumpFields([]) == "" by { NoFields(); }
    } else {
      assert (fields + [f])[1..] == fields[1..] + [f];
      DumpAppend(fields[1..], f);
      DumpFieldsIs(fields);
      if |fields| == 1 { assert fields[1..] == []; NoFields(); }
    }
  }

  lemma NoFields()
    ensures DumpFields([]) == ""
  {
  }

  /** What pair writes. */
  function PairText(key: string, value: Value, first: bool): string requires Basic(key) && Writable(Canon(value)) {
    (if first then "" else ",") + (Quoted(key) + ":" + JsonText(value))
  }

  lemma OpenedNext(fields: seq<Field>, f: Field)
    requires Printable(fields) && Basic(f.key) && Writable(Canon(f.value))
    ensures Printable(fields + [f])
    ensures Opened(fields + [f]) == Opened(fields) + PairText(f.key, f.value, |fields| == 0)
  {
    hide DumpFields, CanonFields, Dump, Canon, Quoted, Writable, Basic;
    var canon, g := CanonFields(fields), Field(f.key, Canon(f.value));
    CanonPrintable(fields);
    CanonAppend(fields, f);
    DumpAppend(canon, g);
    assert DumpField(g) == Quoted(f.key) + ":" + JsonText(f.value);
    hide DumpField, JsonText;
    assert Opened(fields + [f]) == "{" + (DumpFields(canon) + (if |fields| == 0 then "" else ",") + DumpField(g));
  }

  lemma {:induction false} OpenedGrows(done: seq<Field>, all: seq<Field>)
    requires Printable(all) && done <= all
    ensures Printable(done) && |Opened(done)| <= |Opened(all)|
  {
    hide Opened, PairText, Canon, Basic, Writable;
    if |done| < |all| {
      var most := all[..|all| - 1];
      assert all == most + [all[|all| - 1]];
      OpenedGrows(done, most);
      OpenedNext(most, all[|all| - 1]);
    } else {
      assert done == all;
    }
  }

  /** pair, while the members of `all` are being written. */
  method Pair(w: BoundedWriter, ghost done: seq<Field>, ghost all: seq<Field>, key: string, value: Value, first: bool)
    returns (alive: bool)
    requires w.Valid() && Printable(done) && w.written == Opened(done) && (first <==> |done| == 0)
    requires Basic(key) && Writable(Canon(value)) && Printable(all) && done + [Field(key, value)] <= all
    modifies w
    ensures Printable(done + [Field(key, value)])
    ensures alive ==> w.Valid() && w.written == Opened(done + [Field(key, value)])
    ensures w.Admits(|Opened(all)|) ==> alive
  {
    hide Opened, Printable, PairText, Canon, Basic, Writable;
    OpenedNext(done, Field(key, value));
    OpenedGrows(done + [Field(key, value)], all);
    alive := w.Write(PairText(key, value, first));
  }

  /** One list of records already parsed; Capture parses and writes in turn. */
  method Items(w: BoundedWriter, items: seq<Value>) returns (alive: bool)
    requires w.Valid() && forall i | 0 <= i < |items| :: Writable(Canon(items[i]))
    modifies w
    ensures forall i | 0 <= i < |items| :: Writable(CanonItems(items)[i])
    ensures alive ==> w.Valid() && w.written == old(w.written) + DumpItems(CanonItems(items))
    ensures w.Admits(|old(w.written)| + |DumpItems(CanonItems(items))|) ==> alive
  {
    hide Canon, Dump, Writable;
    alive := true;
    NoItems();
    for i := 0 to |items|
      invariant alive && w.Valid() && AllWritable(CanonItems(items[..i]))
      invariant w.written == old(w.written) + DumpItems(CanonItems(items[..i]))
    {
      assert items[..i + 1] == items[..i] + [items[i]];
      ItemsAppend(items[..i], items[i]);
      ItemsGrow(items, i + 1);
      alive := w.Write((if i == 0 then "" else ",") + JsonText(items[i]));
      if !alive { AllItems(items); return; }
    }
    AllItems(items);
    assert items[..|items|] == items;
  }

  lemma {:induction false} ItemsGrow(items: seq<Value>, k: nat)
    requires k <= |items| && forall i | 0 <= i < |items| :: Writable(Canon(items[i]))
    ensures AllWritable(CanonItems(items)) && AllWritable(CanonItems(items[..k]))
    ensures |DumpItems(CanonItems(items[..k]))| <= |DumpItems(CanonItems(items))|
  {
    hide Canon, CanonItems, DumpItems, Writable, JsonText;
    AllItems(items);
    if k < |items| {
      var most := items[..|items| - 1];
      assert items == most + [items[|items| - 1]] && most[..k] == items[..k];
      ItemsGrow(most, k);
      ItemsAppend(most, items[|items| - 1]);
    } else {
      assert items[..k] == items;
    }
  }

  ghost predicate AllWritable(items: seq<Value>) { forall i | 0 <= i < |items| :: Writable(items[i]) }

  lemma NoItems()
    ensures DumpItems(CanonItems([])) == "" && DumpItems([]) == ""
  {
  }

  lemma {:induction false} AllItems(items: seq<Value>)
    requires forall i | 0 <= i < |items| :: Writable(Canon(items[i]))
    ensures AllWritable(CanonItems(items))
  {
    hide Writable, Canon;
    if |items| > 0 { AllItems(items[1..]); }
  }

  lemma {:induction false} CanonItemsAppend(items: seq<Value>, v: Value)
    ensures CanonItems(items + [v]) == CanonItems(items) + [Canon(v)]
  {
    if |items| == 0 {
      assert items + [v] == [v];
    } else {
      assert (items + [v])[1..] == items[1..] + [v];
      CanonItemsAppend(items[1..], v);
    }
  }

  lemma {:induction false} DumpItemsAppend(items: seq<Value>, v: Value)
    requires AllWritable(items) && Writable(v)
    ensures AllWritable(items + [v])
      && DumpItems(items + [v]) == DumpItems(items) + (if |items| == 0 then "" else ",") + Dump(v)
  {
    hide Dump, DumpItems, Writable;
    DumpItemsIs(items + [v]);
    NoItems();
    if |items| == 0 {
      assert items + [v] == [v];
    } else {
      assert (items + [v])[1..] == items[1..] + [v];
      DumpItemsAppend(items[1..], v);
      DumpItemsIs(items);
      if |items| == 1 { assert items[1..] == []; }
    }
  }

  lemma ItemsAppend(items: seq<Value>, v: Value)
    requires AllWritable(CanonItems(items)) && Writable(Canon(v))
    ensures AllWritable(CanonItems(items + [v]))
    ensures DumpItems(CanonItems(items + [v])) == DumpItems(CanonItems(items)) + (if |items| == 0 then "" else ",")
      + JsonText(v)
  {
    CanonItemsAppend(items, v);
    hide Dump, Writable, CanonItems, Canon, DumpItems;
    DumpItemsAppend(CanonItems(items), Canon(v));
  }

  // ----- The whole artifact -----

  /** A record list as one member: its key and opening bracket, its records, its closing bracket. */
  method ListMember(w: BoundedWriter, ghost done: seq<Field>, ghost all: seq<Field>, key: string, items: seq<Value>)
    returns (alive: bool)
    requires w.Valid() && Printable(done) && w.written == Opened(done) && |done| > 0
    requires Basic(key) && forall i | 0 <= i < |items| :: Writable(Canon(items[i]))
    requires Printable(all) && done + [Field(key, Arr(items))] <= all
    modifies w
    ensures Printable(done + [Field(key, Arr(items))])
    ensures alive ==> w.Valid() && w.written == Opened(done + [Field(key, Arr(items))])
    ensures w.Admits(|Opened(all)|) ==> alive
  {
    hide Opened, Printable, Canon, CanonItems, DumpItems, Basic, Writable, Quoted;
    ListNext(done, key, items);
    OpenedGrows(done + [Field(key, Arr(items))], all);
    alive := w.Write("," + Quoted(key) + ":[");
    if !alive { return; }
    alive := Items(w, items);
    if !alive { return; }
    alive := w.Write("]");
  }

  lemma ListValue(items: seq<Value>)
    requires AllWritable(CanonItems(items))
    ensures Writable(Canon(Arr(items))) && JsonText(Arr(items)) == "[" + DumpItems(CanonItems(items)) + "]"
  {
    hide CanonItems, DumpItems;
    assert Writable(Arr(CanonItems(items)));
  }

  lemma Regroup(comma: string, quoted: string, text: string)
    ensures comma + (quoted + ":" + ("[" + text + "]")) == (comma + quoted + ":[") + text + "]"
  {
    assert ":[" == ":" + "[";
  }

  lemma ListText(key: string, items: seq<Value>)
    requires Basic(key) && AllWritable(CanonItems(items))
    ensures Writable(Canon(Arr(items)))
    ensures PairText(key, Arr(items), false) == ("," + Quoted(key) + ":[") + DumpItems(CanonItems(items)) + "]"
  {
    hide Canon, CanonItems, DumpItems, Basic, Writable, Quoted, JsonText;
    ListValue(items);
    Regroup(",", Quoted(key), DumpItems(CanonItems(items)));
  }

  lemma ListNext(done: seq<Field>, key: string, items: seq<Value>)
    requires Printable(done) && |done| > 0 && Basic(key) && forall i | 0 <= i < |items| :: Writable(Canon(items[i]))
    ensures Printable(done + [Field(key, Arr(items))]) && AllWritable(CanonItems(items))
    ensures Opened(done + [Field(key, Arr(items))])
      == Opened(done) + (("," + Quoted(key) + ":[") + DumpItems(CanonItems(items)) + "]")
  {
    hide Opened, Printable, Canon, CanonItems, DumpItems, Basic, Writable, Quoted, PairText, AllWritable;
    AllItems(items);
    ListText(key, items);
    OpenedNext(done, Field(key, Arr(items)));
  }

  lemma HasKey(meta: Metadata, keys: seq<string>, i: nat)
    requires Complete(meta) && keys in {HEAD, MIDDLE, PASSES, RUNTIME} && i < |keys|
    ensures keys[i] in meta && Basic(keys[i]) && Writable(Canon(meta[keys[i]]))
  {
  }

  /** The members written when the first `i` of a block are done. */
  ghost function Upto(done: seq<Field>, meta: Metadata, keys: seq<string>, i: nat): seq<Field>
    requires Keyed(meta, keys) && i <= |keys|
  {
    done + Members(meta, keys)[..i]
  }

  lemma NextMember(done: seq<Field>, all: seq<Field>, meta: Metadata, keys: seq<string>, i: nat)
    requires Complete(meta) && keys in {HEAD, MIDDLE, PASSES, RUNTIME} && i < |keys|
    requires Keyed(meta, keys) && Printable(all) && done + Members(meta, keys) <= all
    ensures keys[i] in meta && Basic(keys[i]) && Writable(Canon(meta[keys[i]]))
    ensures Printable(Upto(done, meta, keys, i)) && |Upto(done, meta, keys, i)| == |done| + i
    ensures Upto(done, meta, keys, i) + [Field(keys[i], meta[keys[i]])] == Upto(done, meta, keys, i + 1) <= all
  {
    HasKey(meta, keys, i);
    hide HEAD, MIDDLE, PASSES, RUNTIME, Basic, Writable, Canon, Complete;
    var members := Members(meta, keys);
    assert members[..i + 1] == members[..i] + [members[i]];
    OpenedGrows(done + members[..i], all);
  }

  lemma BlockEnds(done: seq<Field>, all: seq<Field>, meta: Metadata, keys: seq<string>)
    requires Keyed(meta, keys) && Printable(all) && done + Members(meta, keys) <= all
    ensures Printable(done + Members(meta, keys))
    ensures Upto(done, meta, keys, 0) == done && Upto(done, meta, keys, |keys|) == done + Members(meta, keys)
  {
    hide Basic, Writable, Canon;
  }

  method WriteHead(w: BoundedWriter, ghost done: seq<Field>, ghost all: seq<Field>, meta: Metadata)
    returns (alive: bool)
    requires w.Valid() && Complete(meta) && Printable(done) && w.written == Opened(done) && |done| == 0
    requires Printable(all) && done + Members(meta, HEAD) <= all
    modifies w
    ensures Keyed(meta, HEAD) && Printable(done + Members(meta, HEAD))
    ensures alive ==> w.Valid() && w.written == Opened(done + Members(meta, HEAD))
    ensures w.Admits(|Opened(all)|) ==> alive
  {
    hide Opened, Printable, Canon, Basic, Writable, Complete, Members, Keyed, Upto;
    BlocksKeyed(meta);
    BlockEnds(done, all, meta, HEAD);
    NextMember(done, all, meta, HEAD, 0);
    alive := Pair(w, Upto(done, meta, HEAD, 0), all, "authority", meta["authority"], true);
    if !alive { return; }
    NextMember(done, all, meta, HEAD, 1);
    alive := Pair(w, Upto(done, meta, HEAD, 1), all, "decision_eligible", meta["decision_eligible"], false);
  }

  method WriteMiddle(w: BoundedWriter, ghost done: seq<Field>, ghost all: seq<Field>, meta: Metadata)
    returns (alive: bool)
    requires w.Valid() && Complete(meta) && Printable(done) && w.written == Opened(done) && |done| > 0
    requires Printable(all) && done + Members(meta, MIDDLE) <= all
    modifies w
    ensures Keyed(meta, MIDDLE) && Printable(done + Members(meta, MIDDLE))
    ensures alive ==> w.Valid() && w.written == Opened(done + Members(meta, MIDDLE))
    ensures w.Admits(|Opened(all)|) ==> alive
  {
    hide Opened, Printable, Canon, Basic, Writable, Complete, Members, Keyed, Upto;
    BlocksKeyed(meta);
    BlockEnds(done, all, meta, MIDDLE);
    NextMember(done, all, meta, MIDDLE, 0);
    alive := Pair(w, Upto(done, meta, MIDDLE, 0), all, "descriptor_bound", meta["descriptor_bound"], false);
    if !alive { return; }
    NextMember(done, all, meta, MIDDLE, 1);
    alive := Pair(w, Upto(done, meta, MIDDLE, 1), all, "diagnostic_mode", meta["diagnostic_mode"], false);
    if !alive { return; }
    NextMember(done, all, meta, MIDDLE, 2);
    alive := Pair(w, Upto(done, meta, MIDDLE, 2), all, "ephemeral_bootstrap_audit", meta["ephemeral_bootstrap_audit"],
      false);
    if !alive { return; }
    NextMember(done, all, meta, MIDDLE, 3);
    alive := Pair(w, Upto(done, meta, MIDDLE, 3), all, "ephemeral_bootstrap_audit_sha256",
      meta["ephemeral_bootstrap_audit_sha256"], false);
    if !alive { return; }
    NextMember(done, all, meta, MIDDLE, 4);
    alive := Pair(w, Upto(done, meta, MIDDLE, 4), all, "helper_sha256", meta["helper_sha256"], false);
    if !alive { return; }
    NextMember(done, all, meta, MIDDLE, 5);
    alive := Pair(w, Upto(done, meta, MIDDLE, 5), all, "inventory_operation_id", meta["inventory_operation_id"], false);
  }

  method WritePasses(w: BoundedWriter, ghost done: seq<Field>, ghost all: seq<Field>, meta: Metadata)
    returns (alive: bool)
    requires w.Valid() && Complete(meta) && Printable(done) && w.written == Opened(done) && |done| > 0
    requires Printable(all) && done + Members(meta, PASSES) <= all
    modifies w
    ensures Keyed(meta, PASSES) && Printable(done + Members(meta, PASSES))
    ensures alive ==> w.Valid() && w.written == Opened(done + Members(meta, PASSES))
    ensures w.Admits(|Opened(all)|) ==> alive
  {
    hide Opened, Printable, Canon, Basic, Writable, Complete, Members, Keyed, Upto;
    BlocksKeyed(meta);
    BlockEnds(done, all, meta, PASSES);
    NextMember(done, all, meta, PASSES, 0);
    alive := Pair(w, Upto(done, meta, PASSES, 0), all, "observed_at", meta["observed_at"], false);
    if !alive { return; }
    NextMember(done, all, meta, PASSES, 1);
    alive := Pair(w, Upto(done, meta, PASSES, 1), all, "pass1_root", meta["pass1_root"], false);
    if !alive { return; }
    NextMember(done, all, meta, PASSES, 2);
    alive := Pair(w, Upto(done, meta, PASSES, 2), all, "pass1_snapshot_sha256", meta["pass1_snapshot_sha256"], false);
    if !alive { return; }
    NextMember(done, all, meta, PASSES, 3);
    alive := Pair(w, Upto(done, meta, PASSES, 3), all, "pass2_root", meta["pass2_root"], false);
    if !alive { return; }
    NextMember(done, all, meta, PASSES, 4);
    alive := Pair(w, Upto(done, meta, PASSES, 4), all, "pass2_snapshot_sha256", meta["pass2_snapshot_sha256"], false);
    if !alive { return; }
    NextMember(done, all, meta, PASSES, 5);
    alive := Pair(w, Upto(done, meta, PASSES, 5), all, "product_seal", meta["product_seal"], false);
  }

  method WriteRuntime(w: BoundedWriter, ghost done: seq<Field>, ghost all: seq<Field>, meta: Metadata)
    returns (alive: bool)
    requires w.Valid() && Complete(meta) && Printable(done) && w.written == Opened(done) && |done| > 0
    requires Printable(all) && done + Members(meta, RUNTIME) <= all
    modifies w
    ensures Keyed(meta, RUNTIME) && Printable(done + Members(meta, RUNTIME))
    ensures alive ==> w.Valid() && w.written == Opened(done + Members(meta, RUNTIME))
    ensures w.Admits(|Opened(all)|) ==> alive
  {
    hide Opened, Printable, Canon, Basic, Writable, Complete, Members, Keyed, Upto;
    BlocksKeyed(meta);
    BlockEnds(done, all, meta, RUNTIME);
    NextMember(done, all, meta, RUNTIME, 0);
    alive := Pair(w, Upto(done, meta, RUNTIME, 0), all, "public_core_version", meta["public_core_version"], false);
    if !alive { return; }
    NextMember(done, all, meta, RUNTIME, 1);
    alive := Pair(w, Upto(done, meta, RUNTIME, 1), all, "raw_capture", meta["raw_capture"], false);
    if !alive { return; }
    NextMember(done, all, meta, RUNTIME, 2);
    alive := Pair(w, Upto(done, meta, RUNTIME, 2), all, "root_path_hex", meta["root_path_hex"], false);
    if !alive { return; }
    NextMember(done, all, meta, RUNTIME, 3);
    alive := Pair(w, Upto(done, meta, RUNTIME, 3), all, "runtime_identity", meta["runtime_identity"], false);
    if !alive { return; }
    NextMember(done, all, meta, RUNTIME, 4);
    alive := Pair(w, Upto(done, meta, RUNTIME, 4), all, "runtime_identity_sha256", meta["runtime_identity_sha256"],
      false);
    if !alive { return; }
    NextMember(done, all, meta, RUNTIME, 5);
    alive := Pair(w, Upto(done, meta, RUNTIME, 5), all, "schema", meta["schema"], false);
    if !alive { return; }
    NextMember(done, all, meta, RUNTIME, 6);
    alive := Pair(w, Upto(done, meta, RUNTIME, 6), all, "tool", meta["tool"], false);
  }

  // ----- The literal order is the sorted order -----

  /** Each key sorts before the next one. */
  ghost predicate InOrder(keys: seq<string>) { forall k | 0 < k < |keys| :: Less(keys[k - 1], keys[k]) }

  /** The first difference decides. */
  lemma {:induction false} LessAt(a: string, b: string, k: nat)
    requires k <= |a| && k < |b| && (forall i | 0 <= i < k :: a[i] == b[i]) && (k == |a| || a[k] < b[k])
    ensures Less(a, b)
  {
    if k > 0 { LessAt(a[1..], b[1..], k - 1); }
  }

  lemma JoinInOrder(a: seq<string>, b: seq<string>)
    requires InOrder(a) && InOrder(b) && |a| > 0 && |b| > 0 && Less(a[|a| - 1], b[0])
    ensures InOrder(a + b) && (a + b)[|a + b| - 1] == b[|b| - 1]
  {
    hide Less;
    var ab := a + b;
    forall k | 0 < k < |ab| ensures Less(ab[k - 1], ab[k]) {
      if k < |a| { assert Less(a[k - 1], a[k]); } else if k > |a| { assert Less(b[k - |a| - 1], b[k - |a|]); }
    }
  }

  lemma InOrderAscends(fields: seq<Field>, keys: seq<string>)
    requires InOrder(keys) && |fields| == |keys| && forall i | 0 <= i < |fields| :: fields[i].key == keys[i]
    ensures Ascending(fields, FieldKey())
  {
    hide Less;
    forall i, j | 0 <= i < j < |fields| ensures Less(FieldKey()(fields[i]), FieldKey()(fields[j])) {
      AdjacentAscend(keys, i, j);
    }
  }

  lemma HeadInOrder()
    ensures InOrder(HEAD)
  {
    hide Less;
    LessAt("authority", "decision_eligible", 0);
  }

  lemma MiddleInOrder()
    ensures InOrder(MIDDLE)
  {
    hide Less;
    LessAt("descriptor_bound", "diagnostic_mode", 1);
    LessAt("diagnostic_mode", "ephemeral_bootstrap_audit", 0);
    LessAt("ephemeral_bootstrap_audit", "ephemeral_bootstrap_audit_sha256", 25);
    LessAt("ephemeral_bootstrap_audit_sha256", "helper_sha256", 0);
    LessAt("helper_sha256", "inventory_operation_id", 0);
  }

  lemma PassesInOrder()
    ensures InOrder(PASSES)
  {
    hide Less;
    LessAt("observed_at", "pass1_root", 0);
    LessAt("pass1_root", "pass1_snapshot_sha256", 6);
    LessAt("pass1_snapshot_sha256", "pass2_root", 4);
    LessAt("pass2_root", "pass2_snapshot_sha256", 6);
    LessAt("pass2_snapshot_sha256", "product_seal", 1);
  }

  lemma RuntimeInOrder()
    ensures InOrder(RUNTIME)
  {
    hide Less;
    LessAt("public_core_version", "raw_capture", 0);
    LessAt("raw_capture", "root_path_hex", 1);
    LessAt("root_path_hex", "runtime_identity", 1);
    LessAt("runtime_identity", "runtime_identity_sha256", 16);
    LessAt("runtime_identity_sha256", "schema", 0);
    LessAt("schema", "tool", 0);
  }

  /** The order in which the code writes the members is the order of their sorted keys. */
  lemma KeysInOrder()
    ensures InOrder(HEAD + ["deltas"] + MIDDLE + ["issue_deltas"] + PASSES + RUNTIME)
  {
    HeadInOrder();
    MiddleInOrder();
    PassesInOrder();
    RuntimeInOrder();
    Boundaries();
    hide Less;
    JoinInOrder(HEAD, ["deltas"]);
    JoinInOrder(HEAD + ["deltas"], MIDDLE);
    JoinInOrder(HEAD + ["deltas"] + MIDDLE, ["issue_deltas"]);
    JoinInOrder(HEAD + ["deltas"] + MIDDLE + ["issue_deltas"], PASSES);
    JoinInOrder(HEAD + ["deltas"] + MIDDLE + ["issue_deltas"] + PASSES, RUNTIME);
  }

  lemma Boundaries()
    ensures Less("decision_eligible", "deltas") && Less("deltas", "descriptor_bound")
      && Less("inventory_operation_id", "issue_deltas")
    ensures Less("issue_deltas", "observed_at") && Less("product_seal", "public_core_version")
  {
  }

  /** The member list of an artifact is already in key order. */
  lemma ArtifactAscends(meta: Metadata, deltas: seq<Value>, issues: seq<Value>)
    requires Complete(meta)
    ensures Ascending(ArtifactFields(meta, deltas, issues), FieldKey())
  {
    KeysInOrder();
    var fields, keys := ArtifactFields(meta, deltas, issues),
      HEAD + ["deltas"] + MIDDLE + ["issue_deltas"] + PASSES + RUNTIME;
    hide HEAD, MIDDLE, PASSES, RUNTIME, Complete, InOrder;
    InOrderAscends(fields, keys);
  }

  // ----- Records are canonical -----

  predicate StateBasic(p: Option<PassState>) {
    p.Some? ==> Basic(p.value.kind) && Basic(p.value.mode) && (p.value.sha.Some? ==> Basic(p.value.sha.value))
                && (p.value.target.Some? ==> Basic(p.value.target.value))
  }

  predicate DeltaBasic(r: DeltaRecord) {
    Basic(r.path) && Basic(r.change) && StateBasic(r.pass1) && StateBasic(r.pass2)
  }

  predicate IssueBasic(r: IssueRecord) { Basic(r.path) && Basic(r.reason) && Basic(r.detail) }

  ghost predicate Sound(v: Value) { Writable(v) && Canonical(v) }

  lemma ObjSound(fields: seq<Field>, keys: seq<string>)
    requires InOrder(keys) && |fields| == |keys| && forall i | 0 <= i < |fields| :: fields[i].key == keys[i]
    requires forall i | 0 <= i < |fields| :: Basic(fields[i].key) && Sound(fields[i].value)
    ensures Sound(Obj(fields))
  {
    hide Less, Basic;
    InOrderAscends(fields, keys);
  }

  const STATE_KEYS: seq<string> := ["ctime_ns", "device", "gid", "inode", "mode", "mtime_ns", "nlink", "sha256", "size",
                                    "symlink_target_hex", "type", "uid", "uploads"]

  lemma StateKeysInOrder()
    ensures InOrder(STATE_KEYS)
  {
    hide Less;
    LessAt("ctime_ns", "device", 0);
    LessAt("device", "gid", 0);
    LessAt("gid", "inode", 0);
    LessAt("inode", "mode", 0);
    LessAt("mode", "mtime_ns", 1);
    LessAt("mtime_ns", "nlink", 0);
    LessAt("nlink", "sha256", 0);
    LessAt("sha256", "size", 1);
    LessAt("size", "symlink_target_hex", 1);
    LessAt("symlink_target_hex", "type", 0);
    LessAt("type", "uid", 0);
    LessAt("uid", "uploads", 1);
  }

  lemma ScalarsSound()
    ensures Sound(Null) && (forall b :: Sound(Bool(b))) && (forall n :: Sound(Num(n))) && forall s | Basic(s) ::
      Sound(Str(s))
  {
  }

  lemma StateSound(p: Option<PassState>)
    requires StateBasic(p)
    ensures Sound(PassValue(p))
  {
    hide InOrder, Sound;
    ScalarsSound();
    if p.Some? {
      StateKeysInOrder();
      KeysBasic();
      var fields := PassValue(p).fields;
      hide Basic;
      assert forall i | 0 <= i < 13 :: Sound(fields[i].value);
      assert forall i | 0 <= i < 13 :: fields[i].key == STATE_KEYS[i];
      ObjSound(fields, STATE_KEYS);
    }
  }

  lemma KeysBasic()
    ensures forall i | 0 <= i < 13 :: Basic(STATE_KEYS[i])
    ensures forall i | 0 <= i < 6 :: Basic(DELTA_KEYS[i])
    ensures forall i | 0 <= i < 5 :: Basic(ISSUE_KEYS[i])
  {
  }

  const DELTA_KEYS: seq<string> := ["change_type", "normalized_path_hex", "pass1", "pass1_exists", "pass2", "pass2_exists"]

  const ISSUE_KEYS: seq<string> := ["detail_sha256", "normalized_path_hex", "pass1_exists", "pass2_exists", "reason"]

  lemma RecordKeysInOrder()
    ensures InOrder(DELTA_KEYS) && InOrder(ISSUE_KEYS)
  {
    hide Less;
    LessAt("change_type", "normalized_path_hex", 0);
    LessAt("normalized_path_hex", "pass1", 0);
    LessAt("pass1", "pass1_exists", 5);
    LessAt("pass1_exists", "pass2", 4);
    LessAt("pass2", "pass2_exists", 5);
    LessAt("detail_sha256", "normalized_path_hex", 0);
    LessAt("normalized_path_hex", "pass1_exists", 0);
    LessAt("pass1_exists", "pass2_exists", 4);
    LessAt("pass2_exists", "reason", 0);
  }

  lemma DeltaSound(r: DeltaRecord)
    requires DeltaBasic(r)
    ensures Sound(DeltaValue(r))
  {
    ScalarsSound();
    StateSound(r.pass1);
    StateSound(r.pass2);
    RecordKeysInOrder();
    KeysBasic();
    var fields := DeltaValue(r).fields;
    hide Basic, InOrder, Sound, PassValue;
    assert forall i | 0 <= i < 6 :: Sound(fields[i].value);
    assert forall i | 0 <= i < 6 :: fields[i].key == DELTA_KEYS[i];
    ObjSound(fields, DELTA_KEYS);
  }

  lemma IssueSound(r: IssueRecord)
    requires IssueBasic(r)
    ensures Sound(IssueValue(r))
  {
    ScalarsSound();
    RecordKeysInOrder();
    KeysBasic();
    var fields := IssueValue(r).fields;
    hide Basic, InOrder, Sound, PassValue;
    assert forall i | 0 <= i < 5 :: Sound(fields[i].value);
    assert forall i | 0 <= i < 5 :: fields[i].key == ISSUE_KEYS[i];
    ObjSound(fields, ISSUE_KEYS);
  }

  // ----- The theorem -----

  ghost predicate Inputs(meta: Metadata, deltas: seq<DeltaRecord>, issues: seq<IssueRecord>) {
    Complete(meta) && (forall i | 0 <= i < |deltas| :: DeltaBasic(deltas[i])) && forall i | 0 <= i < |issues| ::
      IssueBasic(issues[i])
  }

  ghost function Written(meta: Metadata, deltas: seq<DeltaRecord>, issues: seq<IssueRecord>): Value
    requires Inputs(meta, deltas, issues)
  {
    ArtifactOf(meta, DeltaValues(deltas), IssueValues(issues))
  }

  lemma ListSound(deltas: seq<DeltaRecord>, issues: seq<IssueRecord>)
    requires (forall i | 0 <= i < |deltas| :: DeltaBasic(deltas[i])) && forall i | 0 <= i < |issues| ::
      IssueBasic(issues[i])
    ensures forall i | 0 <= i < |deltas| :: Sound(DeltaValues(deltas)[i]) && Writable(Canon(DeltaValues(deltas)[i]))
    ensures forall i | 0 <= i < |issues| :: Sound(IssueValues(issues)[i]) && Writable(Canon(IssueValues(issues)[i]))
  {
    hide DeltaValue, IssueValue, DeltaBasic, IssueBasic, Writable, Canonical, Canon;
    forall i | 0 <= i < |deltas| ensures Sound(DeltaValues(deltas)[i]) && Writable(Canon(DeltaValues(deltas)[i])) {
      DeltaSound(deltas[i]);
      CanonKeeps(DeltaValue(deltas[i]));
    }
    forall i | 0 <= i < |issues| ensures Sound(IssueValues(issues)[i]) && Writable(Canon(IssueValues(issues)[i])) {
      IssueSound(issues[i]);
      CanonKeeps(IssueValue(issues[i]));
    }
  }

  lemma MembersUnique(meta: Metadata, keys: seq<string>)
    requires Complete(meta) && Keyed(meta, keys)
    ensures forall i | 0 <= i < |keys| ::
      var f := Members(meta, keys)[i]; Basic(f.key) && Writable(f.value) && UniqueKeys(f.value)
  {
    hide Basic, Writable, UniqueKeys;
  }

  /** The artifact has distinct keys everywhere and can be written. */
  lemma WrittenUnique(meta: Metadata, deltas: seq<DeltaRecord>, issues: seq<IssueRecord>)
    requires Inputs(meta, deltas, issues)
    ensures UniqueKeys(Written(meta, deltas, issues)) && Writable(Written(meta, deltas, issues))
  {
    ListSound(deltas, issues);
    var ds, us := DeltaValues(deltas), IssueValues(issues);
    forall i | 0 <= i < |ds| ensures UniqueKeys(ds[i]) { CanonicalUnique(ds[i]); }
    forall i | 0 <= i < |us| ensures UniqueKeys(us[i]) { CanonicalUnique(us[i]); }
    assert UniqueKeys(Arr(ds)) && UniqueKeys(Arr(us)) && Writable(Arr(ds)) && Writable(Arr(us));
    MembersUnique(meta, HEAD);
    MembersUnique(meta, MIDDLE);
    MembersUnique(meta, PASSES);
    MembersUnique(meta, RUNTIME);
    ArtifactAscends(meta, ds, us);
    hide HEAD, MIDDLE, PASSES, RUNTIME, Complete, Less, Members, Canon, DeltaValues, IssueValues, Basic, Ascending;
    AscendingDistinct(ArtifactFields(meta, ds, us));
    FieldsUnique(ArtifactFields(meta, ds, us));
  }

  lemma AscendingDistinct(fields: seq<Field>)
    requires Ascending(fields, FieldKey())
    ensures DistinctKeys(fields, FieldKey())
  {
    forall i, j | 0 <= i < j < |fields| ensures FieldKey()(fields[i]) != FieldKey()(fields[j]) {
      LessIrreflexive(FieldKey()(fields[i]));
    }
  }

  lemma FieldsUnique(fields: seq<Field>)
    requires DistinctKeys(fields, FieldKey())
    requires forall i | 0 <= i < |fields| ::
      Basic(fields[i].key) && Writable(fields[i].value) && UniqueKeys(fields[i].value)
    ensures UniqueKeys(Obj(fields)) && Writable(Obj(fields))
  {
    hide Basic;
  }

  lemma FieldsPrintable(fields: seq<Field>)
    requires Ascending(fields, FieldKey()) && Writable(Obj(fields)) && Printable(fields)
    ensures Writable(Canon(Obj(fields))) && Dump(Canon(Obj(fields))) == Opened(fields) + "}"
  {
    var canon := CanonFields(fields);
    CanonPrintable(fields);
    CanonOrder(fields);
    assert Canon(Obj(fields)) == Obj(canon);
    assert Dump(Obj(canon)) == "{" + DumpFields(canon) + "}";
  }

  lemma CanonOrder(fields: seq<Field>)
    requires Ascending(fields, FieldKey())
    ensures Sort(CanonFields(fields), FieldKey()) == CanonFields(fields)
  {
    var canon := CanonFields(fields);
    hide Less;
    assert forall i | 0 <= i < |canon| :: FieldKey()(canon[i]) == FieldKey()(fields[i]);
    assert Ascending(canon, FieldKey());
    SortOfAscending(canon, FieldKey());
  }

  /** What the streamed members add up to is the canonical text of the whole object. */
  lemma StreamIsCanonical(meta: Metadata, deltas: seq<DeltaRecord>, issues: seq<IssueRecord>)
    requires Inputs(meta, deltas, issues) && Printable(ArtifactFields(meta, DeltaValues(deltas), IssueValues(issues)))
    ensures var v := Written(meta, deltas, issues);
      && Writable(Canon(v)) && Opened(ArtifactFields(meta, DeltaValues(deltas), IssueValues(issues)))
        + "}\n" == CanonicalText(v)
      && LoadJson(CanonicalText(v)) == Some(Canon(v))
  {
    var v, fields := Written(meta, deltas, issues), ArtifactFields(meta, DeltaValues(deltas), IssueValues(issues));
    WrittenUnique(meta, deltas, issues);
    ArtifactAscends(meta, DeltaValues(deltas), IssueValues(issues));
    hide ArtifactFields, DeltaValues, IssueValues, Opened, Canon, Dump, Writable, UniqueKeys, LoadJson, Ascending,
      Inputs, Printable;
    assert v == Obj(fields);
    FieldsPrintable(fields);
    CanonicalLoads(v);
    assert Opened(fields) + "}\n" == Opened(fields) + "}" + "\n";
  }

  /** write_artifact: whenever it finishes, the bytes written around the record callbacks are the sorted-key canonical
      text of the whole object, for any number of records, and the consumer's comparison accepts them. */
  method WriteArtifact(w: BoundedWriter, meta: Metadata, deltas: seq<DeltaRecord>, issues: seq<IssueRecord>)
    returns (alive: bool)
    requires w.Valid() && w.cap == ARTIFACT_BYTE_CAP && w.written == "" && Inputs(meta, deltas, issues)
    modifies w
    ensures Writable(Canon(Written(meta, deltas, issues)))
    ensures alive ==>
      && w.written == CanonicalText(Written(meta, deltas, issues))
      && LoadJson(w.written) == Some(Canon(Written(meta, deltas, issues)))
    ensures w.Admits(|CanonicalText(Written(meta, deltas, issues))|) ==> alive
  {
    hide Opened, Printable, Canon, Writable, Complete, Members, Keyed, DeltaValues, IssueValues, Written, LoadJson,
      Quoted, HEAD, MIDDLE, PASSES, RUNTIME, Basic, DeltaBasic, IssueBasic;
    ListSound(deltas, issues);
    ListKeys();
    ghost var all := ArtifactFields(meta, DeltaValues(deltas), IssueValues(issues));
    AllPrintable(meta, deltas, issues);
    StreamIsCanonical(meta, deltas, issues);
    BlocksKeyed(meta);
    FieldsAre(meta, DeltaValues(deltas), IssueValues(issues));
    NothingOpened();
    OpenedGrows([], all);
    alive := w.Write("{");
    if !alive { return; }
    assert [] + Members(meta, HEAD) == Members(meta, HEAD);
    alive := WriteHead(w, [], all, meta);
    if !alive { return; }
    ghost var d := Members(meta, HEAD);
    alive := ListMember(w, d, all, "deltas", DeltaValues(deltas));
    if !alive { return; }
    d := d + [Field("deltas", Arr(DeltaValues(deltas)))];
    alive := WriteMiddle(w, d, all, meta);
    if !alive { return; }
    d := d + Members(meta, MIDDLE);
    alive := ListMember(w, d, all, "issue_deltas", IssueValues(issues));
    if !alive { return; }
    d := d + [Field("issue_deltas", Arr(IssueValues(issues)))];
    alive := WritePasses(w, d, all, meta);
    if !alive { return; }
    d := d + Members(meta, PASSES);
    alive := WriteRuntime(w, d, all, meta);
    if !alive { return; }
    d := d + Members(meta, RUNTIME);
    assert d == all;
    alive := w.Write("}\n");
  }

  lemma NothingOpened()
    ensures Printable([]) && Opened([]) == "{"
  {
  }

  lemma ListKeys()
    ensures Basic("deltas") && Basic("issue_deltas")
  {
  }

  lemma AllPrintable(meta: Metadata, deltas: seq<DeltaRecord>, issues: seq<IssueRecord>)
    requires Inputs(meta, deltas, issues)
    ensures Printable(ArtifactFields(meta, DeltaValues(deltas), IssueValues(issues)))
  {
    ListSound(deltas, issues);
    ListKeys();
    var ds, us := DeltaValues(deltas), IssueValues(issues);
    AllItems(ds);
    AllItems(us);
    ListValue(ds);
    ListValue(us);
    assert Complete(meta);
    hide *;
    BlockPrintable(meta, HEAD);
    BlockPrintable(meta, MIDDLE);
    BlockPrintable(meta, PASSES);
    BlockPrintable(meta, RUNTIME);
    BlocksKeyed(meta);
    OnePrintable(Field("deltas", Arr(ds)));
    OnePrintable(Field("issue_deltas", Arr(us)));
    PrintableConcat(Members(meta, HEAD), [Field("deltas", Arr(ds))]);
    PrintableConcat(Members(meta, HEAD) + [Field("deltas", Arr(ds))], Members(meta, MIDDLE));
    var front := Members(meta, HEAD) + [Field("deltas", Arr(ds))] + Members(meta, MIDDLE);
    PrintableConcat(front, [Field("issue_deltas", Arr(us))]);
    PrintableConcat(front + [Field("issue_deltas", Arr(us))], Members(meta, PASSES));
    PrintableConcat(front + [Field("issue_deltas", Arr(us))] + Members(meta, PASSES), Members(meta, RUNTIME));
    FieldsAre(meta, ds, us);
  }

  lemma FieldsAre(meta: Metadata, ds: seq<Value>, us: seq<Value>)
    requires Complete(meta)
    ensures Keyed(meta, HEAD) && Keyed(meta, MIDDLE) && Keyed(meta, PASSES) && Keyed(meta, RUNTIME)
    ensures ArtifactFields(meta, ds, us) ==
      Members(meta, HEAD) + [Field("deltas", Arr(ds))] + Members(meta, MIDDLE) + [Field("issue_deltas", Arr(us))]
      + Members(meta, PASSES) + Members(meta, RUNTIME)
  {
    hide HEAD, MIDDLE, PASSES, RUNTIME, Keyed;
  }

  lemma BlocksKeyed(meta: Metadata)
    requires Complete(meta)
    ensures Keyed(meta, HEAD) && Keyed(meta, MIDDLE) && Keyed(meta, PASSES) && Keyed(meta, RUNTIME) && |HEAD| == 2
  {
  }

  lemma BlockPrintable(meta: Metadata, keys: seq<string>)
    requires Complete(meta) && keys in {HEAD, MIDDLE, PASSES, RUNTIME}
    ensures Keyed(meta, keys) && Printable(Members(meta, keys))
  {
    hide HEAD, MIDDLE, PASSES, RUNTIME, Basic, Writable, Canon;
    assert Keyed(meta, keys);
    forall i | 0 <= i < |keys| ensures Basic(keys[i]) && Writable(Canon(meta[keys[i]])) { HasKey(meta, keys, i); }
  }

  lemma OnePrintable(f: Field)
    requires Basic(f.key) && Writable(Canon(f.value))
    ensures Printable([f])
  {
    hide Basic, Writable, Canon;
  }

  lemma PrintableConcat(a: seq<Field>, b: seq<Field>)
    requires Printable(a) && Printable(b)
    ensures Printable(a + b)
  {
    hide Basic, Writable, Canon;
  }
}
