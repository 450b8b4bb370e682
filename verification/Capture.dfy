/** From a raw capture to its artifact and back: what parse_raw_pass accepts can always be written, and what was
    written can always be read by the stream. */
module Capture {
  import opened Text
  import opened Records
  import Inventory
  import opened Json
  import opened Loads
  import opened RawPass
  import opened Artifact
  import opened JsonReader
  import opened Extraction
  import opened RoundTrip
  import Streams
  import Runtime

  // ----- Texts that need no escape -----

  predicate Bare(s: string) { forall i | 0 <= i < |s| :: ' ' <= s[i] <= '~' && s[i] != '"' && s[i] != '\\' }

  lemma BareQuoted(s: string)
    requires Bare(s)
    ensures Basic(s) && Quoted(s) == "\"" + s + "\"" && |Quoted(s)| == |s| + 2
  {
    BareEscaped(s);
  }

  lemma {:induction false} BareEscaped(s: string)
    requires Bare(s)
    ensures Basic(s) && Escaped(s) == s
  {
    if |s| > 0 {
      BareEscaped(s[1..]);
      assert Escape(s[0]) == [s[0]];
      assert s == [s[0]] + s[1..];
    }
  }

  lemma StringFitted(s: string, room: Room)
    requires Bare(s) && |s| + 2 <= STRING_CAP && room != Some(0)
    ensures Writable(Str(s)) && Fits(Str(s), room)
  {
    hide Quoted;
    BareQuoted(s);
  }

  lemma NumberFitted(n: int, room: Room)
    requires -MAX_I64 - 1 <= n <= MAX_U64 && room != Some(0)
    ensures Fits(Num(n), room)
  {
    hide SignedDecimal;
    Streams.WordLength(n);
  }

  predicate ShortKeys(keys: seq<string>) { forall i | 0 <= i < |keys| :: Bare(keys[i]) && |keys[i]| <= 64 }

  /** An object with these keys, whose members fit one level down. */
  lemma ObjectFitted(fields: seq<Field>, keys: seq<string>, room: Room)
    requires room != Some(0) && ShortKeys(keys) && |fields| == |keys| && forall i | 0 <= i < |fields| ::
      fields[i].key == keys[i]
    requires forall i | 0 <= i < |fields| :: Writable(fields[i].value) && Fits(fields[i].value, Inner(room))
    ensures Writable(Obj(fields)) && Fits(Obj(fields), room)
  {
    hide Bare, Quoted, Basic;
    forall i | 0 <= i < |fields| ensures Basic(fields[i].key) && |Quoted(fields[i].key)| <= 66 { BareQuoted(keys[i]); }
  }

  // ----- Parsed records -----

  lemma StateKeysShort()
    ensures ShortKeys(STATE_KEYS)
  {
    StateKeysBare();
    assert forall i | 0 <= i < 13 :: |STATE_KEYS[i]| <= 64;
    hide Bare;
  }

  lemma StateKeysBare()
    ensures Bare("ctime_ns") && Bare("device") && Bare("gid") && Bare("inode") && Bare("mode") && Bare("mtime_ns")
      && Bare("nlink")
    ensures Bare("sha256") && Bare("size") && Bare("symlink_target_hex") && Bare("type") && Bare("uid")
      && Bare("uploads")
  {
  }

  lemma DeltaKeysShort()
    ensures ShortKeys(DELTA_KEYS)
  {
    assert Bare("change_type") && Bare("normalized_path_hex");
    assert Bare("pass1") && Bare("pass2") by { PassKeys(); }
    assert Bare("pass1_exists") && Bare("pass2_exists") by { PassKeys(); }
    hide Bare;
  }

  lemma PassKeys()
    ensures Bare("pass1") && Bare("pass2") && Bare("pass1_exists") && Bare("pass2_exists")
  {
  }

  lemma IssueKeysShort()
    ensures ShortKeys(ISSUE_KEYS)
  {
    PassKeys();
    IssueKeysBare();
    hide Bare;
  }

  lemma IssueKeysBare()
    ensures Bare("detail_sha256") && Bare("normalized_path_hex") && Bare("reason")
  {
  }

  lemma HexBare(s: string)
    requires HexText(s)
    ensures Bare(s)
  {
  }

  lemma WordsBare(s: string)
    requires s in KINDS || s in CHANGES || ModeText(s) || ReasonText(s)
    ensures Bare(s) && |s| <= 64
  {
  }

  lemma OptionalFitted(o: Option<string>, room: Room)
    requires o.Some? ==> HexText(o.value) && |o.value| <= 8192
    requires room != Some(0)
    ensures Writable(Optional(o)) && Fits(Optional(o), room)
  {
    hide HexText, Bare;
    if o.Some? {
      HexBare(o.value);
      StringFitted(o.value, room);
    }
  }

  lemma TruthFitted(b: bool, room: Room)
    requires room != Some(0)
    ensures Writable(Bool(b)) && Fits(Bool(b), room)
  {
  }

  /** The text columns of a state. */
  lemma StateWords(v: Inventory.Fields)
    requires PassStateOk(v, true)
    ensures var s := PassStateOf(v, true).value;
      && Bare(s.kind) && |s.kind| <= 64 && Bare(s.mode) && |s.mode| <= 64
      && (s.sha.Some? ==> HexText(s.sha.value) && |s.sha.value| <= 8192)
      && (s.target.Some? ==> HexText(s.target.value) && |s.target.value| <= 8192)
  {
    hide Bare, Numeric, SignedNumeric, ModeText, HexText;
    WordsBare(v[0]);
    WordsBare(v[4]);
  }

  predicate NumbersFit(s: PassState, room: Room) {
    && Fits(Num(s.device), room) && Fits(Num(s.inode), room) && Fits(Num(s.size), room) && Fits(Num(s.uid), room)
    && Fits(Num(s.gid), room) && Fits(Num(s.nlink), room) && Fits(Num(s.mtime), room) && Fits(Num(s.ctime), room)
  }

  /** The number columns of a state. */
  lemma StateNumbers(v: Inventory.Fields, room: Room)
    requires PassStateOk(v, true) && room != Some(0)
    ensures NumbersFit(PassStateOf(v, true).value, room)
  {
    var s := PassStateOf(v, true).value;
    hide Fits, HexText, ModeText;
    NumberFitted(s.device, room);
    NumberFitted(s.inode, room);
    NumberFitted(s.size, room);
    NumberFitted(s.uid, room);
    NumberFitted(s.gid, room);
    NumberFitted(s.nlink, room);
    NumberFitted(s.mtime, room);
    NumberFitted(s.ctime, room);
  }

  /** pass_state gives only states the writer and the stream can handle. */
  lemma StateFitted(v: Inventory.Fields, shown: bool, room: Room)
    requires PassStateOk(v, shown) && room.Some? && room.value >= 2
    ensures StateBasic(PassStateOf(v, shown))
    ensures Writable(PassValue(PassStateOf(v, shown))) && Fits(PassValue(PassStateOf(v, shown)), room)
  {
    if shown {
      var inner := Inner(room);
      StateWords(v);
      StateNumbers(v, inner);
      StateObject(PassStateOf(v, shown).value, room);
    }
  }

  lemma StateObject(s: PassState, room: Room)
    requires room.Some? && room.value >= 2
    requires Bare(s.kind) && |s.kind| <= 64 && Bare(s.mode) && |s.mode| <= 64
    requires s.sha.Some? ==> HexText(s.sha.value) && |s.sha.value| <= 8192
    requires s.target.Some? ==> HexText(s.target.value) && |s.target.value| <= 8192
    requires NumbersFit(s, Inner(room))
    ensures StateBasic(Some(s)) && Writable(PassValue(Some(s))) && Fits(PassValue(Some(s)), room)
  {
    StateKeysShort();
    StateTexts(s);
    StateKeys(s);
    StateValues(s, Inner(room));
    hide *;
    ObjectFitted(PassValue(Some(s)).fields, STATE_KEYS, room);
  }

  lemma StateValues(s: PassState, room: Room)
    requires room != Some(0) && Bare(s.kind) && |s.kind| <= 64 && Bare(s.mode) && |s.mode| <= 64
    requires s.sha.Some? ==> HexText(s.sha.value) && |s.sha.value| <= 8192
    requires s.target.Some? ==> HexText(s.target.value) && |s.target.value| <= 8192
    requires NumbersFit(s, room)
    ensures PassValue(Some(s)).Obj? && |PassValue(Some(s)).fields| == 13
    ensures forall i | 0 <= i < 13 ::
      Writable(PassValue(Some(s)).fields[i].value) && Fits(PassValue(Some(s)).fields[i].value, room)
  {
    StringFitted(s.kind, room);
    StringFitted(s.mode, room);
    OptionalFitted(s.sha, room);
    OptionalFitted(s.target, room);
    TruthFitted(s.uploads, room);
    hide Bare, HexText, Fits, Optional, StringFits, Basic;
  }

  lemma StateKeys(s: PassState)
    ensures PassValue(Some(s)).Obj? && |PassValue(Some(s)).fields| == |STATE_KEYS| == 13
    ensures forall i | 0 <= i < 13 :: PassValue(Some(s)).fields[i].key == STATE_KEYS[i]
  {
    hide Optional;
  }

  lemma StateTexts(s: PassState)
    requires Bare(s.kind) && Bare(s.mode) && (s.sha.Some? ==> HexText(s.sha.value))
      && (s.target.Some? ==> HexText(s.target.value))
    ensures StateBasic(Some(s))
  {
  }

  lemma DeltaFitted(f: Inventory.Fields, room: Room)
    requires DeltaOk(f) && |f[1]| + 2 <= STRING_CAP && room.Some? && room.value >= 3
    ensures DeltaBasic(DeltaRecordOf(f)) && Writable(DeltaValue(DeltaRecordOf(f)))
      && Fits(DeltaValue(DeltaRecordOf(f)), room)
  {
    var r, inner := DeltaRecordOf(f), Inner(room);
    hide Bare, HexText, Fits, ShortKeys, PassValue, StringFits, StateBasic, PassStateOk, PassStateOf, PathOk,
      DELTA_KEYS;
    assert HexText(f[1]) by { PathHexadecimal(f[1]); }
    HexBare(f[1]);
    WordsBare(f[2]);
    BareQuoted(f[1]);
    BareQuoted(f[2]);
    StateFitted(f[5..18], f[3] == "true", inner);
    StateFitted(f[18..31], f[4] == "true", inner);
    DeltaObject(r, room);
  }

  lemma PathHexadecimal(s: string)
    requires PathOk(s, false)
    ensures HexText(s)
  {
  }

  lemma DeltaObject(r: DeltaRecord, room: Room)
    requires room.Some? && room.value >= 3 && Bare(r.path) && |r.path| + 2 <= STRING_CAP && Bare(r.change)
      && |r.change| <= 64
    requires Writable(PassValue(r.pass1)) && Fits(PassValue(r.pass1), Inner(room))
    requires Writable(PassValue(r.pass2)) && Fits(PassValue(r.pass2), Inner(room))
    ensures Writable(DeltaValue(r)) && Fits(DeltaValue(r), room)
  {
    var inner := Inner(room);
    hide PassValue;
    StringFitted(r.path, inner);
    StringFitted(r.change, inner);
    TruthFitted(r.pass1.Some?, inner);
    TruthFitted(r.pass2.Some?, inner);
    DeltaKeysShort();
    var fields := DeltaValue(r).fields;
    assert forall i | 0 <= i < 6 :: fields[i].key == DELTA_KEYS[i];
    hide Bare, Fits, ShortKeys, StringFits, Basic, DELTA_KEYS;
    assert forall i | 0 <= i < 6 :: Writable(fields[i].value) && Fits(fields[i].value, inner);
    hide DeltaValue;
    ObjectFitted(fields, DELTA_KEYS, room);
  }

  lemma IssueFitted(f: Inventory.Fields, room: Room)
    requires IssueDeltaOk(f) && |f[1]| + 2 <= STRING_CAP && room.Some? && room.value >= 2
    ensures IssueBasic(IssueRecordOf(f)) && Writable(IssueValue(IssueRecordOf(f)))
      && Fits(IssueValue(IssueRecordOf(f)), room)
  {
    var r := IssueRecordOf(f);
    hide Bare, HexText, Fits, ShortKeys, StringFits, PathOk, ISSUE_KEYS, ReasonText;
    assert HexText(f[1]) by { PathHexadecimal(f[1]); }
    HexBare(f[1]);
    HexBare(f[3]);
    WordsBare(f[2]);
    BareQuoted(f[1]);
    BareQuoted(f[2]);
    BareQuoted(f[3]);
    IssueObject(r, room);
  }

  lemma IssueObject(r: IssueRecord, room: Room)
    requires room.Some? && room.value >= 2 && Bare(r.path) && |r.path| + 2 <= STRING_CAP
    requires Bare(r.reason) && |r.reason| <= 64 && Bare(r.detail) && |r.detail| <= 64
    ensures Writable(IssueValue(r)) && Fits(IssueValue(r), room)
  {
    assert Inner(room) != Some(0) && room != Some(0);
    assert IssueValue(r) == Obj(IssueValue(r).fields);
    hide *;
    IssueKeysShort();
    IssueKeys(r);
    IssueMembers(r, Inner(room));
    ObjectFitted(IssueValue(r).fields, ISSUE_KEYS, room);
  }

  lemma IssueMembers(r: IssueRecord, room: Room)
    requires room != Some(0) && Bare(r.path) && |r.path| + 2 <= STRING_CAP
    requires Bare(r.reason) && |r.reason| <= 64 && Bare(r.detail) && |r.detail| <= 64
    ensures IssueValue(r).Obj? && |IssueValue(r).fields| == 5
    ensures forall i | 0 <= i < 5 ::
      Writable(IssueValue(r).fields[i].value) && Fits(IssueValue(r).fields[i].value, room)
  {
    StringFitted(r.path, room);
    StringFitted(r.reason, room);
    StringFitted(r.detail, room);
    TruthFitted(r.pass1, room);
    TruthFitted(r.pass2, room);
    hide Bare, Fits, StringFits, Basic;
  }

  lemma IssueKeys(r: IssueRecord)
    ensures IssueValue(r).Obj? && |IssueValue(r).fields| == |ISSUE_KEYS| == 5
    ensures forall i | 0 <= i < 5 :: IssueValue(r).fields[i].key == ISSUE_KEYS[i]
  {
  }

  // ----- From lines to records -----

  lemma {:induction false} FieldInTotal(f: seq<string>, i: nat)
    requires i < |f|
    ensures |f[i]| + 1 <= Streams.Total(f)
  {
    if i > 0 { FieldInTotal(f[1..], i - 1); }
  }

  /** No field of a framed line is longer than the line. */
  lemma FieldShort(line: string, i: nat)
    requires Framed(line) && 0 < i < |Split(line, TAB)| && |Split(line, TAB)[0]| >= 5
    ensures |Split(line, TAB)[i]| + 2 <= STRING_CAP
  {
    var f := Split(line, TAB);
    JoinSplit(line, TAB);
    Streams.JoinTotal(f, TAB);
    FieldInTotal(f[1..], i - 1);
  }

  ghost predicate Listable(values: seq<Value>) {
    forall i | 0 <= i < |values| :: Writable(values[i]) && Canonical(values[i]) && Fits(values[i], Some(31))
  }

  /** Whatever the delta loop of parse_raw_pass accepts can be written and read back within the stream's caps. */
  lemma DeltasListable(lines: seq<string>)
    requires (forall i | 0 <= i < |lines| :: Framed(lines[i])) && DeltasOk(Inventory.SplitAll(lines))
    ensures var records := DeltaRecords(Inventory.SplitAll(lines));
      (forall i | 0 <= i < |records| :: DeltaBasic(records[i])) && Listable(DeltaValues(records))
  {
    var rows := Inventory.SplitAll(lines);
    var records := DeltaRecords(rows);
    hide DeltaOk, DeltaBasic, DeltaValue, DeltaRecordOf, Framed, Canonical;
    forall i | 0 <= i < |records|
      ensures DeltaBasic(records[i]) && Writable(DeltaValues(records)[i]) && Canonical(DeltaValues(records)[i])
              && Fits(DeltaValues(records)[i], Some(31))
    {
      DeltaTag(rows[i]);
      FieldShort(lines[i], 1);
      DeltaFitted(rows[i], Some(31));
      DeltaSound(records[i]);
    }
  }

  lemma DeltaTag(f: Inventory.Fields)
    requires DeltaOk(f)
    ensures |f| == 31 && |f[0]| == 5
  {
  }

  /** The issue loop likewise. */
  lemma IssuesListable(lines: seq<string>)
    requires (forall i | 0 <= i < |lines| :: Framed(lines[i])) && IssuesOk(Inventory.SplitAll(lines))
    ensures var records := IssueRecords(Inventory.SplitAll(lines));
      (forall i | 0 <= i < |records| :: IssueBasic(records[i])) && Listable(IssueValues(records))
  {
    var rows := Inventory.SplitAll(lines);
    var records := IssueRecords(rows);
    hide IssueDeltaOk, IssueBasic, IssueValue, IssueRecordOf, Framed, Canonical;
    forall i | 0 <= i < |records|
      ensures IssueBasic(records[i]) && Writable(IssueValues(records)[i]) && Canonical(IssueValues(records)[i])
              && Fits(IssueValues(records)[i], Some(31))
    {
      IssueTag(rows[i]);
      FieldShort(lines[i], 1);
      IssueFitted(rows[i], Some(31));
      IssueSound(records[i]);
    }
  }

  lemma IssueTag(f: Inventory.Fields)
    requires IssueDeltaOk(f)
    ensures |f| == 6 && |f[0]| == 11
  {
  }

  // ----- The artifact of a capture -----

  /** A member the stream can read once it is written. */
  ghost predicate MemberFits(f: Field) { TopFits(Field(f.key, Canon(f.value))) }

  /** The caps of the stream, asked of the metadata only. */
  ghost predicate MetaFits(meta: Metadata) {
    forall k | k in meta :: MemberFits(Field(k, meta[k]))
  }

  lemma ListFits(key: string, values: seq<Value>)
    requires Listable(values) && key in {"deltas", "issue_deltas"}
    ensures MemberFits(Field(key, Arr(values)))
  {
    ListKept(values);
    ListRoom(values);
    ListKey(key);
    hide *;
    PlainFits(key, Arr(values));
  }

  lemma ListKey(key: string)
    requires key in {"deltas", "issue_deltas"}
    ensures key !in WANTED && key != "product_seal" && key != "raw_capture" && Bare(key) && |key| <= 64
  {
  }

  lemma PlainFits(key: string, v: Value)
    requires key !in WANTED && key != "product_seal" && key != "raw_capture" && Bare(key) && |key| <= 64
    requires Canon(v) == v && Writable(v) && Fits(v, RoomAt(1))
    ensures MemberFits(Field(key, v))
  {
    BareQuoted(key);
    hide Quoted, Basic, Canon, Writable, Bare, Fits, WANTED;
  }

  lemma ListKept(values: seq<Value>)
    requires Listable(values)
    ensures Canon(Arr(values)) == Arr(values) && Writable(Arr(values))
  {
    hide Canonical;
    CanonItemsKeep(values);
  }

  lemma ListRoom(values: seq<Value>)
    requires Listable(values)
    ensures Writable(Arr(values)) && Fits(Arr(values), RoomAt(1))
  {
    hide Canonical;
  }

  /** Every member of the artifact of a capture is within the stream's caps if those of the metadata are. */
  lemma CaptureFits(meta: Metadata, deltas: seq<DeltaRecord>, issues: seq<IssueRecord>)
    requires Inputs(meta, deltas, issues) && MetaFits(meta) && Listable(DeltaValues(deltas))
      && Listable(IssueValues(issues))
    ensures WithinCaps(meta, deltas, issues)
  {
    var ds, us := DeltaValues(deltas), IssueValues(issues);
    var fields := ArtifactFields(meta, ds, us);
    ListFits("deltas", ds);
    ListFits("issue_deltas", us);
    BlocksKeyed(meta);
    FieldsAre(meta, ds, us);
    hide MemberFits, DeltaValues, IssueValues, ArtifactFields, HEAD, MIDDLE, PASSES, RUNTIME, Listable, Canon;
    MembersFit(meta, HEAD);
    MembersFit(meta, MIDDLE);
    MembersFit(meta, PASSES);
    MembersFit(meta, RUNTIME);
    hide *;
    JoinFits(Members(meta, HEAD), [Field("deltas", Arr(ds))]);
    JoinFits(Members(meta, HEAD) + [Field("deltas", Arr(ds))], Members(meta, MIDDLE));
    var front := Members(meta, HEAD) + [Field("deltas", Arr(ds))] + Members(meta, MIDDLE);
    JoinFits(front, [Field("issue_deltas", Arr(us))]);
    JoinFits(front + [Field("issue_deltas", Arr(us))], Members(meta, PASSES));
    JoinFits(front + [Field("issue_deltas", Arr(us))] + Members(meta, PASSES), Members(meta, RUNTIME));
    AllRead(meta, deltas, issues);
  }

  ghost predicate AllFit(fields: seq<Field>) { forall i | 0 <= i < |fields| :: MemberFits(fields[i]) }

  lemma MembersFit(meta: Metadata, keys: seq<string>)
    requires MetaFits(meta) && Keyed(meta, keys)
    ensures AllFit(Members(meta, keys))
  {
    hide MemberFits;
    forall i | 0 <= i < |keys| ensures MemberFits(Members(meta, keys)[i]) { assert keys[i] in meta; }
  }

  lemma JoinFits(a: seq<Field>, b: seq<Field>)
    requires AllFit(a) && (AllFit(b) || (|b| == 1 && MemberFits(b[0])))
    ensures AllFit(a + b)
  {
    hide MemberFits;
  }

  lemma AllRead(meta: Metadata, deltas: seq<DeltaRecord>, issues: seq<IssueRecord>)
    requires Inputs(meta, deltas, issues) && AllFit(ArtifactFields(meta, DeltaValues(deltas), IssueValues(issues)))
    ensures WithinCaps(meta, deltas, issues)
  {
    var fields := ArtifactFields(meta, DeltaValues(deltas), IssueValues(issues));
    hide DeltaValues, IssueValues, ArtifactFields, Inputs, TopFits, Canon;
    forall i | 0 <= i < |TextFields(meta, deltas, issues)| ensures TopFits(TextFields(meta, deltas, issues)[i]) {
      CanonFieldAt(fields, i);
      assert MemberFits(fields[i]);
    }
  }

  // ----- Parsing and writing in one pass -----

  /** The two blocks of a capture differ in their rows, their order and the objects written for them. */
  datatype Block = DELTAS | ISSUES

  predicate RecordOk(b: Block, f: Inventory.Fields) { if b.DELTAS? then DeltaOk(f) else IssueDeltaOk(f) }

  predicate Follows(b: Block, f: Inventory.Fields, g: Inventory.Fields) {
    if b.DELTAS? then Less(PathKey()(f), PathKey()(g)) else IssueBefore(f, g)
  }

  function RecordValue(b: Block, f: Inventory.Fields): Value requires RecordOk(b, f) {
    if b.DELTAS? then DeltaValue(DeltaRecordOf(f)) else IssueValue(IssueRecordOf(f))
  }

  ghost predicate BlockOk(b: Block, lines: seq<string>) {
    && (forall i | 0 <= i < |lines| :: Framed(lines[i]) && RecordOk(b, Split(lines[i], TAB)))
    && forall i | 0 < i < |lines| :: Follows(b, Split(lines[i - 1], TAB), Split(lines[i], TAB))
  }

  ghost function BlockValues(b: Block, lines: seq<string>): (values: seq<Value>)
    requires BlockOk(b, lines)
    ensures |values| == |lines|
  {
    seq(|lines|, i requires 0 <= i < |lines| => RecordValue(b, Split(lines[i], TAB)))
  }

  lemma BlockListable(b: Block, lines: seq<string>)
    requires BlockOk(b, lines)
    ensures Listable(BlockValues(b, lines))
  {
    hide Canonical, DeltaOk, IssueDeltaOk, DeltaValue, IssueValue, DeltaRecordOf, IssueRecordOf, Framed, Split;
    forall i | 0 <= i < |lines|
      ensures Writable(BlockValues(b, lines)[i]) && Canonical(BlockValues(b, lines)[i])
        && Fits(BlockValues(b, lines)[i], Some(31))
    {
      RecordListable(b, lines[i]);
    }
  }

  lemma RecordListable(b: Block, line: string)
    requires Framed(line) && RecordOk(b, Split(line, TAB))
    ensures var v := RecordValue(b, Split(line, TAB)); Writable(v) && Canonical(v) && Fits(v, Some(31))
  {
    var f := Split(line, TAB);
    hide DeltaOk, IssueDeltaOk, DeltaValue, IssueValue, DeltaRecordOf, IssueRecordOf, DeltaBasic, IssueBasic, Canonical,
      Framed;
    if b.DELTAS? {
      DeltaTag(f);
      FieldShort(line, 1);
      DeltaFitted(f, Some(31));
      DeltaSound(DeltaRecordOf(f));
    } else {
      IssueTag(f);
      FieldShort(line, 1);
      IssueFitted(f, Some(31));
      IssueSound(IssueRecordOf(f));
    }
  }

  lemma DeltaBlockIs(lines: seq<string>)
    ensures BlockOk(DELTAS, lines) <==>
      (forall i | 0 <= i < |lines| :: Framed(lines[i])) && DeltasOk(Inventory.SplitAll(lines))
    ensures BlockOk(DELTAS, lines) ==>
      BlockValues(DELTAS, lines) == DeltaValues(DeltaRecords(Inventory.SplitAll(lines)))
  {
    hide DeltaOk, DeltaRecordOf, DeltaValue, Framed, PathKey;
    var rows := Inventory.SplitAll(lines);
    assert forall i | 0 <= i < |lines| :: rows[i] == Split(lines[i], TAB);
  }

  lemma IssueBlockIs(lines: seq<string>)
    ensures BlockOk(ISSUES, lines) <==>
      (forall i | 0 <= i < |lines| :: Framed(lines[i])) && IssuesOk(Inventory.SplitAll(lines))
    ensures BlockOk(ISSUES, lines) ==>
      BlockValues(ISSUES, lines) == IssueValues(IssueRecords(Inventory.SplitAll(lines)))
  {
    IssueRowsAre(lines);
    hide IssueDeltaOk, IssueRecordOf, IssueValue, Framed, IssueBefore, Split;
    var rows := Inventory.SplitAll(lines);
    assert forall i | 0 <= i < |lines| :: rows[i] == Split(lines[i], TAB);
  }

  lemma IssueRowsAre(lines: seq<string>)
    ensures BlockOk(ISSUES, lines) <==>
      (forall i | 0 <= i < |lines| :: Framed(lines[i])) && IssuesOk(Inventory.SplitAll(lines))
  {
    hide IssueDeltaOk, Framed, IssueBefore, Split;
    var rows := Inventory.SplitAll(lines);
    assert forall i | 0 <= i < |lines| :: rows[i] == Split(lines[i], TAB);
  }

  lemma BlockNext(b: Block, lines: seq<string>, i: nat)
    requires i < |lines| && BlockOk(b, lines[..i])
    ensures BlockOk(b, lines[..i + 1]) <==>
      && Framed(lines[i]) && RecordOk(b, Split(lines[i], TAB))
      && (i > 0 ==> Follows(b, Split(lines[i - 1], TAB), Split(lines[i], TAB)))
    ensures BlockOk(b, lines[..i + 1]) ==>
      BlockValues(b, lines[..i + 1]) == BlockValues(b, lines[..i]) + [RecordValue(b, Split(lines[i], TAB))]
  {
    hide RecordOk, RecordValue, Framed, Follows, Split;
    assert lines[..i + 1] == lines[..i] + [lines[i]];
  }

  lemma BlockPrefix(b: Block, lines: seq<string>, i: nat)
    requires i <= |lines| && BlockOk(b, lines)
    ensures BlockOk(b, lines[..i]) && BlockValues(b, lines[..i]) == BlockValues(b, lines)[..i]
  {
    hide RecordOk, RecordValue, Framed, Follows, Split;
  }

  lemma ListableText(values: seq<Value>)
    requires Listable(values)
    ensures AllWritable(CanonItems(values)) && CanonItems(values) == values
    ensures forall i | 0 <= i < |values| :: Writable(Canon(values[i]))
  {
    hide Canonical, Writable;
    CanonItemsKeep(values);
    forall i | 0 <= i < |values| ensures Writable(Canon(values[i])) { CanonKeeps(values[i]); }
  }

  /** The records of a list, with their commas. */
  ghost function RecordText(values: seq<Value>): string requires Listable(values) {
    ListableText(values);
    DumpItems(CanonItems(values))
  }

  lemma OuterLast(a: string, b: string, c: string)
    ensures a + b + c == a + (b + c)
  {
  }

  lemma RecordNext(done: seq<Value>, value: Value)
    requires Listable(done) && Listable(done + [value])
    ensures Writable(Canon(value))
    ensures RecordText(done + [value]) == RecordText(done) + ((if |done| == 0 then "" else ",") + JsonText(value))
  {
    ListableText(done);
    ListableText(done + [value]);
    assert (done + [value])[|done|] == value;
    assert RecordText(done) == DumpItems(CanonItems(done))
      && RecordText(done + [value]) == DumpItems(CanonItems(done + [value]));
    hide *;
    ItemsAppend(done, value);
    OuterLast(RecordText(done), if |done| == 0 then "" else ",", JsonText(value));
  }

  /** emit_delta and emit_issue: one more record. */
  method Emit(w: BoundedWriter, value: Value, ghost done: seq<Value>, first: bool, ghost start: string)
    returns (alive: bool)
    requires w.Valid() && Listable(done) && Listable(done + [value]) && (first <==> |done| == 0)
    requires w.written == start + RecordText(done) && Writable(Canon(value))
    modifies w
    ensures alive ==> w.Valid() && w.written == start + RecordText(done + [value])
    ensures w.Admits(|start| + |RecordText(done + [value])|) ==> alive
  {
    hide *;
    RecordNext(done, value);
    OuterLast(start, RecordText(done), (if first then "" else ",") + JsonText(value));
    alive := w.Write((if first then "" else ",") + JsonText(value));
  }

  ghost function BlockText(b: Block, lines: seq<string>): string requires BlockOk(b, lines) {
    BlockListable(b, lines);
    RecordText(BlockValues(b, lines))
  }

  lemma BlockTextGrows(b: Block, lines: seq<string>, i: nat)
    requires i <= |lines| && BlockOk(b, lines)
    ensures BlockOk(b, lines[..i]) && |BlockText(b, lines[..i])| <= |BlockText(b, lines)|
  {
    BlockPrefix(b, lines, i);
    BlockListable(b, lines);
    ListableText(BlockValues(b, lines));
    hide BlockOk, BlockValues, Listable, CanonItems, DumpItems, Canon, Writable;
    ItemsGrow(BlockValues(b, lines), i);
  }

  /** The body of the two loops: parse_delta or parse_issue on one line, and its callback. */
  method EmitLine(w: BoundedWriter, b: Block, lines: seq<string>, i: nat, ghost start: string) returns (alive: bool)
    requires i < |lines| && w.Valid() && BlockOk(b, lines[..i]) && w.written == start + BlockText(b, lines[..i])
    modifies w
    ensures alive ==> w.Valid() && BlockOk(b, lines[..i + 1]) && w.written == start + BlockText(b, lines[..i + 1])
    ensures BlockOk(b, lines[..i + 1]) && w.Admits(|start| + |BlockText(b, lines[..i + 1])|) ==> alive
  {
    var f := Split(lines[i], TAB);
    BlockNext(b, lines, i);
    if !Framed(lines[i]) || !RecordOk(b, f) { return false; }
    if i > 0 && !Follows(b, Split(lines[i - 1], TAB), f) { return false; }
    var value := RecordValue(b, f);
    BlockListable(b, lines[..i]);
    BlockListable(b, lines[..i + 1]);
    RecordNext(BlockValues(b, lines[..i]), value);
    hide Listable, RecordText, BlockOk, BlockValues, RecordOk, RecordValue, Framed, Follows, Canon, Writable;
    alive := Emit(w, value, BlockValues(b, lines[..i]), i == 0, start);
  }

  /** The loop over one block: each line is parsed, then written, before the next one is read. */
  method EmitBlock(w: BoundedWriter, b: Block, lines: seq<string>) returns (alive: bool)
    requires w.Valid()
    modifies w
    ensures alive ==> w.Valid() && BlockOk(b, lines) && w.written == old(w.written) + BlockText(b, lines)
    ensures BlockOk(b, lines) && w.Admits(|old(w.written)| + |BlockText(b, lines)|) ==> alive
  {
    assert lines[..0] == [] && lines[..|lines|] == lines && old(w.written) + "" == old(w.written);
    NothingEmitted(b);
    hide *;
    ghost var roomy := BlockOk(b, lines) && w.Admits(|old(w.written)| + |BlockText(b, lines)|);
    for i := 0 to |lines|
      invariant w.Valid() && BlockOk(b, lines[..i]) && w.written == old(w.written) + BlockText(b, lines[..i])
    {
      if roomy { RoomyStep(w, b, lines, i, old(w.written)); }
      alive := EmitLine(w, b, lines, i, old(w.written));
      if !alive { return; }
    }
    alive := true;
  }

  lemma RoomyStep(w: BoundedWriter, b: Block, lines: seq<string>, i: nat, start: string)
    requires i < |lines| && BlockOk(b, lines) && w.Admits(|start| + |BlockText(b, lines)|)
    ensures BlockOk(b, lines[..i + 1]) && w.Admits(|start| + |BlockText(b, lines[..i + 1])|)
  {
    hide BlockOk, BlockText;
    BlockTextGrows(b, lines, i + 1);
  }

  lemma NothingEmitted(b: Block)
    ensures BlockOk(b, []) && BlockText(b, []) == ""
  {
    assert BlockValues(b, []) == [];
    ListableText([]);
    NoItems();
  }

  // ----- A capture in parts -----

  ghost predicate PartsOk(lines: seq<string>, want: Expectation) {
    && HeadOk(lines, want) && BlockOk(DELTAS, DeltaPart(lines, want)) && BlockOk(ISSUES, IssuePart(lines, want))
    && TailOk(lines, want)
  }

  lemma PartsAre(lines: seq<string>, want: Expectation)
    ensures RawPassOk(lines, want) <==> PartsOk(lines, want)
  {
    if HeadOk(lines, want) {
      DeltaBlockIs(DeltaPart(lines, want));
      IssueBlockIs(IssuePart(lines, want));
      hide BlockOk, DeltasOk, IssuesOk, Framed, HeadOk, TailOk, DeltaPart, IssuePart;
    }
  }

  // ----- The artifact of a capture, parsed while it is written -----

  ghost function DeltaRecordsOf(lines: seq<string>, want: Expectation): seq<DeltaRecord>
    requires RawPassOk(lines, want) {
    DeltaRecords(Inventory.SplitAll(DeltaPart(lines, want)))
  }

  ghost function IssueRecordsOf(lines: seq<string>, want: Expectation): seq<IssueRecord>
    requires RawPassOk(lines, want) {
    IssueRecords(Inventory.SplitAll(IssuePart(lines, want)))
  }

  function KeyOf(b: Block): string { if b.DELTAS? then "deltas" else "issue_deltas" }

  function Opener(b: Block): string { if b.DELTAS? then ",\"deltas\":[" else ",\"issue_deltas\":[" }

  ghost function ListField(b: Block, lines: seq<string>): Field requires BlockOk(b, lines) {
    Field(KeyOf(b), Arr(BlockValues(b, lines)))
  }

  lemma ListOpened(done: seq<Field>, b: Block, values: seq<Value>)
    requires Printable(done) && |done| > 0 && Listable(values)
    ensures Printable(done + [Field(KeyOf(b), Arr(values))])
    ensures Opened(done + [Field(KeyOf(b), Arr(values))]) == Opened(done) + Opener(b) + RecordText(values) + "]"
  {
    ListableText(values);
    OpenerIs(b);
    assert RecordText(values) == DumpItems(CanonItems(values));
    hide *;
    ListNext(done, KeyOf(b), values);
    OuterFirst(Opened(done), Opener(b), RecordText(values), "]");
  }

  lemma OuterFirst(a: string, b: string, c: string, d: string)
    ensures a + (b + c + d) == a + b + c + d
  {
    assert a + (b + c + d) == (a + (b + c)) + d && a + (b + c) == a + b + c;
  }

  /** Opening bracket, records and closing bracket make up the member. */
  lemma ListWritten(done: seq<Field>, b: Block, lines: seq<string>)
    requires Printable(done) && |done| > 0 && BlockOk(b, lines)
    ensures Printable(done + [ListField(b, lines)])
    ensures Opened(done + [ListField(b, lines)]) == Opened(done) + Opener(b) + BlockText(b, lines) + "]"
  {
    BlockListable(b, lines);
    hide Printable, Opened, Opener, KeyOf, Listable, RecordText, BlockValues, BlockOk;
    ListOpened(done, b, BlockValues(b, lines));
  }

  lemma OpenerIs(b: Block)
    ensures Basic(KeyOf(b)) && "," + Quoted(KeyOf(b)) + ":[" == Opener(b)
  {
    KeySpelled(b);
    hide *;
    BareQuoted(KeyOf(b));
  }

  lemma KeySpelled(b: Block)
    ensures Bare(KeyOf(b)) && "," + ("\"" + KeyOf(b) + "\"") + ":[" == Opener(b)
  {
  }

  lemma ListRoomIn(done: seq<Field>, b: Block, lines: seq<string>, goal: seq<Field>)
    requires Printable(done) && |done| > 0 && BlockOk(b, lines) && Printable(goal)
      && done + [ListField(b, lines)] <= goal
    ensures |Opened(done)| + |Opener(b)| + |BlockText(b, lines)| + 1 <= |Opened(goal)|
  {
    ListWritten(done, b, lines);
    hide *;
    OpenedGrows(done + [ListField(b, lines)], goal);
  }

  lemma PartComplete(lines: seq<string>, want: Expectation)
    requires HeadOk(lines, want) && TailOk(lines, want)
    ensures |DeltaPart(lines, want)| == DeltaCount(lines, want)
  {
    hide HeadOk, DeltaCount, IssueCount, TailFits;
  }

  /** The delta list: its opening, the checks on nonce and header, then line by line, and after_deltas' bracket. */
  method StreamDeltas(w: BoundedWriter, lines: seq<string>, want: Expectation, ghost done: seq<Field>,
    ghost goal: seq<Field>)
    returns (alive: bool)
    requires w.Valid() && Printable(done) && |done| > 0 && w.written == Opened(done)
    requires PartsOk(lines, want) ==> Printable(goal) && done + [ListField(DELTAS, DeltaPart(lines, want))] <= goal
    modifies w
    ensures alive ==> HeadOk(lines, want) && BlockOk(DELTAS, DeltaPart(lines, want))
    ensures alive ==> Printable(done + [ListField(DELTAS, DeltaPart(lines, want))])
    ensures alive ==> w.Valid() && w.written == Opened(done + [ListField(DELTAS, DeltaPart(lines, want))])
    ensures PartsOk(lines, want) && w.Admits(|Opened(goal)|) ==> alive
  {
    if PartsOk(lines, want) { ListRoomIn(done, DELTAS, DeltaPart(lines, want), goal); }
    hide Opened, Printable, BlockOk, BlockText, HeadOk, TailOk, DeltaPart, IssuePart, ListField, Opener;
    alive := w.Write(Opener(DELTAS));
    if !alive { return; }
    if !HeadOk(lines, want) { return false; }
    alive := EmitBlock(w, DELTAS, DeltaPart(lines, want));
    if !alive { return; }
    if PartsOk(lines, want) { PartComplete(lines, want); }
    if |DeltaPart(lines, want)| < DeltaCount(lines, want) { return false; }
    ListWritten(done, DELTAS, DeltaPart(lines, want));
    alive := w.Write("]");
  }

  /** The issue list but for its bracket: its opening, line by line, and what must follow the records. */
  method StreamIssues(w: BoundedWriter, lines: seq<string>, want: Expectation, ghost done: seq<Field>,
    ghost goal: seq<Field>)
    returns (alive: bool)
    requires w.Valid() && Printable(done) && |done| > 0 && w.written == Opened(done) && HeadOk(lines, want)
    requires PartsOk(lines, want) ==> Printable(goal) && done + [ListField(ISSUES, IssuePart(lines, want))] <= goal
    modifies w
    ensures alive ==> BlockOk(ISSUES, IssuePart(lines, want)) && TailOk(lines, want)
    ensures alive ==>
      w.Valid() && w.written == Opened(done) + Opener(ISSUES) + BlockText(ISSUES, IssuePart(lines, want))
    ensures PartsOk(lines, want) && w.Admits(|Opened(goal)|) ==> alive
  {
    if PartsOk(lines, want) { ListRoomIn(done, ISSUES, IssuePart(lines, want), goal); }
    hide Opened, Printable, BlockOk, BlockText, HeadOk, TailOk, DeltaPart, IssuePart, ListField, Opener;
    alive := w.Write(Opener(ISSUES));
    if !alive { return; }
    alive := EmitBlock(w, ISSUES, IssuePart(lines, want));
    if !alive { return; }
    if !TailOk(lines, want) { return false; }
  }

  /** The members that will have been written in the end. */
  ghost function Goal(lines: seq<string>, want: Expectation, meta: Metadata): seq<Field>
    requires Complete(meta) && RawPassOk(lines, want)
  {
    ArtifactFields(meta, DeltaValues(DeltaRecordsOf(lines, want)), IssueValues(IssueRecordsOf(lines, want)))
  }

  lemma CaptureInputs(lines: seq<string>, want: Expectation, meta: Metadata)
    requires Complete(meta) && RawPassOk(lines, want)
    ensures Inputs(meta, DeltaRecordsOf(lines, want), IssueRecordsOf(lines, want))
    ensures Listable(DeltaValues(DeltaRecordsOf(lines, want))) && Listable(IssueValues(IssueRecordsOf(lines, want)))
  {
    hide HeadOk, TailOk, DeltasOk, IssuesOk, Framed, DeltaPart, IssuePart, Listable, DeltaBasic, IssueBasic;
    DeltasListable(DeltaPart(lines, want));
    IssuesListable(IssuePart(lines, want));
  }

  lemma GoalParts(lines: seq<string>, want: Expectation, meta: Metadata)
    requires Complete(meta) && RawPassOk(lines, want)
    ensures PartsOk(lines, want) && Keyed(meta, HEAD) && Keyed(meta, MIDDLE) && Keyed(meta, PASSES)
      && Keyed(meta, RUNTIME)
    ensures Goal(lines, want, meta) ==
      Members(meta, HEAD) + [ListField(DELTAS, DeltaPart(lines, want))] + Members(meta, MIDDLE)
      + [ListField(ISSUES, IssuePart(lines, want))] + Members(meta, PASSES) + Members(meta, RUNTIME)
  {
    PartsAre(lines, want);
    DeltaBlockIs(DeltaPart(lines, want));
    IssueBlockIs(IssuePart(lines, want));
    var ds, us := DeltaValues(DeltaRecordsOf(lines, want)), IssueValues(IssueRecordsOf(lines, want));
    assert BlockValues(DELTAS, DeltaPart(lines, want)) == ds && BlockValues(ISSUES, IssuePart(lines, want)) == us;
    assert ListField(DELTAS, DeltaPart(lines, want)) == Field("deltas", Arr(ds));
    assert ListField(ISSUES, IssuePart(lines, want)) == Field("issue_deltas", Arr(us));
    assert Goal(lines, want, meta) == ArtifactFields(meta, ds, us);
    hide *;
    BlocksKeyed(meta);
    FieldsAre(meta, ds, us);
  }

  /** The records as they will have been written. */
  ghost function Final(lines: seq<string>, want: Expectation, meta: Metadata): Value
    requires Complete(meta) && RawPassOk(lines, want)
  {
    CaptureInputs(lines, want, meta);
    Written(meta, DeltaRecordsOf(lines, want), IssueRecordsOf(lines, want))
  }

  lemma GoalText(lines: seq<string>, want: Expectation, meta: Metadata)
    requires Complete(meta) && RawPassOk(lines, want)
    ensures Printable(Goal(lines, want, meta))
    ensures var v := Final(lines, want, meta);
      && Writable(Canon(v)) && Opened(Goal(lines, want, meta)) + "}\n" == CanonicalText(v)
        && LoadJson(CanonicalText(v)) == Some(Canon(v))
  {
    var deltas, issues := DeltaRecordsOf(lines, want), IssueRecordsOf(lines, want);
    CaptureInputs(lines, want, meta);
    assert Goal(lines, want, meta) == ArtifactFields(meta, DeltaValues(deltas), IssueValues(issues));
    assert Final(lines, want, meta) == Written(meta, deltas, issues);
    hide *;
    AllPrintable(meta, deltas, issues);
    StreamIsCanonical(meta, deltas, issues);
  }

  /** What extraction finds in the finished text. */
  ghost function Extracted(lines: seq<string>, want: Expectation, meta: Metadata): Extraction.Found
    requires Complete(meta) && RawPassOk(lines, want)
  {
    CaptureInputs(lines, want, meta);
    Collected(map[], TextFields(meta, DeltaRecordsOf(lines, want), IssueRecordsOf(lines, want)))
  }

  lemma BindingsRecovered(meta: Metadata, deltas: seq<DeltaRecord>, issues: seq<IssueRecord>)
    requires Inputs(meta, deltas, issues) && MetaFits(meta) && Listable(DeltaValues(deltas))
      && Listable(IssueValues(issues))
    ensures var found := Collected(map[], TextFields(meta, deltas, issues));
      && Recovers(found, meta) && Writable(Canon(Written(meta, deltas, issues)))
      && Extract(CanonicalText(Written(meta, deltas, issues))) == if Usable(found) then Some(found) else None
  {
    hide *;
    CaptureFits(meta, deltas, issues);
    WrittenBindings(meta, deltas, issues);
  }

  lemma FinalBindings(lines: seq<string>, want: Expectation, meta: Metadata)
    requires Complete(meta) && MetaFits(meta) && RawPassOk(lines, want)
    ensures var found, v := Extracted(lines, want, meta), Final(lines, want, meta);
      Recovers(found, meta) && Writable(Canon(v)) && Extract(CanonicalText(v)) == if Usable(found) then Some(found)
        else None
  {
    hide Complete, MetaFits, RawPassOk, DeltaRecordsOf, IssueRecordsOf, Inputs, Listable, Written, Collected,
      TextFields, Recovers, Writable, Canon, Extract, Usable;
    CaptureInputs(lines, want, meta);
    BindingsRecovered(meta, DeltaRecordsOf(lines, want), IssueRecordsOf(lines, want));
  }

  /** The members written up to and including the delta list and what follows it. */
  ghost function Front(lines: seq<string>, want: Expectation, meta: Metadata): seq<Field>
    requires Complete(meta) && HeadOk(lines, want) && BlockOk(DELTAS, DeltaPart(lines, want))
  {
    Members(meta, HEAD) + [ListField(DELTAS, DeltaPart(lines, want))] + Members(meta, MIDDLE)
  }

  /** The finished members as far as they are determined, and their text. */
  lemma GoalPrefixes(lines: seq<string>, want: Expectation, meta: Metadata)
    requires Complete(meta) && RawPassOk(lines, want)
    ensures PartsOk(lines, want) && Printable(Goal(lines, want, meta)) && Keyed(meta, HEAD)
    ensures Members(meta, HEAD) <= Goal(lines, want, meta)
    ensures Members(meta, HEAD) + [ListField(DELTAS, DeltaPart(lines, want))] <= Goal(lines, want, meta)
    ensures Front(lines, want, meta) <= Goal(lines, want, meta)
    ensures Front(lines, want, meta) + [ListField(ISSUES, IssuePart(lines, want))] <= Goal(lines, want, meta)
  {
    hide Complete, RawPassOk, HeadOk, TailOk, BlockOk, DeltaPart, IssuePart, ListField, Goal, Members, Keyed, HEAD,
      MIDDLE, PASSES, RUNTIME, Printable;
    GoalParts(lines, want, meta);
    GoalText(lines, want, meta);
  }

  /** What the writers of the metadata members aim at while it is open whether the capture is accepted. */
  ghost function Aim(lines: seq<string>, want: Expectation, meta: Metadata, fallback: seq<Field>): seq<Field>
    requires Complete(meta) {
    if RawPassOk(lines, want) then Goal(lines, want, meta) else fallback
  }

  lemma AimFits(lines: seq<string>, want: Expectation, meta: Metadata, done: seq<Field>, keys: seq<string>)
    requires Complete(meta) && Printable(done) && keys in {HEAD, MIDDLE} && Keyed(meta, keys)
    requires RawPassOk(lines, want) ==> done + Members(meta, keys) <= Goal(lines, want, meta)
    ensures Printable(Aim(lines, want, meta, done + Members(meta, keys)))
    ensures done + Members(meta, keys) <= Aim(lines, want, meta, done + Members(meta, keys))
  {
    hide Printable, Complete, Keyed, Members, HEAD, MIDDLE, RawPassOk, Goal;
    BlockPrintable(meta, keys);
    PrintableConcat(done, Members(meta, keys));
    if RawPassOk(lines, want) { GoalText(lines, want, meta); }
  }

  ghost predicate Roomy(w: BoundedWriter, lines: seq<string>, want: Expectation, meta: Metadata)
    requires Complete(meta)
  {
    RawPassOk(lines, want) && Printable(Goal(lines, want, meta)) && w.Admits(|Opened(Goal(lines, want, meta))|)
  }

  lemma FirstFits(lines: seq<string>, want: Expectation, meta: Metadata)
    requires Complete(meta)
    ensures Keyed(meta, HEAD) && Printable([]) && Opened([]) == "{" && [] + Members(meta, HEAD) == Members(meta, HEAD)
    ensures RawPassOk(lines, want) ==> Printable(Goal(lines, want, meta)) && 1 <= |Opened(Goal(lines, want, meta))|
    ensures Printable(Aim(lines, want, meta, Members(meta, HEAD)))
      && Members(meta, HEAD) <= Aim(lines, want, meta, Members(meta, HEAD))
  {
    hide Complete, RawPassOk, Goal, Members, Keyed, HEAD, Aim;
    BlocksKeyed(meta);
    NothingOpened();
    assert [] + Members(meta, HEAD) == Members(meta, HEAD);
    if RawPassOk(lines, want) {
      GoalPrefixes(lines, want, meta);
      OpenedGrows([], Goal(lines, want, meta));
    }
    hide Printable, Opened;
    AimFits(lines, want, meta, [], HEAD);
  }

  method WriteFirst(w: BoundedWriter, lines: seq<string>, want: Expectation, meta: Metadata) returns (alive: bool)
    requires w.Valid() && w.written == "" && Complete(meta)
    modifies w
    ensures Keyed(meta, HEAD)
    ensures alive ==> Printable(Members(meta, HEAD)) && w.Valid() && w.written == Opened(Members(meta, HEAD))
    ensures Roomy(w, lines, want, meta) ==> alive
  {
    FirstFits(lines, want, meta);
    hide Complete, RawPassOk, Goal, Members, Keyed, HEAD, Printable, Opened;
    alive := w.Write("{");
    if !alive { return; }
    alive := WriteHead(w, [], Aim(lines, want, meta, Members(meta, HEAD)), meta);
  }

  lemma MiddleFits(lines: seq<string>, want: Expectation, meta: Metadata)
    requires Complete(meta) && HeadOk(lines, want) && BlockOk(DELTAS, DeltaPart(lines, want)) && Keyed(meta, HEAD)
      && Keyed(meta, MIDDLE)
    requires Printable(Members(meta, HEAD) + [ListField(DELTAS, DeltaPart(lines, want))])
    ensures var aim := Aim(lines, want, meta,
      Front(lines, want, meta)); Printable(aim) && Front(lines, want, meta) <= aim
  {
    hide Complete, RawPassOk, HeadOk, BlockOk, DeltaPart, ListField, Goal, Members, Keyed, HEAD, MIDDLE, Printable, Aim;
    if RawPassOk(lines, want) { GoalPrefixes(lines, want, meta); }
    AimFits(lines, want, meta, Members(meta, HEAD) + [ListField(DELTAS, DeltaPart(lines, want))], MIDDLE);
  }

  /** The first half of write_artifact: up to where the issue list opens. */
  method WriteFront(w: BoundedWriter, lines: seq<string>, want: Expectation, meta: Metadata) returns (alive: bool)
    requires w.Valid() && w.written == "" && Complete(meta)
    modifies w
    ensures alive ==>
      HeadOk(lines, want) && BlockOk(DELTAS, DeltaPart(lines, want)) && Printable(Front(lines, want, meta))
    ensures alive ==> w.Valid() && w.written == Opened(Front(lines, want, meta))
    ensures Roomy(w, lines, want, meta) ==> alive
  {
    BlocksKeyed(meta);
    PartsAre(lines, want);
    if RawPassOk(lines, want) { GoalPrefixes(lines, want, meta); }
    hide Complete, RawPassOk, HeadOk, TailOk, BlockOk, DeltaPart, IssuePart, ListField, Goal, Members, Keyed, HEAD,
      MIDDLE, Printable, Opened, Aim, PartsOk;
    alive := WriteFirst(w, lines, want, meta);
    if !alive { return; }
    alive := StreamDeltas(w, lines, want, Members(meta, HEAD), Aim(lines, want, meta, []));
    if !alive { return; }
    MiddleFits(lines, want, meta);
    alive := WriteMiddle(w, Members(meta, HEAD) + [ListField(DELTAS, DeltaPart(lines, want))],
      Aim(lines, want, meta, Front(lines, want, meta)), meta);
  }

  /** The members behind the issue list. */
  lemma BackFits(lines: seq<string>, want: Expectation, meta: Metadata)
    requires Complete(meta) && RawPassOk(lines, want)
    ensures PartsOk(lines, want) && Keyed(meta, PASSES) && Keyed(meta, RUNTIME) && Printable(Goal(lines, want, meta))
      && |HEAD| == 2
    ensures Front(lines, want, meta) + [ListField(ISSUES, IssuePart(lines, want))]
      + Members(meta, PASSES) <= Goal(lines, want, meta)
    ensures Front(lines, want, meta) + [ListField(ISSUES, IssuePart(lines, want))] + Members(meta, PASSES)
      + Members(meta, RUNTIME)
      == Goal(lines, want, meta)
  {
    hide Complete, RawPassOk, HeadOk, TailOk, BlockOk, DeltaPart, IssuePart, ListField, Goal, Members, Keyed, HEAD,
      MIDDLE, PASSES, RUNTIME, Printable;
    GoalParts(lines, want, meta);
    GoalText(lines, want, meta);
    BlocksKeyed(meta);
  }

  // ----- The two passes over one bound file -----

  /** What the first pass keeps for the metadata, and the second must find again. */
  datatype Parsed = Parsed(header: Inventory.Fields, runtime: Runtime.Identity, audit: Option<string>)

  function ParsedOf(lines: seq<string>, want: Expectation): Parsed requires RawPassOk(lines, want) {
    var f := Split(lines[1], TAB);
    HeaderCounts(f, want);
    var end := 2 + DeltaCount(lines, want) + IssueCount(lines, want);
    Parsed(f[2..14], HeaderIdentity(f, want).value, if |lines| > end then Some(lines[end]) else None)
  }

  /** The comparisons after the second pass: the parsed metadata, and digest and length of the bytes. */
  predicate Agrees(first: seq<string>, second: seq<string>, want: Expectation)
    requires RawPassOk(first, want) && RawPassOk(second, want)
  {
    && ParsedOf(first, want) == ParsedOf(second, want)
    && want.sha(Inventory.Concat(first)) == want.sha(Inventory.Concat(second))
    && Inventory.Size(first) == Inventory.Size(second)
  }

  lemma {:induction false} ConcatLines(a: seq<string>, b: seq<string>)
    requires AllFramed(a) && AllFramed(b) && Inventory.Concat(a) == Inventory.Concat(b)
    ensures a == b
  {
    if |a| > 0 && |b| > 0 {
      assert Inventory.Concat(a) == a[0] + ['\n'] + Inventory.Concat(a[1..]);
      assert Inventory.Concat(b) == b[0] + ['\n'] + Inventory.Concat(b[1..]);
      FirstLine(a[0], Inventory.Concat(a[1..]), b[0], Inventory.Concat(b[1..]));
      ConcatLines(a[1..], b[1..]);
    }
  }

  lemma FirstLine(x: string, r: string, y: string, q: string)
    requires Framed(x) && Framed(y) && x + ['\n'] + r == y + ['\n'] + q
    ensures x == y && r == q
  {
    var s := x + ['\n'] + r;
    assert s[|x|] == '\n' && s[|y|] == '\n';
    assert (forall i | 0 <= i < |x| :: s[i] == x[i]) && forall i | 0 <= i < |y| :: s[i] == y[i];
    assert |x| == |y|;
    assert s[..|x|] == x && s[..|y|] == y && s[|x| + 1..] == r && s[|y| + 1..] == q;
  }

  lemma AllLinesFramed(lines: seq<string>, want: Expectation)
    requires RawPassOk(lines, want)
    ensures AllFramed(lines)
  {
    FramedParts(lines, want);
    var n, m := DeltaCount(lines, want), IssueCount(lines, want);
    hide *;
    LinesAre(lines, n, m);
    FramedConcat(lines[..2], Portion(lines, 2, n));
    FramedConcat(lines[..2] + Portion(lines, 2, n), Portion(lines, 2 + n, m));
    FramedConcat(lines[..2] + Portion(lines, 2, n) + Portion(lines, 2 + n, m), lines[2 + n + m..]);
  }

  lemma FramedParts(lines: seq<string>, want: Expectation)
    requires RawPassOk(lines, want)
    ensures var end := 2 + DeltaCount(lines, want) + IssueCount(lines, want);
      && |lines| >= end && AllFramed(lines[..2]) && AllFramed(lines[end..])
      && AllFramed(Portion(lines, 2, DeltaCount(lines, want)))
      && AllFramed(Portion(lines, 2 + DeltaCount(lines, want), IssueCount(lines, want)))
  {
    assert AllFramed(lines[..2]);
    hide HeaderOk, Framed, AllFramed, DeltaCount, IssueCount, DeltasOk, IssuesOk, TailFits, Portion;
  }

  lemma LinesAre(lines: seq<string>, n: nat, m: nat)
    requires |lines| >= 2 + n + m
    ensures lines == lines[..2] + Portion(lines, 2, n) + Portion(lines, 2 + n, m) + lines[2 + n + m..]
  {
  }

  lemma FramedConcat(a: seq<string>, b: seq<string>)
    requires AllFramed(a) && AllFramed(b)
    ensures AllFramed(a + b)
  {
    hide Framed;
  }

  /** Two passes that agree read one and the same capture, or two that the digest confuses. */
  lemma OneCapture(first: seq<string>, second: seq<string>, want: Expectation)
    requires RawPassOk(first, want) && RawPassOk(second, want) && Agrees(first, second, want)
    ensures want.sha(Inventory.Concat(first)) == want.sha(Inventory.Concat(second))
    ensures first == second || Inventory.Concat(first) != Inventory.Concat(second)
  {
    AllLinesFramed(first, want);
    AllLinesFramed(second, want);
    hide RawPassOk, AllFramed, ParsedOf, Inventory.Concat, Inventory.Size;
    if Inventory.Concat(first) == Inventory.Concat(second) { ConcatLines(first, second); }
  }

  /** The second half of write_artifact, from the issue list on; both passes are compared before the list is closed. */
  method WriteBack(w: BoundedWriter, first: seq<string>, lines: seq<string>, want: Expectation, meta: Metadata)
    returns (alive: bool)
    requires Complete(meta) && HeadOk(lines, want) && BlockOk(DELTAS, DeltaPart(lines, want))
      && Printable(Front(lines, want, meta))
    requires w.Valid() && w.written == Opened(Front(lines, want, meta)) && RawPassOk(first, want)
    modifies w
    ensures alive ==> RawPassOk(lines, want) && Agrees(first, lines, want)
    ensures alive ==> Printable(Goal(lines, want, meta)) && w.Valid() && w.written == Opened(Goal(lines, want, meta))
    ensures Roomy(w, lines, want, meta) && Agrees(first, lines, want) ==> alive
  {
    ghost var front, part := Front(lines, want, meta), IssuePart(lines, want);
    PartsAre(lines, want);
    if RawPassOk(lines, want) {
      GoalPrefixes(lines, want, meta); ListRoomIn(front, ISSUES, part, Goal(lines, want, meta));
    }
    hide Complete, RawPassOk, HeadOk, TailOk, BlockOk, BlockText, DeltaPart, IssuePart, ListField, Goal, Members, Keyed,
      HEAD, MIDDLE, PASSES, RUNTIME, Printable, Opened, Opener, Agrees;
    assert |front| > 0;
    alive := StreamIssues(w, lines, want, front, Aim(lines, want, meta, []));
    if !alive { return; }
    if !Agrees(first, lines, want) { return false; }
    ListWritten(front, ISSUES, part);
    alive := w.Write("]");
    if !alive { return; }
    BackFits(lines, want, meta);
    ghost var goal := Goal(lines, want, meta);
    ghost var done := front + [ListField(ISSUES, part)];
    alive := WritePasses(w, done, goal, meta);
    if !alive { return; }
    alive := WriteRuntime(w, done + Members(meta, PASSES), goal, meta);
  }

  /** write_artifact: front, back and the closing brace. */
  method WriteCapture(w: BoundedWriter, first: seq<string>, lines: seq<string>, want: Expectation, meta: Metadata)
    returns (alive: bool)
    requires w.Valid() && w.written == "" && Complete(meta) && RawPassOk(first, want)
    modifies w
    ensures alive ==> RawPassOk(lines, want) && Agrees(first, lines, want)
    ensures alive ==> Printable(Goal(lines, want, meta)) && w.written == Opened(Goal(lines, want, meta)) + "}\n"
    ensures RawPassOk(lines, want) && Agrees(first, lines, want) ==>
      Printable(Goal(lines, want, meta)) && (w.Admits(|Opened(Goal(lines, want, meta)) + "}\n"|) ==> alive)
  {
    if RawPassOk(lines, want) { GoalText(lines, want, meta); }
    hide Complete, RawPassOk, Goal, Front, Opened, Printable, HeadOk, BlockOk, DeltaPart, Agrees;
    alive := WriteFront(w, lines, want, meta);
    if !alive { return; }
    alive := WriteBack(w, first, lines, want, meta);
    if !alive { return; }
    alive := w.Write("}\n");
  }

  /** The metadata of the first pass as JSON, if it is accepted: whatever else it holds, it can be written and read back. */
  ghost predicate Spelled(first: seq<string>, want: Expectation, spell: Parsed -> Metadata) {
    RawPassOk(first, want) ==> Complete(spell(ParsedOf(first, want))) && MetaFits(spell(ParsedOf(first, want)))
  }

  lemma SpelledAt(first: seq<string>, want: Expectation, spell: Parsed -> Metadata)
    requires RawPassOk(first, want) && Spelled(first, want, spell)
    ensures Complete(spell(ParsedOf(first, want))) && MetaFits(spell(ParsedOf(first, want)))
  {
  }

  /** create_artifact: a first pass collects the metadata; a second one is parsed while its artifact is written, each record
      before the next line is looked at, and compared with the first. Two accepted passes that agree give a finished artifact
      within the byte cap; anything else gives none, however much had been written by then. The text is canonical, and
      extraction recovers the bindings of the metadata. */
  method CreateArtifact(first: seq<string>, second: seq<string>, want: Expectation, spell: Parsed -> Metadata,
    w: BoundedWriter)
    returns (alive: bool)
    requires w.Valid() && w.cap == ARTIFACT_BYTE_CAP && w.written == "" && Spelled(first, want, spell)
    modifies w
    ensures alive ==> RawPassOk(first, want) && RawPassOk(second, want) && Agrees(first, second, want)
    ensures RawPassOk(first, want) && RawPassOk(second, want) && Agrees(first, second, want) ==>
      var meta := spell(ParsedOf(first, want));
      Writable(Canon(Final(second, want, meta))) && (w.Admits(|CanonicalText(Final(second, want, meta))|) ==> alive)
    ensures alive ==>
      var meta := spell(ParsedOf(first, want));
      var found := Extracted(second, want, meta);
      && w.written == CanonicalText(Final(second, want, meta))
      && LoadJson(w.written) == Some(Canon(Final(second, want, meta)))
      && Recovers(found, meta) && Extract(w.written) == if Usable(found) then Some(found) else None
  {
    hide *;
    var ok, _, _ := ParseRawPass(first, want);
    if !ok { return false; }
    var meta := spell(ParsedOf(first, want));
    SpelledAt(first, want, spell);
    if RawPassOk(second, want) {
      GoalText(second, want, meta);
      FinalBindings(second, want, meta);
    }
    alive := WriteCapture(w, first, second, want, meta);
  }
}
