/** extract_bindings: what the stream recovers from an artifact is what a full parse would find there, and on a
    written artifact it is exactly what was written. */
module Extraction {
  import opened Text
  import opened Sorting
  import opened Json
  import opened Loads
  import opened JsonReader

  const WANTED: set<string> := {"inventory_operation_id", "observed_at", "root_path_hex", "tool"}
  const REQUIRED: set<string> := WANTED + {"product_seal_path", "raw_capture_path"}
  const TOOL: string := "wapp-security-signed-drift-diagnostic"

  type Found = map<string, string>

  // ----- One member -----

  /** What remains after the value of a member of a selected object, and its path if it is the one wanted. */
  function SelectValue(key: string, s: string, path: Option<string>): (r: Option<(Option<string>, string)>)
    ensures r.Some? ==> |r.value.1| < |s|
  {
    if key == "path"
      then (var v := ParseString(s, CAPPED); if v.None? then None else Some((Some(v.value.0), v.value.1)))
    else (var v := ParseValue(s, RoomAt(1)); if v.None? then None else Some((path, v.value.1)))
  }

  /** selected_object for the one key it is asked for, after the opening brace of a nonempty object. */
  function SelectMembers(s: string, seen: set<string>, path: Option<string>): (r: Option<(Option<string>, string)>)
    ensures r.Some? ==> |r.value.1| < |s|
    decreases |s|
  {
    var key := ParseString(s, CAPPED);
    if key.None? || key.value.0 in seen then None
    else
      var after := Expect(key.value.1, ':');
      if after.None? then None
      else
        var v := SelectValue(key.value.0, after.value, path);
        if v.None? then None
        else
          var t := White(v.value.1);
          if |t| > 0 && t[0] == '}' then Some((v.value.0, t[1..]))
          else if |t| > 0 && t[0] == ',' then SelectMembers(t[1..], seen + {key.value.0}, v.value.0)
          else None
  }

  function SelectObject(s: string): (r: Option<(Option<string>, string)>)
    ensures r.Some? ==> |r.value.1| < |s|
  {
    var after := Expect(s, '{');
    if after.None? then None
    else
      var u := White(after.value);
      if |u| > 0 && u[0] == '}' then Some((None, u[1..])) else SelectMembers(u, {}, None)
  }

  function PathName(key: string): string { if key == "product_seal" then "product_seal_path" else "raw_capture_path" }

  /** What the value of a top-level member adds to the result. */
  function TopValue(key: string, s: string, found: Found): (r: Option<(Found, string)>)
    ensures r.Some? ==> |r.value.1| < |s|
  {
    if key in WANTED
      then (var v := ParseString(s, CAPPED); if v.None? then None else Some((found[key := v.value.0], v.value.1)))
    else if key == "product_seal" || key == "raw_capture" then
      var v := SelectObject(s);
      if v.None? then None
        else Some((found[PathName(key) := if v.value.0.Some? then v.value.0.value else ""], v.value.1))
    else (var v := ParseValue(s, RoomAt(1)); if v.None? then None else Some((found, v.value.1)))
  }

  function TopMembers(s: string, seen: set<string>, found: Found): (r: Option<(Found, string)>)
    ensures r.Some? ==> |r.value.1| < |s|
    decreases |s|
  {
    var key := ParseString(s, CAPPED);
    if key.None? || key.value.0 in seen then None
    else
      var after := Expect(key.value.1, ':');
      if after.None? then None
      else
        var v := TopValue(key.value.0, after.value, found);
        if v.None? then None
        else
          var t := White(v.value.1);
          if |t| > 0 && t[0] == '}' then Some((v.value.0, t[1..]))
          else if |t| > 0 && t[0] == ',' then TopMembers(t[1..], seen + {key.value.0}, v.value.0)
          else None
  }

  predicate Usable(found: Found) {
    && found.Keys == REQUIRED && found["tool"] == TOOL && "/" <= found["product_seal_path"]
    && "/" <= found["raw_capture_path"]
  }

  function Extract(text: string): Option<Found> {
    var after := Expect(text, '{');
    if after.None? then None
    else
      var r := TopMembers(after.value, {}, map[]);
      if r.None? || White(r.value.1) != "" || !Usable(r.value.0) then None else Some(r.value.0)
  }

  // ----- The methods -----

  method SelectPath(stream: JsonStream) returns (alive: bool, path: Option<string>)
    requires stream.Valid()
    modifies stream
    ensures stream.Valid() && (alive <==> SelectObject(old(stream.Rest())).Some?)
    ensures alive ==> SelectObject(old(stream.Rest())) == Some((path, stream.Rest()))
  {
    hide White, ParseValue, ParseString, Expect;
    path := None;
    alive := stream.ExpectChar('{');
    if !alive { return; }
    stream.Whitespace();
    var c := stream.Peek();
    if c == Some('}') {
      c := stream.Take();
      return;
    }
    ghost var u := stream.Rest();
    var seen: set<string> := {};
    while true
      invariant stream.Valid() && SelectMembers(u, {}, None) == SelectMembers(stream.Rest(), seen, path)
      decreases |stream.Rest()|
    {
      ghost var before := stream.Rest();
      var key := stream.StringLiteral();
      if key.None? || key.value in seen { return false, path; }
      alive := stream.ExpectChar(':');
      if !alive { return; }
      ghost var s := stream.Rest();
      alive, path := SelectOne(stream, key.value, path);
      if !alive { return; }
      seen := seen + {key.value};
      stream.Whitespace();
      var separator := stream.Take();
      if separator == Some('}') { return; }
      if separator != Some(',') { return false, path; }
    }
  }

  method SelectOne(stream: JsonStream, key: string, known: Option<string>) returns (alive: bool, path: Option<string>)
    requires stream.Valid()
    modifies stream
    ensures stream.Valid() && (alive <==> SelectValue(key, old(stream.Rest()), known).Some?)
    ensures alive ==> SelectValue(key, old(stream.Rest()), known) == Some((path, stream.Rest()))
  {
    hide ParseValue, ParseString;
    path := known;
    if key == "path" {
      path := stream.StringLiteral();
      alive := path.Some?;
    } else {
      alive := stream.Skip(1);
    }
  }

  method TopOne(stream: JsonStream, key: string, known: Found) returns (alive: bool, found: Found)
    requires stream.Valid()
    modifies stream
    ensures stream.Valid() && (alive <==> TopValue(key, old(stream.Rest()), known).Some?)
    ensures alive ==> TopValue(key, old(stream.Rest()), known) == Some((found, stream.Rest()))
  {
    hide ParseValue, ParseString, SelectObject;
    found := known;
    if key in WANTED {
      var text := stream.StringLiteral();
      if text.None? { return false, found; }
      found := found[key := text.value];
      alive := true;
    } else if key == "product_seal" || key == "raw_capture" {
      var path;
      alive, path := SelectPath(stream);
      found := found[PathName(key) := if path.Some? then path.value else ""];
    } else {
      alive := stream.Skip(1);
    }
  }

  /** extract_bindings on the bytes of an artifact, however they are delivered. */
  method ExtractBindings(stream: JsonStream) returns (result: Option<Found>)
    requires stream.Valid()
    modifies stream
    ensures result == Extract(old(stream.Rest()))
  {
    hide White, ParseString, Expect, TopValue, Usable;
    var alive := stream.ExpectChar('{');
    if !alive { return None; }
    ghost var start := stream.Rest();
    stream.Whitespace();
    TopBlank(start);
    ghost var u := stream.Rest();
    var found: Found, seen: set<string> := map[], {};
    var open := true;
    var c := stream.Peek();
    while open && c != Some('}')
      invariant stream.Valid()
      invariant open ==> TopMembers(u, {}, map[]) == TopMembers(stream.Rest(), seen, found)
      invariant open ==> c == if stream.Rest() == "" then None else Some(stream.Rest()[0])
      invariant !open ==> TopMembers(u, {}, map[]) == Some((found, stream.Rest()))
      decreases open, |stream.Rest()|
    {
      var key := stream.StringLiteral();
      if key.None? || key.value in seen { return None; }
      alive := stream.ExpectChar(':');
      if !alive { return None; }
      alive, found := TopOne(stream, key.value, found);
      if !alive { return None; }
      seen := seen + {key.value};
      stream.Whitespace();
      var separator := stream.Take();
      if separator == Some('}') {
        open := false;
      } else if separator != Some(',') {
        return None;
      } else {
        c := stream.Peek();
      }
    }
    if open {
      NoMembers(stream.Rest(), seen, found);
      WhiteBrace(stream.Rest());
    }
    stream.Whitespace();
    c := stream.Peek();
    if c.Some? { return None; }
    result := if Usable(found) then Some(found) else None;
  }

  lemma TopBlank(s: string)
    ensures TopMembers(White(s), {}, map[]) == TopMembers(s, {}, map[])
  {
    WhiteIdempotent(s);
    hide White, TopValue;
  }

  /** A brace where a member should be is never accepted. */
  lemma NoMembers(s: string, seen: set<string>, found: Found)
    requires |s| > 0 && s[0] == '}'
    ensures TopMembers(s, seen, found).None?
  {
    WhiteBrace(s);
  }

  lemma WhiteBrace(s: string)
    requires |s| > 0 && s[0] == '}'
    ensures White(s) == s
  {
  }

  // ----- What a full parse would give -----

  function PathFrom(known: Option<string>, fields: seq<Field>): Option<string>
    decreases |fields|
  {
    if |fields| == 0 then known
    else PathFrom(if fields[0].key == "path" && fields[0].value.Str? then Some(fields[0].value.text) else known, fields[1..])
  }

  function PathIn(v: Value): string {
    if v.Obj? && PathFrom(None, v.fields).Some? then PathFrom(None, v.fields).value else ""
  }

  function AddField(found: Found, f: Field): Found {
    if f.key in WANTED then (if f.value.Str? then found[f.key := f.value.text] else found)
    else if f.key == "product_seal" || f.key == "raw_capture" then found[PathName(f.key) := PathIn(f.value)]
    else found
  }

  /** The bindings of the members of an object. */
  function Collected(found: Found, fields: seq<Field>): Found
    decreases |fields|
  {
    if |fields| == 0 then found else Collected(AddField(found, fields[0]), fields[1..])
  }

  lemma StringIsValue(s: string)
    requires ParseString(s, CAPPED).Some?
    ensures var r := ParseString(s, CAPPED).value; ParseValue(s, None) == Some((Str(r.0), r.1))
  {
    StringAgrees(s, CAPPED);
    WhiteIdempotent(s);
    hide Scan;
  }

  lemma {:induction false} SelectAgrees(s: string, seen: set<string>, path: Option<string>) returns (fields: seq<Field>)
    requires SelectMembers(s, seen, path).Some?
    ensures ParseFields(s, None) == Some((fields, SelectMembers(s, seen, path).value.1))
    ensures PathFrom(path, fields) == SelectMembers(s, seen, path).value.0
    decreases |s|
  {
    hide White, ParseValue, ParseString, SelectValue, Expect;
    StringAgrees(s, CAPPED);
    var key := ParseString(s, CAPPED).value;
    var after := Expect(key.1, ':').value;
    var value := SelectValueAgrees(key.0, after, path);
    var v := SelectValue(key.0, after, path).value;
    var t := White(v.1);
    var f := Field(key.0, value);
    if t[0] == '}' {
      fields := [f];
    } else {
      var rest := SelectAgrees(t[1..], seen + {key.0}, v.0);
      fields := [f] + rest;
      assert fields[1..] == rest;
    }
  }

  lemma SelectValueAgrees(key: string, s: string, path: Option<string>) returns (value: Value)
    requires SelectValue(key, s, path).Some?
    ensures ParseValue(s, None) == Some((value, SelectValue(key, s, path).value.1))
    ensures SelectValue(key, s, path).value.0 == if key == "path" && value.Str? then Some(value.text) else path
  {
    hide ParseString, ParseFields, ParseItems;
    if key == "path" {
      StringIsValue(s);
      value := Str(ParseString(s, CAPPED).value.0);
    } else {
      CapsAgree(s, RoomAt(1));
      value := ParseValue(s, RoomAt(1)).value.0;
    }
  }

  lemma ObjectOpen(s: string)
    requires Expect(s, '{').Some?
    ensures var u := White(Expect(s, '{').value);
      ParseValue(s, None) ==
        if |u| > 0 && u[0] == '}' then Some((Obj([]), u[1..]))
        else if ParseFields(Expect(s, '{').value, None).None? then None
        else Some((Obj(ParseFields(Expect(s, '{').value, None).value.0),
          ParseFields(Expect(s, '{').value, None).value.1))
  {
    hide ParseFields, ParseItems, ParseString;
  }

  lemma SelectObjectAgrees(s: string) returns (fields: seq<Field>)
    requires SelectObject(s).Some?
    ensures ParseValue(s, None) == Some((Obj(fields), SelectObject(s).value.1))
      && PathFrom(None, fields) == SelectObject(s).value.0
  {
    ObjectOpen(s);
    var after := Expect(s, '{').value;
    var u := White(after);
    FieldsBlank(after, None);
    hide White, ParseValue, ParseFields, Expect, SelectMembers;
    if |u| > 0 && u[0] == '}' {
      fields := [];
    } else {
      fields := SelectAgrees(u, {}, None);
    }
  }

  lemma TopValueAgrees(key: string, s: string, found: Found) returns (value: Value)
    requires TopValue(key, s, found).Some?
    ensures ParseValue(s, None) == Some((value, TopValue(key, s, found).value.1))
    ensures TopValue(key, s, found).value.0 == AddField(found, Field(key, value))
  {
    hide ParseString, SelectObject, ParseFields, ParseItems, PathFrom;
    if key in WANTED {
      StringIsValue(s);
      value := Str(ParseString(s, CAPPED).value.0);
    } else if key == "product_seal" || key == "raw_capture" {
      var fields := SelectObjectAgrees(s);
      value := Obj(fields);
    } else {
      CapsAgree(s, RoomAt(1));
      value := ParseValue(s, RoomAt(1)).value.0;
    }
  }

  lemma {:induction false} TopAgrees(s: string, seen: set<string>, found: Found) returns (fields: seq<Field>)
    requires TopMembers(s, seen, found).Some?
    ensures ParseFields(s, None) == Some((fields, TopMembers(s, seen, found).value.1))
    ensures Collected(found, fields) == TopMembers(s, seen, found).value.0
    ensures (forall i, j | 0 <= i < j < |fields| :: fields[i].key != fields[j].key) && forall i | 0 <= i < |fields| ::
      fields[i].key !in seen
    decreases |s|
  {
    hide White, ParseValue, ParseString, TopValue, Expect, AddField;
    StringAgrees(s, CAPPED);
    var key := ParseString(s, CAPPED).value;
    var after := Expect(key.1, ':').value;
    var value := TopValueAgrees(key.0, after, found);
    var v := TopValue(key.0, after, found).value;
    var t := White(v.1);
    var f := Field(key.0, value);
    if t[0] == '}' {
      fields := [f];
    } else {
      var rest := TopAgrees(t[1..], seen + {key.0}, v.0);
      fields := [f] + rest;
      assert fields[1..] == rest;
    }
  }

  /** On every text it accepts, the stream returns what a full parse of the same bytes would give. */
  lemma ExtractAgrees(text: string) returns (fields: seq<Field>, rest: string)
    requires Extract(text).Some?
    ensures ParseValue(text, None) == Some((Obj(fields), rest)) && White(rest) == ""
    ensures Extract(text) == Some(Collected(map[], fields))
    ensures forall i, j | 0 <= i < j < |fields| :: fields[i].key != fields[j].key
  {
    ObjectOpen(text);
    var after := Expect(text, '{').value;
    fields := TopAgrees(after, {}, map[]);
    rest := TopMembers(after, {}, map[]).value.1;
    NotEmptyObject(after);
    hide White, ParseValue, ParseFields, Expect, TopMembers, Collected, Usable;
  }

  lemma NotEmptyObject(s: string)
    requires TopMembers(s, {}, map[]).Some?
    ensures |White(s)| == 0 || White(s)[0] != '}'
  {
    TopBlank(s);
    if |White(s)| > 0 && White(s)[0] == '}' { NoMembers(White(s), {}, map[]); }
  }

  // ----- On written text -----

  ghost predicate Apart(fields: seq<Field>) { forall i, j | 0 <= i < j < |fields| :: fields[i].key != fields[j].key }

  /** A member of a selected object the stream can read. */
  predicate SelectFits(f: Field) {
    && Basic(f.key) && Writable(f.value) && StringFits(CAPPED, |Quoted(f.key)|)
    && (if f.key == "path" then f.value.Str? && StringFits(CAPPED, |Quoted(f.value.text)|) else Fits(f.value, RoomAt(1)))
  }

  /** A top-level member the stream can read. */
  ghost predicate TopFits(f: Field) {
    && Basic(f.key) && Writable(f.value) && StringFits(CAPPED, |Quoted(f.key)|)
    && (if f.key in WANTED then f.value.Str? && StringFits(CAPPED, |Quoted(f.value.text)|)
        else if f.key == "product_seal" || f.key == "raw_capture" then
          f.value.Obj? && Apart(f.value.fields) && forall i | 0 <= i < |f.value.fields| :: SelectFits(f.value.fields[i])
        else Fits(f.value, RoomAt(1)))
  }

  lemma SelectValueRead(f: Field, rest: string, path: Option<string>)
    requires SelectFits(f) && Delimited(rest)
    ensures SelectValue(f.key, Dump(f.value) + rest, path) ==
      Some((if f.key == "path" && f.value.Str? then Some(f.value.text) else path, rest))
  {
    if f.key == "path" {
      StringRead(f.value.text, rest, CAPPED);
      assert Dump(f.value) == Quoted(f.value.text);
    } else {
      ParseDump(f.value, rest, RoomAt(1));
    }
    hide ParseValue, ParseString, Dump, Quoted, Fits, Writable;
  }

  lemma {:induction false} SelectRead(fields: seq<Field>, tail: string, seen: set<string>, path: Option<string>)
    requires |fields| > 0 && Apart(fields) && forall i | 0 <= i < |fields| ::
      SelectFits(fields[i]) && fields[i].key !in seen
    ensures forall i | 0 <= i < |fields| :: Basic(fields[i].key) && Writable(fields[i].value)
    ensures SelectMembers(DumpFields(fields) + "}" + tail, seen, path) == Some((PathFrom(path, fields), tail))
    decreases |fields|
  {
    hide White, ParseValue, ParseString, SelectValue, Expect, Dump, DumpFields, Quoted, SelectFits;
    var f := fields[0];
    SelectParts(fields);
    DumpFieldsIs(fields);
    DumpFieldIs(f);
    var s := DumpFields(fields) + "}" + tail;
    var path' := if f.key == "path" && f.value.Str? then Some(f.value.text) else path;
    if |fields| == 1 {
      assert s == Quoted(f.key) + (":" + (Dump(f.value) + ("}" + tail)));
      MemberRead(s, f, "}" + tail, CAPPED);
      SelectValueRead(f, "}" + tail, path);
      WhiteKeeps("}" + tail);
      assert ("}" + tail)[1..] == tail;
    } else {
      var after := DumpFields(fields[1..]) + "}" + tail;
      assert s == Quoted(f.key) + (":" + (Dump(f.value) + ("," + after)));
      MemberRead(s, f, "," + after, CAPPED);
      SelectValueRead(f, "," + after, path);
      WhiteKeeps("," + after);
      assert ("," + after)[1..] == after;
      SelectRead(fields[1..], tail, seen + {f.key}, path');
    }
  }

  lemma SelectParts(fields: seq<Field>)
    requires forall i | 0 <= i < |fields| :: SelectFits(fields[i])
    ensures forall i | 0 <= i < |fields| ::
      Basic(fields[i].key) && Writable(fields[i].value) && StringFits(CAPPED, |Quoted(fields[i].key)|)
  {
    hide Basic, Writable, Fits, StringFits;
  }

  lemma DumpFieldIs(f: Field)
    requires Basic(f.key) && Writable(f.value)
    ensures DumpField(f) == Quoted(f.key) + ":" + Dump(f.value)
  {
  }

  lemma ObjectText(fields: seq<Field>, rest: string)
    requires forall i | 0 <= i < |fields| :: Basic(fields[i].key) && Writable(fields[i].value)
    ensures Writable(Obj(fields)) && Dump(Obj(fields)) + rest == "{" + (DumpFields(fields) + "}" + rest)
    ensures Expect(Dump(Obj(fields)) + rest, '{') == Some(DumpFields(fields) + "}" + rest)
    ensures |fields| == 0 ==> DumpFields(fields) == ""
  {
    hide *;
    DumpObject(fields);
    Braced(DumpFields(fields), rest);
  }

  lemma Braced(text: string, rest: string)
    ensures "{" + text + "}" + rest == "{" + (text + "}" + rest)
      && Expect("{" + text + "}" + rest, '{') == Some(text + "}" + rest)
  {
    hide Expect;
    ExpectAt('{', text + "}" + rest);
    assert "{" + text + "}" + rest == ['{'] + (text + "}" + rest);
  }

  lemma DumpObject(fields: seq<Field>)
    requires forall i | 0 <= i < |fields| :: Basic(fields[i].key) && Writable(fields[i].value)
    ensures Writable(Obj(fields)) && Dump(Obj(fields)) == "{" + DumpFields(fields) + "}"
    ensures |fields| == 0 ==> DumpFields(fields) == ""
  {
    hide DumpField, Basic;
  }

  lemma ExpectAt(c: char, rest: string)
    requires !Blank(c)
    ensures Expect([c] + rest, c) == Some(rest)
  {
    WhiteKeeps([c] + rest);
    assert ([c] + rest)[1..] == rest;
  }

  lemma SelectObjectRead(fields: seq<Field>, rest: string)
    requires Apart(fields) && forall i | 0 <= i < |fields| :: SelectFits(fields[i])
    ensures Writable(Obj(fields)) && SelectObject(Dump(Obj(fields)) + rest) == Some((PathFrom(None, fields), rest))
  {
    SelectParts(fields);
    ObjectText(fields, rest);
    hide White, SelectMembers, DumpFields, Dump, SelectFits, Expect, Writable, Basic, StringFits, Quoted, PathFrom,
      Apart;
    if |fields| > 0 { SelectInner(fields, rest); } else { SelectNothing(fields, rest); }
  }

  /** Behind the brace: the members. */
  lemma SelectInner(fields: seq<Field>, rest: string)
    requires Apart(fields) && (forall i | 0 <= i < |fields| :: SelectFits(fields[i])) && |fields| > 0
    ensures forall i | 0 <= i < |fields| :: Basic(fields[i].key) && Writable(fields[i].value)
    ensures var u := White(DumpFields(fields) + "}" + rest);
      |u| > 0 && u[0] == '"' && SelectMembers(u, {}, None) == Some((PathFrom(None, fields), rest))
  {
    SelectParts(fields);
    hide White, SelectMembers, DumpFields, Dump, SelectFits, Writable, Basic, StringFits, Quoted, PathFrom, Apart;
    StartsQuoted(fields, rest);
    WhiteKeeps(DumpFields(fields) + "}" + rest);
    SelectRead(fields, rest, {}, None);
  }

  lemma StartsQuoted(fields: seq<Field>, rest: string)
    requires |fields| > 0 && forall i | 0 <= i < |fields| :: Basic(fields[i].key) && Writable(fields[i].value)
    ensures var inner := DumpFields(fields) + "}" + rest; |inner| > 0 && inner[0] == '"'
  {
    DumpFieldsIs(fields);
    hide DumpFields, Dump, Writable, Basic, Escaped;
  }

  lemma SelectNothing(fields: seq<Field>, rest: string)
    requires fields == []
    ensures var u := White(DumpFields(fields) + "}"
      + rest); |u| > 0 && u[0] == '}' && u[1..] == rest && PathFrom(None, fields) == None
  {
    var inner := DumpFields(fields) + "}" + rest;
    assert inner == "}" + rest;
    hide White, DumpFields;
    WhiteKeeps(inner);
    assert inner[1..] == rest;
  }

  lemma TopValueRead(f: Field, rest: string, found: Found)
    requires TopFits(f) && Delimited(rest)
    ensures TopValue(f.key, Dump(f.value) + rest, found) == Some((AddField(found, f), rest))
  {
    if f.key in WANTED {
      StringRead(f.value.text, rest, CAPPED);
      assert Dump(f.value) == Quoted(f.value.text);
    } else if f.key == "product_seal" || f.key == "raw_capture" {
      SelectObjectRead(f.value.fields, rest);
      assert f.value == Obj(f.value.fields);
    } else {
      ParseDump(f.value, rest, RoomAt(1));
    }
    hide ParseValue, ParseString, SelectObject, Dump, Quoted, Fits, Writable, PathFrom, SelectFits;
  }

  lemma TopParts(fields: seq<Field>)
    requires forall i | 0 <= i < |fields| :: TopFits(fields[i])
    ensures forall i | 0 <= i < |fields| ::
      Basic(fields[i].key) && Writable(fields[i].value) && StringFits(CAPPED, |Quoted(fields[i].key)|)
  {
    hide Basic, Writable, Fits, StringFits, SelectFits;
  }

  lemma {:induction false} TopRead(fields: seq<Field>, tail: string, seen: set<string>, found: Found)
    requires |fields| > 0 && Apart(fields) && forall i | 0 <= i < |fields| ::
      TopFits(fields[i]) && fields[i].key !in seen
    ensures forall i | 0 <= i < |fields| :: Basic(fields[i].key) && Writable(fields[i].value)
    ensures TopMembers(DumpFields(fields) + "}" + tail, seen, found) == Some((Collected(found, fields), tail))
    decreases |fields|
  {
    hide White, ParseValue, ParseString, TopValue, Expect, Dump, DumpFields, Quoted, TopFits, AddField;
    var f := fields[0];
    TopParts(fields);
    DumpFieldsIs(fields);
    DumpFieldIs(f);
    var s := DumpFields(fields) + "}" + tail;
    if |fields| == 1 {
      assert s == Quoted(f.key) + (":" + (Dump(f.value) + ("}" + tail)));
      MemberRead(s, f, "}" + tail, CAPPED);
      TopValueRead(f, "}" + tail, found);
      WhiteKeeps("}" + tail);
      assert ("}" + tail)[1..] == tail;
    } else {
      var after := DumpFields(fields[1..]) + "}" + tail;
      assert s == Quoted(f.key) + (":" + (Dump(f.value) + ("," + after)));
      MemberRead(s, f, "," + after, CAPPED);
      TopValueRead(f, "," + after, found);
      WhiteKeeps("," + after);
      assert ("," + after)[1..] == after;
      TopRead(fields[1..], tail, seen + {f.key}, AddField(found, f));
    }
  }

  /** From the canonical text of an object within the caps the stream recovers exactly the bindings written there. */
  lemma ExtractWritten(fields: seq<Field>)
    requires |fields| > 0 && Apart(fields) && forall i | 0 <= i < |fields| :: TopFits(fields[i])
    ensures Writable(Obj(fields))
    ensures Extract(Dump(Obj(fields)) + "\n") == if Usable(Collected(map[], fields)) then Some(Collected(map[], fields))
      else None
  {
    hide TopMembers, DumpFields, Dump, TopFits, Usable, Collected, Expect, Writable, Basic, StringFits, Quoted;
    TopParts(fields);
    ObjectText(fields, "\n");
    TopRead(fields, "\n", {}, map[]);
    assert White("\n") == "" by { assert White("\n"[1..]) == ""; }
  }

  /** A binding of distinct members is the value of its own member. */
  lemma {:induction false} CollectedAt(found: Found, fields: seq<Field>, i: nat)
    requires Apart(fields) && i < |fields|
    ensures fields[i].key in WANTED && fields[i].value.Str? ==>
      fields[i].key in Collected(found, fields) && Collected(found, fields)[fields[i].key] == fields[i].value.text
    ensures fields[i].key == "product_seal" || fields[i].key == "raw_capture" ==>
      PathName(fields[i].key) in Collected(found, fields)
        && Collected(found, fields)[PathName(fields[i].key)] == PathIn(fields[i].value)
    decreases |fields|
  {
    if i == 0 {
      CollectedKeeps(AddField(found, fields[0]), fields[1..], fields[0].key);
    } else {
      CollectedAt(AddField(found, fields[0]), fields[1..], i - 1);
    }
  }

  lemma {:induction false} CollectedKeeps(found: Found, fields: seq<Field>, key: string)
    requires forall i | 0 <= i < |fields| :: fields[i].key != key
    ensures key in WANTED && key in found ==>
      key in Collected(found, fields) && Collected(found, fields)[key] == found[key]
    ensures (key == "product_seal" || key == "raw_capture") && PathName(key) in found ==>
      PathName(key) in Collected(found, fields) && Collected(found, fields)[PathName(key)] == found[PathName(key)]
    decreases |fields|
  {
    hide PathIn;
    NamesApart();
    if |fields| > 0 { CollectedKeeps(AddField(found, fields[0]), fields[1..], key); }
  }

  lemma NamesApart()
    ensures "product_seal_path" !in WANTED && "raw_capture_path" !in WANTED && "product_seal_path" != "raw_capture_path"
    ensures "product_seal" != "raw_capture" && "product_seal" !in WANTED && "raw_capture" !in WANTED
  {
    assert |"product_seal_path"| == 17 && |"raw_capture_path"| == 16 && |"tool"| == 4 && |"observed_at"| == 11;
    assert |"root_path_hex"| == 13 && |"inventory_operation_id"| == 22 && |"product_seal"| == 12
      && |"raw_capture"| == 11;
    assert "raw_capture"[0] == 'r' && "observed_at"[0] == 'o';
  }
}
