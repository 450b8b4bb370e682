/** Reading JSON: json.loads, and the same grammar under the caps of the streaming reader. */
module Loads {
  import opened Text
  import opened Sorting
  import opened Json

  const STRING_CAP: nat := 40960
  const SCALAR_CAP: nat := 128
  const DEPTH_CAP: nat := 32

  predicate Blank(c: char) { c == ' ' || c == '\t' || c == '\n' || c == '\r' }

  predicate Ends(c: char) { Blank(c) || c == ',' || c == ']' || c == '}' }

  function White(s: string): (r: string)
    ensures |r| <= |s| && (|r| > 0 ==> !Blank(r[0]))
  {
    if |s| > 0 && Blank(s[0]) then White(s[1..]) else s
  }

  /** Length of a scalar token. */
  function TokenLength(s: string): (n: nat)
    ensures n <= |s| && (n < |s| ==> Ends(s[n])) && forall i | 0 <= i < n :: !Ends(s[i])
  {
    if |s| == 0 || Ends(s[0]) then 0 else 1 + TokenLength(s[1..])
  }

  function ScalarOf(token: string): Option<Value> {
    if token == "null" then Some(Null)
    else if token == "true" then Some(Bool(true))
    else if token == "false" then Some(Bool(false))
    else if CanonicalSigned(token) then Some(Num(ParseSigned(token)))
    else if RealText(token) then Some(Real(token))
    else None
  }

  predicate Fraction(s: string) { s == "" || (s[0] == '.' && |s| > 1 && AllDigits(s[1..])) }

  predicate Exponent(s: string) {
    s == "" || (s[0] in {'e', 'E'} && |s| > 1 && var digits := if s[1] in {'+', '-'} then s[2..] else s[1..]; |digits| > 0 && AllDigits(digits))
  }

  /** An integer part with a fraction or an exponent, and what json.loads accepts besides RFC 8259. */
  predicate RealText(s: string) {
    || s in {"NaN", "Infinity", "-Infinity"}
    || exists i, j | 0 <= i <= j <= |s| ::
         CanonicalSigned(s[..i]) && Fraction(s[i..j]) && Exponent(s[j..]) && (i < j || j < |s|)
  }

  /** Levels of nesting left and the caps in force; none for json.loads. */
  type Room = Option<nat>

  function Inner(room: Room): Room { if room.Some? && room.value > 0 then Some(room.value - 1) else room }

  predicate StringFits(room: Room, length: nat) { room.None? || length <= STRING_CAP }

  predicate ScalarFits(room: Room, length: nat) { room.None? || length <= SCALAR_CAP }

  /** A string literal at the start of a text, blanks aside. */
  function ParseString(s: string, room: Room): (r: Option<(string, string)>)
    ensures r.Some? ==> |r.value.1| < |s|
  {
    var t := White(s);
    if |t| == 0 || t[0] != '"' then None
    else
      var r := Scan(t[1..]);
      if r.None? || !StringFits(room, |t| - |r.value.1|) then None else r
  }

  /** One expected character, blanks aside. */
  function Expect(s: string, c: char): (r: Option<string>)
    ensures r.Some? ==> |r.value| < |s|
  {
    var t := White(s);
    if |t| == 0 || t[0] != c then None else Some(t[1..])
  }

  function ParseValue(s: string, room: Room): (r: Option<(Value, string)>)
    ensures r.Some? ==> |r.value.1| < |s|
    decreases |s|, 1
  {
    var t := White(s);
    if room == Some(0) || |t| == 0 then None
    else if t[0] == '"'
      then (var r := ParseString(t, room); if r.None? then None else Some((Str(r.value.0), r.value.1)))
    else if t[0] == '{' then
      var u := White(t[1..]);
      if |u| > 0 && u[0] == '}' then Some((Obj([]), u[1..]))
      else (var r := ParseFields(t[1..], Inner(room)); if r.None? then None else Some((Obj(r.value.0), r.value.1)))
    else if t[0] == '[' then
      var u := White(t[1..]);
      if |u| > 0 && u[0] == ']' then Some((Arr([]), u[1..]))
      else (var r := ParseItems(t[1..], Inner(room)); if r.None? then None else Some((Arr(r.value.0), r.value.1)))
    else
      var n := TokenLength(t);
      if n == 0 || !ScalarFits(room, n) || ScalarOf(t[..n]).None? then None else Some((ScalarOf(t[..n]).value, t[n..]))
  }

  /** Members up to and including the closing brace; room is that of their values. */
  function ParseFields(s: string, room: Room): (r: Option<(seq<Field>, string)>)
    ensures r.Some? ==> |r.value.1| < |s|
    decreases |s|, 0
  {
    var key := ParseString(s, room);
    if key.None? then None
    else
      var after := Expect(key.value.1, ':');
      if after.None? then None
      else
        var value := ParseValue(after.value, room);
        if value.None? then None
        else
          var t := White(value.value.1);
          if |t| > 0 && t[0] == '}' then Some(([Field(key.value.0, value.value.0)], t[1..]))
          else if |t| > 0 && t[0] == ',' then
            var rest := ParseFields(t[1..], room);
            if rest.None? then None else Some(([Field(key.value.0, value.value.0)] + rest.value.0, rest.value.1))
          else None
  }

  function ParseItems(s: string, room: Room): (r: Option<(seq<Value>, string)>)
    ensures r.Some? ==> |r.value.1| < |s|
    decreases |s|, 2
  {
    var value := ParseValue(s, room);
    if value.None? then None
    else
      var t := White(value.value.1);
      if |t| > 0 && t[0] == ']' then Some(([value.value.0], t[1..]))
      else if |t| > 0 && t[0] == ',' then
        var rest := ParseItems(t[1..], room);
        if rest.None? then None else Some(([value.value.0] + rest.value.0, rest.value.1))
      else None
  }

  // ----- Written text is read back -----

  /** Depth and lengths of a value within the caps. */
  predicate Fits(v: Value, room: Room)
    requires Writable(v)
    decreases v
  {
    && room != Some(0)
    && match v
       case Null => true
       case Bool(_) => true
       case Num(n) => ScalarFits(room, |SignedDecimal(n)|)
       case Str(s) => StringFits(room, |Quoted(s)|)
       case Arr(items) => forall i | 0 <= i < |items| :: Fits(items[i], Inner(room))
       case Obj(fields) => forall i | 0 <= i < |fields| ::
         StringFits(room, |Quoted(fields[i].key)|) && Fits(fields[i].value, Inner(room))
  }

  predicate Delimited(tail: string) { |tail| == 0 || Ends(tail[0]) }

  lemma WhiteKeeps(s: string)
    requires |s| == 0 || !Blank(s[0])
    ensures White(s) == s
  {
  }

  lemma {:induction false} TokenOf(token: string, tail: string)
    requires (forall i | 0 <= i < |token| :: !Ends(token[i])) && Delimited(tail)
    ensures TokenLength(token + tail) == |token|
  {
    if |token| > 0 {
      assert (token + tail)[1..] == token[1..] + tail;
      TokenOf(token[1..], tail);
    } else {
      assert token + tail == tail;
    }
  }

  lemma StringRead(s: string, tail: string, room: Room)
    requires Basic(s) && StringFits(room, |Quoted(s)|)
    ensures ParseString(Quoted(s) + tail, room) == Some((s, tail))
  {
    var t := Quoted(s) + tail;
    ScanQuoted(s, tail);
    assert t[0] == '"' && t[1..] == Escaped(s) + "\"" + tail;
    WhiteKeeps(t);
    hide Scan, Escaped, White;
  }

  lemma ScalarRead(token: string, v: Value, tail: string, room: Room)
    requires |token| > 0 && (forall i | 0 <= i < |token| :: !Ends(token[i])) && Delimited(tail)
    requires ScalarOf(token) == Some(v) && ScalarFits(room, |token|) && room != Some(0)
    requires token[0] != '"' && token[0] != '{' && token[0] != '['
    ensures ParseValue(token + tail, room) == Some((v, tail))
  {
    var t := token + tail;
    TokenOf(token, tail);
    WhiteKeeps(t);
    hide ScalarOf, White, TokenLength, ParseString, ParseFields, ParseItems;
    assert t[..|token|] == token && t[|token|..] == tail && t[0] == token[0];
  }

  lemma {:induction false} DigitsOnly(n: nat)
    ensures forall i | 0 <= i < |Decimal(n)| :: Digit(Decimal(n)[i])
  {
    if n >= 10 { DigitsOnly(n / 10); }
  }

  lemma NumberRead(n: int, tail: string, room: Room)
    requires Delimited(tail) && ScalarFits(room, |SignedDecimal(n)|) && room != Some(0)
    ensures ParseValue(SignedDecimal(n) + tail, room) == Some((Num(n), tail))
  {
    var token := SignedDecimal(n);
    SignedRoundTrip(n);
    if n < 0 { DigitsOnly(-n); } else { DigitsOnly(n); }
    assert token[0] == '-' || Digit(token[0]);
    hide ParseValue, CanonicalSigned, ParseSigned, Decimal;
    ScalarRead(token, Num(n), tail, room);
  }

  /** A written value is read back, and reading stops where it ends. */
  lemma {:induction false} ParseDump(v: Value, tail: string, room: Room)
    requires Writable(v) && Fits(v, room) && Delimited(tail)
    ensures ParseValue(Dump(v) + tail, room) == Some((v, tail))
    decreases v, 1
  {
    hide ParseValue, ParseItems, ParseFields, Quoted, SignedDecimal;
    match v
    case Null => ScalarRead("null", v, tail, room);
    case Bool(b) => if b { ScalarRead("true", v, tail, room); } else { ScalarRead("false", v, tail, room); }
    case Num(n) => NumberRead(n, tail, room);
    case Str(s) => StringValueRead(s, tail, room);
    case Arr(items) =>
      if |items| == 0 { EmptyRead('[', tail, room); assert Dump(v) == "[]"; } else {
        ItemsRead(items, tail, Inner(room));
        ArrayOpens(items, tail, room);
      }
    case Obj(fields) =>
      if |fields| == 0 { EmptyRead('{', tail, room); assert Dump(v) == "{}"; } else {
        FieldsRead(fields, tail, Inner(room));
        ObjectOpens(fields, tail, room);
      }
  }

  lemma StringValueRead(s: string, tail: string, room: Room)
    requires Basic(s) && StringFits(room, |Quoted(s)|) && room != Some(0)
    ensures ParseValue(Quoted(s) + tail, room) == Some((Str(s), tail))
  {
    var t := Quoted(s) + tail;
    StringRead(s, tail, room);
    assert t[0] == '"';
    WhiteKeeps(t);
    hide ParseString, Quoted, White, ParseFields, ParseItems;
  }

  lemma EmptyRead(open: char, tail: string, room: Room)
    requires room != Some(0) && (open == '[' || open == '{')
    ensures ParseValue((if open == '[' then "[]" else "{}") + tail,
      room) == Some((if open == '[' then Arr([]) else Obj([]), tail))
  {
    var t := (if open == '[' then "[]" else "{}") + tail;
    assert t[0] == open && t[1..][1..] == tail;
    WhiteKeeps(t);
    WhiteKeeps(t[1..]);
    hide ParseString, White, ParseFields, ParseItems;
  }

  /** Every written value starts with a character that is no blank and closes nothing. */
  lemma DumpStarts(v: Value)
    requires Writable(v)
    ensures |Dump(v)| > 0 && !Ends(Dump(v)[0])
  {
    match v
    case Num(n) =>
      if n < 0 { DigitsOnly(-n); } else { DigitsOnly(n); }
      assert SignedDecimal(n)[0] == '-' || Digit(SignedDecimal(n)[0]);
    case _ =>
  }

  lemma DumpItemsIs(items: seq<Value>)
    requires |items| > 0 && forall i | 0 <= i < |items| :: Writable(items[i])
    ensures DumpItems(items) == Dump(items[0]) + if |items| == 1 then "" else "," + DumpItems(items[1..])
  {
  }

  lemma ArrayOpens(items: seq<Value>, tail: string, room: Room)
    requires |items| > 0 && (forall i | 0 <= i < |items| :: Writable(items[i])) && room != Some(0)
    requires ParseItems(DumpItems(items) + "]" + tail, Inner(room)) == Some((items, tail))
    ensures ParseValue("[" + DumpItems(items) + "]" + tail, room) == Some((Arr(items), tail))
  {
    hide ParseItems, White, ParseFields, Dump, DumpItems, ParseString;
    var t := "[" + DumpItems(items) + "]" + tail;
    assert t[0] == '[' && t[1..] == DumpItems(items) + "]" + tail;
    DumpStarts(items[0]);
    DumpItemsIs(items);
    assert t[1] == Dump(items[0])[0];
    WhiteKeeps(t);
    WhiteKeeps(t[1..]);
  }

  lemma {:induction false} ItemsRead(items: seq<Value>, tail: string, room: Room)
    requires |items| > 0 && forall i | 0 <= i < |items| :: Writable(items[i]) && Fits(items[i], room)
    ensures ParseItems(DumpItems(items) + "]" + tail, room) == Some((items, tail))
    decreases items, 0
  {
    hide ParseValue, ParseItems, Dump, DumpItems, White;
    DumpItemsIs(items);
    var s := DumpItems(items) + "]" + tail;
    if |items| == 1 {
      assert s == Dump(items[0]) + ("]" + tail);
      ParseDump(items[0], "]" + tail, room);
      LastItem(s, items[0], tail, room);
      assert items == [items[0]];
    } else {
      var after := DumpItems(items[1..]) + "]" + tail;
      assert s == Dump(items[0]) + ("," + after);
      ParseDump(items[0], "," + after, room);
      ItemsRead(items[1..], tail, room);
      NextItem(s, items, after, tail, room);
    }
  }

  lemma LastItem(s: string, v: Value, tail: string, room: Room)
    requires ParseValue(s, room) == Some((v, "]" + tail))
    ensures ParseItems(s, room) == Some(([v], tail))
  {
    hide ParseValue, White;
    WhiteKeeps("]" + tail);
    assert ("]" + tail)[1..] == tail;
  }

  lemma NextItem(s: string, items: seq<Value>, after: string, tail: string, room: Room)
    requires |items| > 1 && ParseValue(s, room) == Some((items[0], "," + after))
    requires ParseItems(after, room) == Some((items[1..], tail))
    ensures ParseItems(s, room) == Some((items, tail))
  {
    hide ParseValue, White;
    WhiteKeeps("," + after);
    assert ("," + after)[1..] == after && items == [items[0]] + items[1..];
  }

  lemma DumpFieldsIs(fields: seq<Field>)
    requires |fields| > 0 && forall i | 0 <= i < |fields| :: Basic(fields[i].key) && Writable(fields[i].value)
    ensures DumpFields(fields) == DumpField(fields[0]) + if |fields| == 1 then "" else "," + DumpFields(fields[1..])
    ensures |DumpFields(fields)| > 0 && DumpFields(fields)[0] == '"'
  {
  }

  lemma ObjectOpens(fields: seq<Field>, tail: string, room: Room)
    requires |fields| > 0 && (forall i | 0 <= i < |fields| :: Basic(fields[i].key) && Writable(fields[i].value))
      && room != Some(0)
    requires ParseFields(DumpFields(fields) + "}" + tail, Inner(room)) == Some((fields, tail))
    ensures ParseValue("{" + DumpFields(fields) + "}" + tail, room) == Some((Obj(fields), tail))
  {
    hide ParseItems, White, ParseFields, DumpField, DumpFields, ParseString, Quoted, Dump;
    var t := "{" + DumpFields(fields) + "}" + tail;
    assert t[0] == '{' && t[1..] == DumpFields(fields) + "}" + tail;
    DumpFieldsIs(fields);
    assert t[1] == '"';
    WhiteKeeps(t);
    WhiteKeeps(t[1..]);
  }

  lemma {:induction false} FieldsRead(fields: seq<Field>, tail: string, room: Room)
    requires |fields| > 0
    requires forall i | 0 <= i < |fields| ::
      Basic(fields[i].key) && Writable(fields[i].value) && StringFits(room, |Quoted(fields[i].key)|)
        && Fits(fields[i].value, room)
    ensures ParseFields(DumpFields(fields) + "}" + tail, room) == Some((fields, tail))
    decreases fields, 0
  {
    hide ParseValue, ParseFields, Dump, DumpFields, White, Quoted;
    DumpFieldsIs(fields);
    var s := DumpFields(fields) + "}" + tail;
    if |fields| == 1 {
      assert s == Quoted(fields[0].key) + (":" + (Dump(fields[0].value) + ("}" + tail)));
      ParseDump(fields[0].value, "}" + tail, room);
      LastField(s, fields[0], tail, room);
      assert fields == [fields[0]];
    } else {
      var after := DumpFields(fields[1..]) + "}" + tail;
      assert s == Quoted(fields[0].key) + (":" + (Dump(fields[0].value) + ("," + after)));
      ParseDump(fields[0].value, "," + after, room);
      FieldsRead(fields[1..], tail, room);
      NextField(s, fields, after, tail, room);
    }
  }

  lemma MemberRead(s: string, f: Field, rest: string, room: Room)
    requires Basic(f.key) && Writable(f.value) && StringFits(room, |Quoted(f.key)|)
    requires s == Quoted(f.key) + (":" + (Dump(f.value) + rest))
    ensures ParseString(s, room) == Some((f.key, ":" + (Dump(f.value) + rest)))
    ensures Expect(":" + (Dump(f.value) + rest), ':') == Some(Dump(f.value) + rest)
  {
    StringRead(f.key, ":" + (Dump(f.value) + rest), room);
    WhiteKeeps(":" + (Dump(f.value) + rest));
    assert (":" + (Dump(f.value) + rest))[1..] == Dump(f.value) + rest;
    hide White;
  }

  lemma LastField(s: string, f: Field, tail: string, room: Room)
    requires Basic(f.key) && Writable(f.value) && StringFits(room, |Quoted(f.key)|)
    requires s == Quoted(f.key) + (":" + (Dump(f.value) + ("}" + tail)))
    requires ParseValue(Dump(f.value) + ("}" + tail), room) == Some((f.value, "}" + tail))
    ensures ParseFields(s, room) == Some(([f], tail))
  {
    hide ParseValue, White, ParseString, Expect, Dump, Quoted;
    MemberRead(s, f, "}" + tail, room);
    WhiteKeeps("}" + tail);
    assert ("}" + tail)[1..] == tail;
  }

  lemma NextField(s: string, fields: seq<Field>, after: string, tail: string, room: Room)
    requires |fields| > 1 && Basic(fields[0].key) && Writable(fields[0].value)
      && StringFits(room, |Quoted(fields[0].key)|)
    requires s == Quoted(fields[0].key) + (":" + (Dump(fields[0].value) + ("," + after)))
    requires ParseValue(Dump(fields[0].value) + ("," + after), room) == Some((fields[0].value, "," + after))
    requires ParseFields(after, room) == Some((fields[1..], tail))
    ensures ParseFields(s, room) == Some((fields, tail))
  {
    hide ParseValue, White, ParseString, Expect, Dump, Quoted;
    MemberRead(s, fields[0], "," + after, room);
    WhiteKeeps("," + after);
    assert ("," + after)[1..] == after && fields == [fields[0]] + fields[1..];
  }

  // ----- The caps only refuse -----

  lemma StringAgrees(s: string, room: Room)
    requires ParseString(s, room).Some?
    ensures ParseString(s, None) == ParseString(s, room)
  {
  }

  /** What is read under the caps is read the same without them. */
  lemma {:induction false} CapsAgree(s: string, room: Room)
    requires ParseValue(s, room).Some?
    ensures ParseValue(s, None) == ParseValue(s, room)
    decreases |s|, 1
  {
    hide Scan, ScalarOf;
    var t := White(s);
    if t[0] == '"' {
      StringAgrees(t, room);
    } else if t[0] == '{' {
      if ParseFields(t[1..], Inner(room)).Some? { FieldsAgree(t[1..], Inner(room)); }
    } else if t[0] == '[' {
      if ParseItems(t[1..], Inner(room)).Some? { ItemsAgree(t[1..], Inner(room)); }
    }
  }

  lemma {:induction false} FieldsAgree(s: string, room: Room)
    requires ParseFields(s, room).Some?
    ensures ParseFields(s, None) == ParseFields(s, room)
    decreases |s|, 0
  {
    hide Scan, ParseValue, ParseString, White;
    StringAgrees(s, room);
    var after := Expect(ParseString(s, room).value.1, ':').value;
    CapsAgree(after, room);
    var t := White(ParseValue(after, room).value.1);
    if |t| > 0 && t[0] == ',' { FieldsAgree(t[1..], room); }
  }

  lemma {:induction false} ItemsAgree(s: string, room: Room)
    requires ParseItems(s, room).Some?
    ensures ParseItems(s, None) == ParseItems(s, room)
    decreases |s|, 2
  {
    hide Scan, ParseValue, White;
    CapsAgree(s, room);
    var t := White(ParseValue(s, room).value.1);
    if |t| > 0 && t[0] == ',' { ItemsAgree(t[1..], room); }
  }

  // ----- The re-serialization test -----

  /** canonical. */
  function CanonicalText(v: Value): string requires Writable(Canon(v)) { Dump(Canon(v)) + "\n" }

  /** load_json on the bytes of a file: one object, and its canonical text is what was read. Two members of one name
      cannot survive the comparison, since json.loads keeps only the last. */
  ghost function LoadJson(raw: string): Option<Value> {
    var r := ParseValue(raw, None);
    if r.None? || White(r.value.1) != "" || !r.value.0.Obj? || !UniqueKeys(r.value.0) || !Writable(Canon(r.value.0))
      then None
    else if CanonicalText(r.value.0) != raw then None
    else Some(r.value.0)
  }

  /** Every object with distinct keys passes the test in its canonical text, and comes back with its keys sorted. */
  lemma CanonicalLoads(v: Value)
    requires v.Obj? && UniqueKeys(v) && Writable(v)
    ensures Writable(Canon(v)) && LoadJson(CanonicalText(v)) == Some(Canon(v))
  {
    CanonIsCanonical(v);
    var c := Canon(v);
    CanonKeeps(c);
    AlwaysFits(c);
    ParseDump(c, "\n", None);
    CanonicalUnique(c);
    hide ParseValue, Canon, Dump, Canonical, UniqueKeys, Writable;
    assert White("\n") == "" by { assert White("\n"[1..]) == ""; }
    assert c.Obj? by { CanonObject(v); }
  }

  lemma CanonObject(v: Value)
    requires v.Obj?
    ensures Canon(v).Obj?
  {
  }

  lemma {:induction false} AlwaysFits(v: Value)
    requires Writable(v)
    ensures Fits(v, None)
    decreases v
  {
    match v
    case Arr(items) =>
      forall i | 0 <= i < |items| ensures Fits(items[i], None) { AlwaysFits(items[i]); }
    case Obj(fields) =>
      forall i | 0 <= i < |fields| ensures Fits(fields[i].value, None) { AlwaysFits(fields[i].value); }
    case _ =>
  }

  lemma {:induction false} CanonicalUnique(v: Value)
    requires Canonical(v)
    ensures UniqueKeys(v)
    decreases v
  {
    match v
    case Arr(items) =>
      forall i | 0 <= i < |items| ensures UniqueKeys(items[i]) { CanonicalUnique(items[i]); }
    case Obj(fields) =>
      forall i | 0 <= i < |fields| ensures UniqueKeys(fields[i].value) { CanonicalUnique(fields[i].value); }
      forall i, j | 0 <= i < j < |fields| ensures FieldKey()(fields[i]) != FieldKey()(fields[j]) {
        LessIrreflexive(FieldKey()(fields[i]));
      }
    case _ =>
  }
}
