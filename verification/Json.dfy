/** JSON as both Python programs write it (json.dumps with sorted keys, compact separators and ASCII escapes) and as
    json.loads reads it: sections 2 to 7 of RFC 8259, and the three non-finite numbers Python adds. */
module Json {
  import opened Text
  import opened Sorting

  /** A number with a fraction or an exponent, or a non-finite one, is kept as its text; the writers emit integers only. */
  datatype Value = Null | Bool(truth: bool) | Num(number: int) | Real(digits: string) | Str(text: string) | Arr(items: seq<Value>)
                 | Obj(fields: seq<Field>)
  datatype Field = Field(key: string, value: Value)

  // ----- Strings -----

  /** Characters of the basic plane, the only ones the writers meet. */
  predicate Basic(s: string) { forall i | 0 <= i < |s| :: s[i] as int < 0x10000 }

  function HexFour(n: nat): (s: string)
    requires n < 0x10000
    ensures |s| == 4 && forall i | 0 <= i < 4 :: HexDigit(s[i])
  {
    [HexOf(n / 4096), HexOf(n / 256 % 16), HexOf(n / 16 % 16), HexOf(n % 16)]
  }

  function Escape(c: char): (s: string)
    requires c as int < 0x10000
    ensures |s| >= 1
  {
    if c == '"' then "\\\"" else if c == '\\' then "\\\\"
    else if c == '\n' then "\\n" else if c == '\r' then "\\r" else if c == '\t' then "\\t"
    else if c == (8 as char) then "\\b" else if c == (12 as char) then "\\f"
    else if ' ' <= c <= '~' then [c]
    else "\\u" + HexFour(c as int)
  }

  function Escaped(s: string): string requires Basic(s) {
    if |s| == 0 then "" else Escape(s[0]) + Escaped(s[1..])
  }

  function Quoted(s: string): string requires Basic(s) { "\"" + Escaped(s) + "\"" }

  function UnescapeChar(c: char): Option<char> {
    if c == '"' || c == '\\' || c == '/' then Some(c)
    else if c == 'n' then Some('\n') else if c == 'r' then Some('\r') else if c == 't' then Some('\t')
    else if c == 'b' then Some(8 as char) else if c == 'f' then Some(12 as char)
    else None
  }

  predicate AnyHex(c: char) { HexDigit(c) || 'A' <= c <= 'F' }

  function HexValue(c: char): (n: nat)
    requires AnyHex(c)
    ensures n < 16
  {
    if HexDigit(c) then Nibble(c) else c as int - 'A' as int + 10
  }

  /** Four hexadecimal digits, in either case, as a code unit. */
  function Unit(s: string): (n: Option<nat>)
    requires |s| == 4
    ensures n.Some? ==> n.value < 0x10000
  {
    if !(forall i | 0 <= i < 4 :: AnyHex(s[i])) then None
    else Some(4096 * HexValue(s[0]) + 256 * HexValue(s[1]) + 16 * HexValue(s[2]) + HexValue(s[3]))
  }

  predicate Surrogate(n: nat) { 0xd800 <= n < 0xe000 }

  /** The unit escaped at a position, if there is one. */
  function UnitAt(s: string, i: nat): (n: Option<nat>)
    ensures n.Some? ==> i + 6 <= |s| && n.value < 0x10000
  {
    if i + 6 <= |s| && s[i] == '\\' && s[i + 1] == 'u' then Unit(s[i + 2..i + 6]) else None
  }

  /** The character of an escape at the front, and its length: one unit, or a pair of surrogates. A surrogate on its own
      is none. */
  function CodePoint(s: string): (r: Option<(char, nat)>)
    ensures r.Some? ==> (r.value.1 == 6 || r.value.1 == 12) && r.value.1 <= |s|
  {
    var high, low := UnitAt(s, 0), UnitAt(s, 6);
    if high.None? then None
    else if !Surrogate(high.value) then Some((high.value as char, 6))
    else if high.value < 0xdc00 && low.Some? && 0xdc00 <= low.value < 0xe000 then
      Some(((0x10000 + 0x400 * (high.value - 0xd800) + (low.value - 0xdc00)) as char, 12))
    else None
  }

  function Push(c: char, rest: Option<(string, string)>): Option<(string, string)> {
    if rest.None? then None else Some(([c] + rest.value.0, rest.value.1))
  }

  /** A string literal after its opening quote: its value, and what follows the closing quote. */
  function Scan(s: string): (r: Option<(string, string)>)
    ensures r.Some? ==> |r.value.1| < |s|
  {
    if |s| == 0 || s[0] < ' ' then None
    else if s[0] == '"' then Some(("", s[1..]))
    else if s[0] != '\\' then Push(s[0], Scan(s[1..]))
    else if |s| < 2 then None
    else if s[1] != 'u' then (if UnescapeChar(s[1]).None? then None else Push(UnescapeChar(s[1]).value, Scan(s[2..])))
    else if CodePoint(s).None? then None
    else Push(CodePoint(s).value.0, Scan(s[CodePoint(s).value.1..]))
  }

  lemma FourDigits(n: nat)
    requires n < 0x10000
    ensures n == 4096 * (n / 4096) + 256 * (n / 256 % 16) + 16 * (n / 16 % 16) + n % 16
  {
    assert n / 256 == 16 * (n / 4096) + n / 256 % 16;
    assert n / 16 == 16 * (n / 256) + n / 16 % 16;
  }

  lemma CodePointOf(c: char, tail: string)
    requires c as int < 0x10000
    ensures CodePoint("\\u" + HexFour(c as int) + tail) == Some((c, 6))
  {
    var s := "\\u" + HexFour(c as int) + tail;
    FourDigits(c as int);
    assert s[2..6] == HexFour(c as int);
  }

  /** One written character is read back as itself. */
  lemma ScanEscape(c: char, tail: string)
    requires c as int < 0x10000
    ensures Scan(Escape(c) + tail) == Push(c, Scan(tail))
  {
    var e := Escape(c);
    var s := e + tail;
    if |e| == 1 {
      assert s[1..] == tail;
    } else if |e| == 2 {
      assert s[0] == e[0] && s[1] == e[1] && s[2..] == tail;
    } else {
      CodePointOf(c, tail);
      assert e == "\\u" + HexFour(c as int);
      assert s[0] == '\\' && s[1] == 'u' && s[6..] == tail;
    }
  }

  lemma ScanQuote(tail: string)
    ensures Scan("\"" + tail) == Some(("", tail))
  {
    assert ("\"" + tail)[1..] == tail;
  }

  lemma {:induction false} ScanQuoted(s: string, tail: string)
    requires Basic(s)
    ensures Scan(Escaped(s) + "\"" + tail) == Some((s, tail))
  {
    hide Scan, Escape;
    if |s| == 0 {
      assert Escaped(s) + "\"" + tail == "\"" + tail;
      ScanQuote(tail);
    } else {
      ScanQuoted(s[1..], tail);
      ScanEscape(s[0], Escaped(s[1..]) + "\"" + tail);
      assert Escaped(s) + "\"" + tail == Escape(s[0]) + (Escaped(s[1..]) + "\"" + tail);
      assert s == [s[0]] + s[1..];
    }
  }

  // ----- Values -----

  predicate Writable(v: Value)
    decreases v
  {
    match v
    case Real(_) => false
    case Str(s) => Basic(s)
    case Arr(items) => forall i | 0 <= i < |items| :: Writable(items[i])
    case Obj(fields) => forall i | 0 <= i < |fields| :: Basic(fields[i].key) && Writable(fields[i].value)
    case _ => true
  }

  /** The text of a value, members in the order they stand. */
  function Dump(v: Value): string
    requires Writable(v)
    decreases v
  {
    match v
    case Null => "null"
    case Bool(b) => if b then "true" else "false"
    case Num(n) => SignedDecimal(n)
    case Str(s) => Quoted(s)
    case Arr(items) => "[" + DumpItems(items) + "]"
    case Obj(fields) => "{" + DumpFields(fields) + "}"
  }

  function DumpItems(items: seq<Value>): string
    requires forall i | 0 <= i < |items| :: Writable(items[i])
    decreases items
  {
    if |items| == 0 then "" else Dump(items[0]) + if |items| == 1 then "" else "," + DumpItems(items[1..])
  }

  function DumpField(f: Field): string
    requires Basic(f.key) && Writable(f.value)
    decreases f
  {
    Quoted(f.key) + ":" + Dump(f.value)
  }

  function DumpFields(fields: seq<Field>): string
    requires forall i | 0 <= i < |fields| :: Basic(fields[i].key) && Writable(fields[i].value)
    decreases fields
  {
    if |fields| == 0 then "" else DumpField(fields[0]) + if |fields| == 1 then "" else "," + DumpFields(fields[1..])
  }

  function FieldKey(): Field -> string { (f: Field) => f.key }

  /** sort_keys, at every level. */
  function Canon(v: Value): Value
    decreases v
  {
    match v
    case Arr(items) => Arr(CanonItems(items))
    case Obj(fields) => Obj(Sort(CanonFields(fields), FieldKey()))
    case _ => v
  }

  function CanonItems(items: seq<Value>): (r: seq<Value>)
    ensures |r| == |items|
    decreases items
  {
    if |items| == 0 then [] else [Canon(items[0])] + CanonItems(items[1..])
  }

  function CanonFields(fields: seq<Field>): (r: seq<Field>)
    ensures |r| == |fields| && forall i | 0 <= i < |r| :: r[i].key == fields[i].key
    decreases fields
  {
    if |fields| == 0 then [] else [Field(fields[0].key, Canon(fields[0].value))] + CanonFields(fields[1..])
  }

  /** Keys strictly ascending in every object: what Canon leaves alone. */
  ghost predicate Canonical(v: Value)
    decreases v
  {
    match v
    case Arr(items) => forall i | 0 <= i < |items| :: Canonical(items[i])
    case Obj(fields) => Ascending(fields, FieldKey()) && forall i | 0 <= i < |fields| :: Canonical(fields[i].value)
    case _ => true
  }

  lemma {:induction false} CanonKeeps(v: Value)
    requires Canonical(v)
    ensures Canon(v) == v
    decreases v
  {
    match v
    case Arr(items) => CanonItemsKeep(items);
    case Obj(fields) =>
      CanonFieldsKeep(fields);
      SortOfAscending(fields, FieldKey());
    case _ =>
  }

  lemma {:induction false} CanonItemsKeep(items: seq<Value>)
    requires forall i | 0 <= i < |items| :: Canonical(items[i])
    ensures CanonItems(items) == items
    decreases items
  {
    if |items| > 0 {
      CanonKeeps(items[0]);
      CanonItemsKeep(items[1..]);
      assert items == [items[0]] + items[1..];
    }
  }

  lemma {:induction false} CanonFieldsKeep(fields: seq<Field>)
    requires forall i | 0 <= i < |fields| :: Canonical(fields[i].value)
    ensures CanonFields(fields) == fields
    decreases fields
  {
    if |fields| > 0 {
      CanonKeeps(fields[0].value);
      CanonFieldsKeep(fields[1..]);
      assert fields == [fields[0]] + fields[1..];
      assert fields[0] == Field(fields[0].key, fields[0].value);
    }
  }

  /** No object names a key twice. */
  ghost predicate UniqueKeys(v: Value)
    decreases v
  {
    match v
    case Arr(items) => forall i | 0 <= i < |items| :: UniqueKeys(items[i])
    case Obj(fields) => DistinctKeys(fields, FieldKey()) && forall i | 0 <= i < |fields| :: UniqueKeys(fields[i].value)
    case _ => true
  }

  /** Sorting keys makes a value canonical, and keeps it writable. */
  lemma {:induction false} CanonIsCanonical(v: Value)
    requires UniqueKeys(v) && Writable(v)
    ensures Canonical(Canon(v)) && Writable(Canon(v))
    decreases v
  {
    match v
    case Arr(items) => CanonItemsCanonical(items);
    case Obj(fields) =>
      var canon := CanonFields(fields);
      CanonFieldsCanonical(fields);
      assert DistinctKeys(canon, FieldKey());
      SortAscends(canon, FieldKey());
      var sorted := Sort(canon, FieldKey());
      forall i | 0 <= i < |sorted|
        ensures Canonical(sorted[i].value) && Basic(sorted[i].key) && Writable(sorted[i].value) {
        SameElements(sorted, canon, sorted[i]);
      }
    case _ =>
  }

  lemma {:induction false} CanonItemsCanonical(items: seq<Value>)
    requires forall i | 0 <= i < |items| :: UniqueKeys(items[i]) && Writable(items[i])
    ensures forall i | 0 <= i < |items| :: Canonical(CanonItems(items)[i]) && Writable(CanonItems(items)[i])
    decreases items
  {
    if |items| > 0 {
      CanonIsCanonical(items[0]);
      CanonItemsCanonical(items[1..]);
    }
  }

  lemma {:induction false} CanonFieldsCanonical(fields: seq<Field>)
    requires forall i | 0 <= i < |fields| ::
      UniqueKeys(fields[i].value) && Basic(fields[i].key) && Writable(fields[i].value)
    ensures forall i | 0 <= i < |fields| ::
      var f := CanonFields(fields)[i]; Canonical(f.value) && Basic(f.key) && Writable(f.value)
    decreases fields
  {
    if |fields| > 0 {
      CanonIsCanonical(fields[0].value);
      CanonFieldsCanonical(fields[1..]);
    }
  }
}
