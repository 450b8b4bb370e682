/** Byte strings as both languages see them: a byte is a character below 256. Ordering, tab
    separated fields, lower-case hexadecimal, and the numbers printf writes and int() reads. */
module Text {

  datatype Option<+T> = None | Some(value: T)

  const TAB: char := '\t'

  // ----- strcmp -----

  predicate Less(a: string, b: string) {
    |b| > 0 && (|a| == 0 || a[0] < b[0] || (a[0] == b[0] && Less(a[1..], b[1..])))
  }

  lemma {:induction false} LessIrreflexive(a: string)
    ensures !Less(a, a)
  {
    if |a| > 0 { LessIrreflexive(a[1..]); }
  }

  lemma {:induction false} LessTransitive(a: string, b: string, c: string)
    requires Less(a, b) && Less(b, c)
    ensures Less(a, c)
  {
    if |a| > 0 && a[0] == b[0] == c[0] { LessTransitive(a[1..], b[1..], c[1..]); }
  }

  lemma {:induction false} LessTotal(a: string, b: string)
    ensures a == b || Less(a, b) || Less(b, a)
  {
    if |a| > 0 && |b| > 0 && a[0] == b[0] {
      LessTotal(a[1..], b[1..]);
      assert a == [a[0]] + a[1..] && b == [b[0]] + b[1..];
    }
  }

  lemma LessAsymmetric(a: string, b: string)
    requires Less(a, b)
    ensures !Less(b, a) && a != b
  {
    LessIrreflexive(a);
    if Less(b, a) { LessTransitive(a, b, a); }
  }

  lemma {:induction false} LessAfterPrefix(p: string, a: string, b: string)
    ensures Less(p + a, p + b) <==> Less(a, b)
  {
    if |p| == 0 {
      assert p + a == a && p + b == b;
    } else {
      assert (p + a)[1..] == p[1..] + a && (p + b)[1..] == p[1..] + b;
      LessAfterPrefix(p[1..], a, b);
    }
  }

  predicate Above(s: string, c: char) { forall i | 0 <= i < |s| :: c < s[i] }

  /** Different fields decide the order of everything that follows a separator below them. */
  lemma {:induction false} LessBeforeSeparator(a: string, b: string, sep: char, x: string, y: string)
    requires Above(a, sep) && Above(b, sep) && a != b
    ensures Less(a + [sep] + x, b + [sep] + y) <==> Less(a, b)
  {
    var u, v := a + [sep] + x, b + [sep] + y;
    if |a| > 0 && |b| > 0 && a[0] == b[0] {
      assert u[1..] == a[1..] + [sep] + x && v[1..] == b[1..] + [sep] + y;
      assert a == [a[0]] + a[1..] && b == [b[0]] + b[1..];
      LessBeforeSeparator(a[1..], b[1..], sep, x, y);
    } else if |a| == 0 {
      assert u[0] == sep && v[0] == b[0];
    } else {
      assert u[0] == a[0] && v[0] == if |b| > 0 then b[0] else sep;
    }
  }

  // ----- Separated fields -----

  predicate Free(s: string, c: char) { c !in s }

  function Join(fields: seq<string>, sep: char): string {
    if |fields| == 0 then ""
    else if |fields| == 1 then fields[0]
    else fields[0] + [sep] + Join(fields[1..], sep)
  }

  /** Position of the first separator, or the length. */
  function FindFrom(s: string, sep: char, i: nat): (k: nat)
    requires i <= |s|
    ensures i <= k <= |s| && (k < |s| ==> s[k] == sep) && forall j | i <= j < k :: s[j] != sep
    decreases |s| - i
  {
    if i == |s| || s[i] == sep then i else FindFrom(s, sep, i + 1)
  }

  function Split(s: string, sep: char): (fields: seq<string>)
    ensures |fields| >= 1 && forall i | 0 <= i < |fields| :: Free(fields[i], sep)
    decreases |s|
  {
    var k := FindFrom(s, sep, 0);
    if k == |s| then [s] else [s[..k]] + Split(s[k + 1..], sep)
  }

  lemma SplitStep(a: string, sep: char, rest: string)
    requires Free(a, sep)
    ensures Split(a + [sep] + rest, sep) == [a] + Split(rest, sep)
  {
    var s := a + [sep] + rest;
    var k := FindFrom(s, sep, 0);
    assert s[|a|] == sep;
    assert forall j | 0 <= j < |a| :: s[j] == a[j] && a[j] != sep;
    assert s[..k] == a && s[k + 1..] == rest;
  }

  lemma SplitLast(a: string, sep: char)
    requires Free(a, sep)
    ensures Split(a, sep) == [a]
  {
    assert forall j | 0 <= j < |a| :: a[j] != sep;
  }

  /** What one side writes with separators, the other side splits back. */
  lemma {:induction false} SplitJoin(fields: seq<string>, sep: char)
    requires |fields| >= 1 && forall i | 0 <= i < |fields| :: Free(fields[i], sep)
    ensures Split(Join(fields, sep), sep) == fields
  {
    if |fields| == 1 {
      SplitLast(fields[0], sep);
    } else {
      SplitStep(fields[0], sep, Join(fields[1..], sep));
      SplitJoin(fields[1..], sep);
      assert fields == [fields[0]] + fields[1..];
    }
  }

  /** Splitting loses nothing. */
  lemma {:induction false} JoinSplit(s: string, sep: char)
    ensures Join(Split(s, sep), sep) == s
    decreases |s|
  {
    var k := FindFrom(s, sep, 0);
    if k < |s| {
      JoinSplit(s[k + 1..], sep);
      assert s == s[..k] + [sep] + s[k + 1..];
    }
  }

  /** What strtok_r yields with one separator: the fields that are not empty. */
  function Pieces(s: string, sep: char): (pieces: seq<string>)
    ensures forall i | 0 <= i < |pieces| :: |pieces[i]| > 0 && Free(pieces[i], sep)
    decreases |s|
  {
    var k := FindFrom(s, sep, 0);
    var first := if k == 0 then [] else [s[..k]];
    if k == |s| then first else first + Pieces(s[k + 1..], sep)
  }

  lemma PiecesStep(a: string, sep: char, rest: string)
    requires Free(a, sep)
    ensures Pieces(a + [sep] + rest, sep) == (if a == "" then [] else [a]) + Pieces(rest, sep)
  {
    var s := a + [sep] + rest;
    var k := FindFrom(s, sep, 0);
    assert s[|a|] == sep;
    assert forall j | 0 <= j < |a| :: s[j] == a[j] && a[j] != sep;
    assert s[..k] == a && s[k + 1..] == rest;
  }

  lemma PiecesLast(a: string, sep: char)
    requires Free(a, sep)
    ensures Pieces(a, sep) == if a == "" then [] else [a]
  {
    assert forall j | 0 <= j < |a| :: a[j] != sep;
    assert a[..|a|] == a;
  }

  /** Fields without empty ones survive strtok_r. */
  lemma {:induction false} PiecesJoin(fields: seq<string>, sep: char)
    requires forall i | 0 <= i < |fields| :: |fields[i]| > 0 && Free(fields[i], sep)
    ensures Pieces(Join(fields, sep), sep) == fields
  {
    if |fields| == 0 {
      PiecesLast("", sep);
    } else if |fields| == 1 {
      PiecesLast(fields[0], sep);
    } else {
      PiecesStep(fields[0], sep, Join(fields[1..], sep));
      PiecesJoin(fields[1..], sep);
      assert fields == [fields[0]] + fields[1..];
    }
  }

  /** The same for lines that each end with the separator. */
  lemma {:induction false} PiecesLines(fields: seq<string>, sep: char)
    requires forall i | 0 <= i < |fields| :: |fields[i]| > 0 && Free(fields[i], sep)
    ensures Pieces(Join(fields, sep) + [sep], sep) == fields
  {
    PiecesLast("", sep);
    if |fields| == 0 {
      PiecesStep("", sep, "");
      assert "" + [sep] == "" + [sep] + "";
    } else if |fields| == 1 {
      PiecesStep(fields[0], sep, "");
      assert fields[0] + [sep] == fields[0] + [sep] + "";
    } else {
      var rest := Join(fields[1..], sep) + [sep];
      assert Join(fields, sep) + [sep] == fields[0] + [sep] + rest;
      PiecesStep(fields[0], sep, rest);
      PiecesLines(fields[1..], sep);
      assert fields == [fields[0]] + fields[1..];
    }
  }

  /** One call of strtok_r: skip separators, take the piece, step over its end. */
  method NextPiece(s: string, sep: char, position: nat) returns (piece: Option<string>, next: nat)
    requires position <= |s|
    ensures position <= next <= |s|
    ensures piece.None? ==> Pieces(s[position..], sep) == [] && Pieces(s[next..], sep) == []
    ensures piece.Some? ==> Pieces(s[position..], sep) == [piece.value] + Pieces(s[next..], sep) && next > position
  {
    hide Pieces;
    next := position;
    while next < |s| && s[next] == sep
      invariant position <= next <= |s| && Pieces(s[next..], sep) == Pieces(s[position..], sep)
    {
      assert s[next..] == "" + [sep] + s[next + 1..];
      PiecesStep("", sep, s[next + 1..]);
      next := next + 1;
    }
    PiecesLast("", sep);
    if next == |s| {
      assert s[next..] == "";
      return None, next;
    }
    var end := FindFrom(s, sep, next);
    LastOrNext(s, sep, next, end);
    return Some(s[next..end]), if end < |s| then end + 1 else end;
  }

  lemma LastOrNext(s: string, sep: char, start: nat, end: nat)
    requires start < end <= |s| && (forall j | start <= j < end :: s[j] != sep) && (end < |s| ==> s[end] == sep)
    ensures Pieces(s[start..], sep) == [s[start..end]] + Pieces(s[if end < |s| then end + 1 else end..], sep)
  {
    hide Pieces;
    var piece := s[start..end];
    if end < |s| {
      assert s[start..] == piece + [sep] + s[end + 1..];
      PiecesStep(piece, sep, s[end + 1..]);
    } else {
      assert s[start..] == piece && s[end..] == "";
      PiecesLast(piece, sep);
      PiecesLast("", sep);
    }
  }

  /** Lexicographic order of rows with the same number of fields. */
  predicate FieldsLess(f: seq<string>, g: seq<string>) requires |f| == |g| {
    |f| > 0 && (Less(f[0], g[0]) || (f[0] == g[0] && FieldsLess(f[1..], g[1..])))
  }

  /** Whole-line order is field order when the separator sorts below every field character. */
  lemma {:induction false} JoinOrder(f: seq<string>, g: seq<string>, sep: char)
    requires |f| == |g| >= 1
    requires forall i | 0 <= i < |f| :: Above(f[i], sep) && Above(g[i], sep)
    ensures Less(Join(f, sep), Join(g, sep)) <==> FieldsLess(f, g)
  {
    if |f| == 1 {
    } else if f[0] == g[0] {
      JoinOrder(f[1..], g[1..], sep);
      LessAfterPrefix(f[0] + [sep], Join(f[1..], sep), Join(g[1..], sep));
      LessIrreflexive(f[0]);
    } else {
      LessBeforeSeparator(f[0], g[0], sep, Join(f[1..], sep), Join(g[1..], sep));
    }
  }

  predicate EndsWith(s: string, suffix: string) { |s| >= |suffix| && s[|s| - |suffix|..] == suffix }

  /** bytes.lower. */
  function Lower(s: string): (r: string)
    ensures |r| == |s|
  {
    seq(|s|, i requires 0 <= i < |s| => if 'A' <= s[i] <= 'Z' then ((s[i] as int) + 32) as char else s[i])
  }

  // ----- Hexadecimal -----

  predicate HexDigit(c: char) { '0' <= c <= '9' || 'a' <= c <= 'f' }

  predicate HexText(s: string) { |s| % 2 == 0 && forall i | 0 <= i < |s| :: HexDigit(s[i]) }

  predicate ByteText(s: string) { forall i | 0 <= i < |s| :: s[i] as int < 256 }

  function Nibble(c: char): (n: nat)
    requires HexDigit(c)
    ensures n < 16
  {
    if c <= '9' then c as int - '0' as int else c as int - 'a' as int + 10
  }

  function HexOf(n: nat): (c: char)
    requires n < 16
    ensures HexDigit(c) && Nibble(c) == n
  {
    if n < 10 then ('0' as int + n) as char else ('a' as int + n - 10) as char
  }

  lemma NibbleInverse(c: char)
    requires HexDigit(c)
    ensures HexOf(Nibble(c)) == c
  {
  }

  function Hex(raw: string): (text: string)
    requires ByteText(raw)
    ensures |text| == 2 * |raw| && HexText(text)
  {
    if |raw| == 0 then ""
    else [HexOf(raw[0] as int / 16), HexOf(raw[0] as int % 16)] + Hex(raw[1..])
  }

  function Unhex(text: string): (raw: string)
    requires HexText(text)
    ensures 2 * |raw| == |text| && ByteText(raw)
  {
    if |text| == 0 then ""
    else [(16 * Nibble(text[0]) + Nibble(text[1])) as char] + Unhex(text[2..])
  }

  lemma {:induction false} UnhexHex(raw: string)
    requires ByteText(raw)
    ensures Unhex(Hex(raw)) == raw
  {
    if |raw| > 0 {
      var text := Hex(raw);
      assert text[2..] == Hex(raw[1..]);
      UnhexHex(raw[1..]);
      assert raw == [raw[0]] + raw[1..];
    }
  }

  lemma PairInverse(c: char, d: char)
    requires HexDigit(c) && HexDigit(d)
    ensures var n := 16 * Nibble(c) + Nibble(d); HexOf(n / 16) == c && HexOf(n % 16) == d
  {
    NibbleInverse(c);
    NibbleInverse(d);
    hide HexOf, Nibble;
  }

  lemma {:induction false} HexUnhex(text: string)
    requires HexText(text)
    ensures Hex(Unhex(text)) == text
  {
    hide HexOf, Nibble;
    if |text| > 0 {
      HexUnhex(text[2..]);
      var raw := Unhex(text);
      assert raw[1..] == Unhex(text[2..]);
      PairInverse(text[0], text[1]);
      assert text == [text[0], text[1]] + text[2..];
    }
  }

  lemma HexInjective(a: string, b: string)
    requires ByteText(a) && ByteText(b) && Hex(a) == Hex(b)
    ensures a == b
  {
    UnhexHex(a);
    UnhexHex(b);
  }

  /** Hexadecimal keeps byte order, so sorted encodings are sorted paths. */
  lemma {:induction false} HexOrder(a: string, b: string)
    requires ByteText(a) && ByteText(b)
    ensures Less(Hex(a), Hex(b)) <==> Less(a, b)
  {
    if |a| > 0 && |b| > 0 {
      var x, y := Hex(a), Hex(b);
      assert x[1..][1..] == Hex(a[1..]) && y[1..][1..] == Hex(b[1..]);
      HexOrder(a[1..], b[1..]);
      DigitOrder(a[0] as int, b[0] as int);
    }
  }

  lemma DigitOrder(m: nat, n: nat)
    requires m < 256 && n < 256
    ensures m < n <==>
      HexOf(m / 16) < HexOf(n / 16) || (HexOf(m / 16) == HexOf(n / 16) && HexOf(m % 16) < HexOf(n % 16))
    ensures m == n <==> HexOf(m / 16) == HexOf(n / 16) && HexOf(m % 16) == HexOf(n % 16)
  {
    NibbleOrder(m / 16, n / 16);
    NibbleOrder(m % 16, n % 16);
  }

  lemma NibbleOrder(m: nat, n: nat)
    requires m < 16 && n < 16
    ensures HexOf(m) < HexOf(n) <==> m < n
    ensures HexOf(m) == HexOf(n) <==> m == n
  {
  }

  // ----- Numbers -----

  predicate Digit(c: char) { '0' <= c <= '9' }

  predicate AllDigits(s: string) { forall i | 0 <= i < |s| :: Digit(s[i]) }

  predicate NumberText(s: string) { |s| >= 1 && AllDigits(s) }

  function DigitValue(c: char): nat requires Digit(c) { c as int - '0' as int }

  /** %llu, %u, %zu */
  function Decimal(n: nat): (s: string)
    ensures |s| >= 1
  {
    var last := [('0' as int + n % 10) as char];
    if n < 10 then last else Decimal(n / 10) + last
  }

  /** The pattern 0 or a digit string without leading zero. */
  predicate CanonicalDecimal(s: string) {
    |s| >= 1 && (forall i | 0 <= i < |s| :: Digit(s[i])) && (s[0] == '0' ==> |s| == 1)
  }

  function ParseDecimal(s: string): nat
    requires forall i | 0 <= i < |s| :: Digit(s[i])
  {
    if |s| == 0 then 0 else 10 * ParseDecimal(s[..|s| - 1]) + DigitValue(s[|s| - 1])
  }

  lemma {:induction false} DecimalRoundTrip(n: nat)
    ensures CanonicalDecimal(Decimal(n)) && ParseDecimal(Decimal(n)) == n
    ensures n > 0 ==> Decimal(n)[0] != '0'
  {
    var s := Decimal(n);
    if n < 10 {
      assert s[..|s| - 1] == "";
    } else {
      DecimalRoundTrip(n / 10);
      assert s[..|s| - 1] == Decimal(n / 10);
    }
  }

  lemma {:induction false} ZeroOnly(s: string)
    requires AllDigits(s) && |s| >= 1 && s[0] != '0'
    ensures ParseDecimal(s) > 0
  {
    if |s| > 1 { ZeroOnly(s[..|s| - 1]); }
  }

  /** A canonical decimal text is determined by its number. */
  lemma {:induction false} CanonicalInverse(s: string)
    requires CanonicalDecimal(s)
    ensures Decimal(ParseDecimal(s)) == s
  {
    var last := s[|s| - 1];
    if |s| > 1 {
      var front := s[..|s| - 1];
      CanonicalInverse(front);
      ZeroOnly(front);
      assert ParseDecimal(s) == 10 * ParseDecimal(front) + DigitValue(last);
      assert ParseDecimal(s) / 10 == ParseDecimal(front) && ParseDecimal(s) % 10 == DigitValue(last);
      assert s == front + [last];
    } else {
      assert s[..0] == "" && s == [last];
    }
  }

  /** %lld */
  function SignedDecimal(n: int): string {
    if n < 0 then "-" + Decimal(-n) else Decimal(n)
  }

  predicate CanonicalSigned(s: string) {
    if |s| > 0 && s[0] == '-' then CanonicalDecimal(s[1..]) else CanonicalDecimal(s)
  }

  function ParseSigned(s: string): int
    requires CanonicalSigned(s)
  {
    if |s| > 0 && s[0] == '-' then 0 - ParseDecimal(s[1..]) else ParseDecimal(s)
  }

  lemma SignedRoundTrip(n: int)
    ensures CanonicalSigned(SignedDecimal(n)) && ParseSigned(SignedDecimal(n)) == n
  {
    if n < 0 { DecimalRoundTrip(-n); assert SignedDecimal(n)[1..] == Decimal(-n); } else { DecimalRoundTrip(n); }
  }

  predicate OctalDigit(c: char) { '0' <= c <= '7' }

  function OctalOf(n: nat): char requires n < 8 { ('0' as int + n) as char }

  /** %03o of a mode below 010000. */
  function Octal(m: nat): string requires m < 4096 {
    var low := [OctalOf(m / 64 % 8), OctalOf(m / 8 % 8), OctalOf(m % 8)];
    if m < 512 then low else [OctalOf(m / 512)] + low
  }

  /** Three or four octal digits. */
  predicate ModeText(s: string) { 3 <= |s| <= 4 && forall i | 0 <= i < |s| :: OctalDigit(s[i]) }

  function OctalValue(c: char): nat requires OctalDigit(c) { c as int - '0' as int }

  /** int(text, 8) on a mode. */
  function ParseOctal(s: string): nat requires ModeText(s) {
    (if |s| == 4 then 512 * OctalValue(s[0]) else 0)
    + 64 * OctalValue(s[|s| - 3]) + 8 * OctalValue(s[|s| - 2]) + OctalValue(s[|s| - 1])
  }

  lemma OctalDigits(m: nat)
    ensures m == 512 * (m / 512) + 64 * (m / 64 % 8) + 8 * (m / 8 % 8) + m % 8
  {
    assert m / 64 == 8 * (m / 512) + m / 64 % 8;
    assert m / 8 == 8 * (m / 64) + m / 8 % 8;
  }

  lemma OctalRoundTrip(m: nat)
    requires m < 4096
    ensures ModeText(Octal(m)) && ParseOctal(Octal(m)) == m
  {
    OctalDigits(m);
    var d3, d2, d1, d0 := m / 512, m / 64 % 8, m / 8 % 8, m % 8;
    var s := Octal(m);
    assert s == (if d3 == 0 then [] else [OctalOf(d3)]) + [OctalOf(d2), OctalOf(d1), OctalOf(d0)];
    assert OctalValue(s[|s| - 3]) == d2 && OctalValue(s[|s| - 2]) == d1 && OctalValue(s[|s| - 1]) == d0;
  }
}
