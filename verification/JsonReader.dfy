/** JsonStream: the buffered reader, whose answers do not depend on how the file arrives in chunks. */
module JsonReader {
  import opened Text
  import opened Json
  import opened Loads

  // ----- Where a string literal ends -----

  /** Characters up to and including the closing quote; none for a control character or no end. */
  function Closing(s: string, escaped: bool): (n: Option<nat>)
    ensures n.Some? ==> 0 < n.value <= |s|
  {
    if |s| == 0 || s[0] < ' ' then None
    else if !escaped && s[0] == '"' then Some(1)
    else
      var rest := Closing(s[1..], !escaped && s[0] == '\\');
      if rest.None? then None else Some(1 + rest.value)
  }

  lemma {:induction false} ClosingStep(s: string, k: nat)
    requires k <= |s| && (forall i | 0 <= i < k :: s[i] >= ' ')
    requires k >= 1 && s[0] == '\\' && (k == 2 || (k == 6 && UnitAt(s, 0).Some?))
    ensures Closing(s, false) == AddTo(k, Closing(s[k..], false))
  {
    assert s[1..][1..] == s[2..];
    if k == 6 {
      assert s[2..][1..] == s[3..] && s[3..][1..] == s[4..] && s[4..][1..] == s[5..] && s[5..][1..] == s[6..];
      assert forall i | 2 <= i < 6 :: s[2..6][i - 2] == s[i];
      assert s[2..][0] == s[2] && s[3..][0] == s[3] && s[4..][0] == s[4] && s[5..][0] == s[5];
      assert Closing(s, false) == AddTo(2, Closing(s[2..], false));
      PlainStep(s[2..]);
      PlainStep(s[3..]);
      PlainStep(s[4..]);
      PlainStep(s[5..]);
    }
  }

  /** The same for a whole escape, single or paired. */
  lemma EscapeStep(s: string)
    requires CodePoint(s).Some?
    ensures Closing(s, false) == AddTo(CodePoint(s).value.1, Closing(s[CodePoint(s).value.1..], false))
  {
    UnitPlain(s, 0);
    assert s[0..] == s;
    ClosingStep(s, 6);
    if CodePoint(s).value.1 == 12 {
      UnitPlain(s, 6);
      var t := s[6..];
      assert t[2..6] == s[8..12] && t[6..] == s[12..];
      ClosingStep(t, 6);
    }
  }

  lemma UnitPlain(s: string, i: nat)
    requires UnitAt(s, i).Some?
    ensures i + 6 <= |s| && forall k | 0 <= k < 6 :: s[i..][k] == s[i + k] && s[i + k] >= ' '
  {
    assert forall k | i + 2 <= k < i + 6 :: s[i + 2..i + 6][k - (i + 2)] == s[k];
  }

  function AddTo(k: nat, n: Option<nat>): Option<nat> { if n.None? then None else Some(k + n.value) }

  lemma PlainStep(s: string)
    requires |s| > 0 && s[0] >= ' ' && s[0] != '"' && s[0] != '\\'
    ensures Closing(s, false) == AddTo(1, Closing(s[1..], false))
  {
  }

  /** Reading a literal depends only on the characters up to its closing quote. */
  lemma {:induction false} ScanCloses(s: string)
    ensures Closing(s, false).None? ==> Scan(s).None?
    ensures Closing(s, false).Some? ==>
      var n := Closing(s, false).value;
      && (Scan(s[..n]).Some? ==> Scan(s[..n]).value.1 == "")
      && Scan(s) == if Scan(s[..n]).None? then None else Some((Scan(s[..n]).value.0, s[n..]))
    decreases |s|
  {
    if |s| == 0 || s[0] < ' ' {
    } else if s[0] == '"' {
      assert s[..1][1..] == "";
    } else if s[0] != '\\' {
      ScanCloses(s[1..]);
      Shorter(s, 1);
    } else if |s| < 2 {
      assert Closing(s[1..], true).None?;
    } else if s[1] < ' ' {
      assert Closing(s[1..], true).None? && UnescapeChar(s[1]).None?;
    } else if s[1] != 'u' {
      ClosingStep(s, 2);
      ScanCloses(s[2..]);
      Shorter(s, 2);
    } else if CodePoint(s).None? {
      ShortEscape(s);
    } else {
      var k := CodePoint(s).value.1;
      EscapeStep(s);
      ScanCloses(s[k..]);
      EscapeCloses(s);
    }
  }

  /** The step over one hexadecimal escape. */
  lemma EscapeCloses(s: string)
    requires |s| >= 2 && s[0] == '\\' && s[1] == 'u' && CodePoint(s).Some?
    requires var k := CodePoint(s).value.1;
      && Closing(s, false) == AddTo(k, Closing(s[k..], false))
      && (Closing(s[k..], false).None? ==> Scan(s[k..]).None?)
      && (Closing(s[k..], false).Some? ==>
            var n, u := Closing(s[k..], false).value, s[k..];
            && (Scan(u[..n]).Some? ==> Scan(u[..n]).value.1 == "")
            && Scan(u) == if Scan(u[..n]).None? then None else Some((Scan(u[..n]).value.0, u[n..])))
    ensures Closing(s, false).None? ==> Scan(s).None?
    ensures Closing(s, false).Some? ==>
      var n := Closing(s, false).value;
      && (Scan(s[..n]).Some? ==> Scan(s[..n]).value.1 == "")
      && Scan(s) == if Scan(s[..n]).None? then None else Some((Scan(s[..n]).value.0, s[n..]))
  {
    var k := CodePoint(s).value.1;
    ScanPoint(s);
    hide Scan, Closing, CodePoint;
    if Closing(s, false).Some? {
      var n := Closing(s, false).value;
      SamePoint(s, n);
      ScanPoint(s[..n]);
      Shorter(s, k);
      assert s[..n][k..] == s[k..][..n - k];
    }
  }

  lemma ScanPoint(s: string)
    requires |s| >= 2 && s[0] == '\\' && s[1] == 'u' && CodePoint(s).Some?
    ensures Scan(s) == Push(CodePoint(s).value.0, Scan(s[CodePoint(s).value.1..]))
  {
    hide CodePoint;
  }

  /** An escape inside a prefix is the same escape. */
  lemma SamePoint(s: string, n: nat)
    requires n <= |s| && CodePoint(s).Some? && CodePoint(s).value.1 <= n
    ensures CodePoint(s[..n]) == CodePoint(s)
  {
    hide Unit;
    assert s[..n][2..6] == s[2..6];
    if n >= 12 { assert s[..n][8..12] == s[8..12]; }
  }

  lemma Shorter(s: string, k: nat)
    requires k <= |s|
    ensures forall n: nat | k + n <= |s| ::
      s[..k + n][k..] == s[k..][..n] && s[k..][n..] == s[k + n..] && s[..k + n][..k] == s[..k]
  {
  }

  /** An escape that is cut off, not hexadecimal or half a pair stays unreadable in the shorter text. */
  lemma ShortEscape(s: string)
    requires |s| >= 2 && s[0] == '\\' && s[1] == 'u' && CodePoint(s).None?
    ensures Scan(s).None?
    ensures Closing(s, false).Some? ==> Scan(s[..Closing(s, false).value]).None?
  {
    if Closing(s, false).Some? {
      ClosingPlace(s);
      hide CodePoint, Closing;
      NoPoint(s, Closing(s, false).value);
    }
  }

  lemma ClosingPlace(s: string)
    requires |s| >= 2 && s[0] == '\\' && s[1] == 'u' && Closing(s, false).Some?
    ensures 2 <= Closing(s, false).value <= |s|
  {
    ClosingStep(s, 2);
  }

  lemma NoPoint(s: string, n: nat)
    requires 2 <= n <= |s| && CodePoint(s).None?
    ensures CodePoint(s[..n]).None?
  {
    var t := s[..n];
    if n >= 6 { assert t[2..6] == s[2..6]; }
    if n >= 12 { assert t[8..12] == s[8..12]; }
    hide Unit;
  }

  // ----- The stream -----

  /** Levels left below a value that skip reads at a depth. */
  function RoomAt(depth: nat): Room { Some(if depth > DEPTH_CAP then 0 else DEPTH_CAP + 1 - depth) }

  const CAPPED: Room := Some(1)   // string and scalar caps in force, where no nesting is read

  function After<T>(r: Option<(T, string)>): Option<string> { if r.None? then None else Some(r.value.1) }

  class JsonStream {
    const input: string            // the bytes of the file, whose size was bound when it was opened
    const sizes: nat -> nat        // how many bytes each read returns, at least one before the end
    var filled: nat
    var buffer: string
    var offset: nat
    var clock: nat

    constructor (input: string, sizes: nat -> nat)
      ensures Valid() && Rest() == input && this.input == input
    {
      this.input, this.sizes := input, sizes;
      filled, buffer, offset, clock := 0, "", 0, 0;
      new;
      assert "" + input[0..] == input;
    }

    ghost predicate Valid() reads this`filled, this`offset, this`buffer { filled <= |input| && offset <= |buffer| }

    /** What is still to be read, wherever the chunks end. */
    ghost function Rest(): string
      reads this`filled, this`offset, this`buffer
      requires Valid()
    {
      buffer[offset..] + input[filled..]
    }

    method Fill() returns (more: bool)
      requires Valid()
      modifies this
      ensures Valid() && Rest() == old(Rest()) && (more <==> Rest() != "")
        && (more ==> offset < |buffer| && buffer[offset] == Rest()[0])
    {
      if offset < |buffer| { return true; }
      var n := sizes(clock);
      clock := clock + 1;
      var left := |input| - filled;
      var take := if left == 0 then 0 else if n == 0 then 1 else if n > left then left else n;
      var chunk := input[filled..filled + take];
      assert chunk + input[filled + take..] == input[filled..];
      buffer, offset, filled := chunk, 0, filled + take;
      more := |chunk| > 0;
    }

    method Peek() returns (c: Option<char>)
      requires Valid()
      modifies this
      ensures Valid() && Rest() == old(Rest()) && c == if Rest() == "" then None else Some(Rest()[0])
    {
      var more := Fill();
      c := if more then Some(buffer[offset]) else None;
    }

    /** The next character; none stands for fail. */
    method Take() returns (c: Option<char>)
      requires Valid()
      modifies this
      ensures Valid() && (c.None? <==> old(Rest()) == "")
      ensures c.Some? ==> c.value == old(Rest())[0] && Rest() == old(Rest())[1..]
    {
      var more := Fill();
      if !more { return None; }
      c := Some(buffer[offset]);
      assert Rest()[1..] == buffer[offset + 1..] + input[filled..];
      offset := offset + 1;
    }

    method Whitespace()
      requires Valid()
      modifies this
      ensures Valid() && Rest() == White(old(Rest()))
    {
      var c := Peek();
      while c.Some? && Blank(c.value)
        invariant Valid() && White(Rest()) == White(old(Rest()))
        invariant c == if Rest() == "" then None else Some(Rest()[0])
        decreases |Rest()|
      {
        var d := Take();
        c := Peek();
      }
    }

    method ExpectChar(want: char) returns (alive: bool)
      requires Valid()
      modifies this
      ensures Valid() && (alive <==> Expect(old(Rest()), want).Some?)
        && (alive ==> Rest() == Expect(old(Rest()), want).value)
    {
      Whitespace();
      var c := Take();
      alive := c == Some(want);
    }

    /** The loop of string: everything up to the closing quote. */
    method CollectLiteral() returns (raw: Option<string>)
      requires Valid()
      modifies this
      ensures Valid()
      ensures raw.Some? <==> Closing(old(Rest()), false).Some? && Closing(old(Rest()), false).value < STRING_CAP
      ensures raw.Some? ==>
        var n := Closing(old(Rest()), false).value; raw.value == old(Rest())[..n] && Rest() == old(Rest())[n..]
    {
      ghost var s := Rest();
      var taken, escaped, open := "", false, true;
      while open
        invariant Valid() && |taken| < STRING_CAP && |taken| <= |s| && taken == s[..|taken|] && Rest() == s[|taken|..]
        invariant open ==> Closing(s, false) == AddTo(|taken|, Closing(Rest(), escaped))
        invariant !open ==> Closing(s, false) == Some(|taken|)
        decreases |Rest()|, open
      {
        var item := Take();
        if item.None? { return None; }
        assert s[|taken|..][1..] == s[|taken| + 1..] && s[|taken|..][0] == item.value;
        assert s[..|taken| + 1] == s[..|taken|] + [item.value];
        taken := taken + [item.value];
        if |taken| + 1 > STRING_CAP || item.value < ' ' { return None; }
        if escaped { escaped := false; } else if item.value == '\\' { escaped := true; }
          else if item.value == '"' { open := false; }
      }
      raw := Some(taken);
    }

    /** string: collect the literal, then read it with json.loads. */
    method StringLiteral() returns (text: Option<string>)
      requires Valid()
      modifies this
      ensures Valid() && (text.Some? <==> ParseString(old(Rest()), CAPPED).Some?)
      ensures text.Some? ==> ParseString(old(Rest()), CAPPED) == Some((text.value, Rest()))
    {
      hide White, Scan, Closing;
      Whitespace();
      ghost var t := Rest();
      var c := Take();
      if c != Some('"') { return None; }
      LiteralRead(t[1..]);
      var raw := CollectLiteral();
      if raw.None? { return None; }
      var value := Scan(raw.value);
      text := if value.None? then None else Some(value.value.0);
    }

    /** literal. */
    method Literal() returns (alive: bool)
      requires Valid()
      modifies this
      ensures Valid()
      ensures var t := White(old(Rest()));
        var n := TokenLength(t);
        (alive <==> n <= SCALAR_CAP && ScalarOf(t[..n]).Some?) && (alive ==> Rest() == t[n..])
    {
      hide ScalarOf, White, Ends, TokenLength;
      Whitespace();
      ghost var t := Rest();
      var token := "";
      var c := Peek();
      assert t[0..] == t;
      while c.Some? && !Ends(c.value)
        invariant Valid() && |token| <= SCALAR_CAP && |token| <= |t| && token == t[..|token|] && Rest() == t[|token|..]
        invariant TokenLength(t) == |token| + TokenLength(Rest())
        invariant c == if Rest() == "" then None else Some(Rest()[0])
        decreases |Rest()|
      {
        TokenStep(Rest());
        SliceStep(t, |token|);
        var d := Take();
        token := token + [c.value];
        if |token| > SCALAR_CAP { return false; }
        c := Peek();
      }
      TokenStep(Rest());
      alive := ScalarOf(token).Some?;
    }

    lemma SliceStep(t: string, k: nat)
      requires k < |t|
      ensures t[k..][0] == t[k] && t[k..][1..] == t[k + 1..] && t[..k + 1] == t[..k] + [t[k]]
    {
    }

    /** skip: one value and nothing after it. */
    method Skip(depth: nat) returns (alive: bool)
      requires Valid()
      modifies this
      ensures Valid() && (alive <==> ParseValue(old(Rest()), RoomAt(depth)).Some?)
      ensures alive ==> Rest() == ParseValue(old(Rest()), RoomAt(depth)).value.1
      decreases |Rest()|, 1
    {
      hide White, ParseFields, ParseItems, ScalarOf, TokenLength, ParseString;
      if depth > DEPTH_CAP { return false; }
      Whitespace();
      ghost var t := Rest();
      WhiteTwice(t);
      CappedString(t, RoomAt(depth));
      var current := Peek();
      if current == Some('"') {
        var text := StringLiteral();
        alive := text.Some?;
      } else if current == Some('{') {
        var brace := Take();
        alive := SkipMembers(depth);
      } else if current == Some('[') {
        var bracket := Take();
        alive := SkipElements(depth);
      } else {
        alive := Literal();
        NoToken();
      }
    }

    /** The members of an object after its opening brace. */
    method SkipMembers(depth: nat) returns (alive: bool)
      requires Valid() && depth <= DEPTH_CAP
      modifies this
      ensures Valid()
      ensures var u := White(old(Rest()));
        var r := if |u| > 0 && u[0] == '}' then Some(u[1..]) else After(ParseFields(old(Rest()), RoomAt(depth + 1)));
        (alive <==> r.Some?) && (alive ==> Rest() == r.value)
      decreases |Rest()|, 3
    {
      hide White, ParseValue, ParseString, Expect;
      ghost var s := Rest();
      FieldsBlank(s, RoomAt(depth + 1));
      Whitespace();
      var c := Peek();
      if c == Some('}') {
        c := Take();
        return true;
      }
      ghost var u := Rest();
      while true
        invariant Valid() && |Rest()| <= |s|
          && After(ParseFields(u, RoomAt(depth + 1))) == After(ParseFields(Rest(), RoomAt(depth + 1)))
        decreases |Rest()|
      {
        CappedString(Rest(), RoomAt(depth + 1));
        var key := StringLiteral();
        if key.None? { return false; }
        alive := ExpectChar(':');
        if !alive { return; }
        alive := Skip(depth + 1);
        if !alive { return; }
        Whitespace();
        var separator := Take();
        if separator == Some('}') { return true; }
        if separator != Some(',') { return false; }
      }
    }

    /** The elements of an array after its opening bracket. */
    method SkipElements(depth: nat) returns (alive: bool)
      requires Valid() && depth <= DEPTH_CAP
      modifies this
      ensures Valid()
      ensures var u := White(old(Rest()));
        var r := if |u| > 0 && u[0] == ']' then Some(u[1..]) else After(ParseItems(old(Rest()), RoomAt(depth + 1)));
        (alive <==> r.Some?) && (alive ==> Rest() == r.value)
      decreases |Rest()|, 3
    {
      hide White, ParseValue;
      ghost var s := Rest();
      ItemsBlank(s, RoomAt(depth + 1));
      Whitespace();
      var c := Peek();
      if c == Some(']') {
        c := Take();
        return true;
      }
      ghost var u := Rest();
      while true
        invariant Valid() && |Rest()| <= |s|
          && After(ParseItems(u, RoomAt(depth + 1))) == After(ParseItems(Rest(), RoomAt(depth + 1)))
        decreases |Rest()|
      {
        alive := Skip(depth + 1);
        if !alive { return; }
        Whitespace();
        var separator := Take();
        if separator == Some(']') { return true; }
        if separator != Some(',') { return false; }
      }
    }
  }

  lemma {:induction false} WhiteIdempotent(s: string)
    ensures White(White(s)) == White(s)
  {
    if |s| > 0 && Blank(s[0]) { WhiteIdempotent(s[1..]); }
  }

  lemma WhiteTwice(t: string)
    requires |t| == 0 || !Blank(t[0])
    ensures White(t) == t
  {
  }

  lemma CappedString(s: string, room: Room)
    requires room.Some?
    ensures ParseString(s, CAPPED) == ParseString(s, room)
  {
  }

  lemma FieldsBlank(s: string, room: Room)
    ensures ParseFields(White(s), room) == ParseFields(s, room)
  {
    WhiteIdempotent(s);
    hide White, ParseValue;
  }

  lemma ItemsBlank(s: string, room: Room)
    ensures ParseItems(White(s), room) == ParseItems(s, room)
  {
    WhiteIdempotent(s);
    hide White;
  }

  lemma TokenStep(s: string)
    ensures |s| == 0 || Ends(s[0]) ==> TokenLength(s) == 0
    ensures |s| > 0 && !Ends(s[0]) ==> TokenLength(s) == 1 + TokenLength(s[1..])
  {
  }

  lemma NoToken()
    ensures ScalarOf("") == None
  {
  }

  /** The literal after its opening quote, as the stream judges it. */
  lemma LiteralRead(s: string)
    ensures Closing(s, false).None? ==> Scan(s).None?
    ensures Closing(s, false).Some? ==>
      var n := Closing(s, false).value;
      && Scan(s) == (if Scan(s[..n]).None? then None else Some((Scan(s[..n]).value.0, s[n..])))
      && (Scan(s).Some? ==> 1 + |s| - |Scan(s).value.1| == n + 1)
  {
    ScanCloses(s);
  }
}
