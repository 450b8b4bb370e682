/** The volatile policy token: what derive writes and what parse_volatile_policy reads. */
module Policy {
  import opened Text
  import opened Records
  import opened Drift

  datatype Rule = Rule(behavior: char, path: string)

  const RULE_CAP: nat := 64
  const TOKEN_CAP: nat := 32768

  function RuleText(r: Rule): string { [r.behavior, ':'] + r.path }

  /** derive: one part for each path, joined by commas. */
  function Token(rules: seq<Rule>): string {
    Join(seq(|rules|, i requires 0 <= i < |rules| => RuleText(rules[i])), ',')
  }

  predicate ItemOk(item: string) {
    |item| >= 4 && item[1] == ':' && item[0] in {'A', 'C', 'L'} && CanonicalRelHex(item[2..])
  }

  /** The loop of parse_volatile_policy over the items still to come. */
  function ParseItems(items: seq<string>, known: seq<Rule>): Option<seq<Rule>>
    decreases |items|
  {
    if |items| == 0 then Some(known)
    else
      var item := items[0];
      if |known| >= RULE_CAP || !ItemOk(item) || (|known| > 0 && !Less(known[|known| - 1].path, item[2..])) then None
      else ParseItems(items[1..], known + [Rule(item[0], item[2..])])
  }

  function ParseToken(token: string): Option<seq<Rule>> {
    if |token| == 0 || |token| > TOKEN_CAP then None
    else
      var rules := ParseItems(Pieces(token, ','), []);
      if rules == Some([]) then None else rules
  }

  /** parse_volatile_policy: none stands for die. */
  method ParseVolatilePolicy(token: string) returns (policy: Option<seq<Rule>>)
    ensures policy == ParseToken(token)
  {
    hide Pieces, ItemOk, Less;
    if |token| == 0 || |token| > TOKEN_CAP { return None; }
    var rules: seq<Rule> := [];
    var item, position := NextPiece(token, ',', 0);
    assert token[0..] == token;
    assert [] + Pieces(token[position..], ',') == Pieces(token[position..], ',');
    while item.Some?
      invariant position <= |token|
      invariant ParseItems(Pieces(token, ','), []) ==
        ParseItems((if item.Some? then [item.value] else []) + Pieces(token[position..], ','), rules)
      invariant item.None? ==> Pieces(token[position..], ',') == []
      decreases |token| - position, if item.Some? then 1 else 0
    {
      var text := item.value;
      assert ([text] + Pieces(token[position..], ','))[1..] == Pieces(token[position..], ',');
      if |rules| >= RULE_CAP || !ItemOk(text) { return None; }
      ItemLong(text);
      if |rules| > 0 && !Less(rules[|rules| - 1].path, text[2..]) { return None; }
      rules := rules + [Rule(text[0], text[2..])];
      ghost var before := Pieces(token[position..], ',');
      item, position := NextPiece(token, ',', position);
      assert before == (if item.Some? then [item.value] else []) + Pieces(token[position..], ',');
    }
    policy := if |rules| == 0 then None else Some(rules);
  }

  lemma ItemLong(item: string)
    requires ItemOk(item)
    ensures |item| >= 4
  {
  }

  // ----- The token means its rules -----

  predicate RuleForm(r: Rule) { r.behavior in {'A', 'C', 'L'} && r.path != "" && CanonicalRelHex(r.path) }

  predicate RulesAscend(rules: seq<Rule>) { forall i, j | 0 <= i < j < |rules| :: Less(rules[i].path, rules[j].path) }

  lemma RuleTextOk(r: Rule)
    requires RuleForm(r)
    ensures ItemOk(RuleText(r)) && RuleText(r)[0] == r.behavior && RuleText(r)[2..] == r.path && Free(RuleText(r), ',')
  {
    assert RuleText(r)[2..] == r.path;
    assert HexText(r.path);
  }

  function RuleTexts(rules: seq<Rule>): (items: seq<string>)
    ensures |items| == |rules|
  {
    seq(|rules|, i requires 0 <= i < |rules| => RuleText(rules[i]))
  }

  lemma {:induction false} ItemsParse(rules: seq<Rule>, k: nat)
    requires k <= |rules| && RulesAscend(rules) && (forall i | 0 <= i < |rules| :: RuleForm(rules[i])) && k <= RULE_CAP
    ensures ParseItems(RuleTexts(rules)[k..], rules[..k]) == if |rules| <= RULE_CAP then Some(rules) else None
    decreases |rules| - k
  {
    hide ItemOk, RuleForm, Less, RuleText;
    var items, known := RuleTexts(rules)[k..], rules[..k];
    if k == |rules| {
      assert known == rules;
    } else {
      RuleTextOk(rules[k]);
      assert items[0] == RuleText(rules[k]) && items[1..] == RuleTexts(rules)[k + 1..];
      if k < RULE_CAP {
        assert known + [Rule(items[0][0], items[0][2..])] == rules[..k + 1];
        assert k > 0 ==> known[|known| - 1] == rules[k - 1];
        ItemsParse(rules, k + 1);
      }
    }
  }

  /** The reader inverts derive's token for up to 64 paths and refuses it for more, which 64 provenance rows
      and one high-sensitivity path can reach. */
  lemma TokenInverse(rules: seq<Rule>)
    requires |rules| > 0 && RulesAscend(rules) && (forall i | 0 <= i < |rules| :: RuleForm(rules[i]))
      && |Token(rules)| <= TOKEN_CAP
    ensures ParseToken(Token(rules)) == if |rules| <= RULE_CAP then Some(rules) else None
  {
    var items := RuleTexts(rules);
    assert Token(rules) == Join(items, ',');
    forall i | 0 <= i < |items| ensures |items[i]| > 0 && Free(items[i], ',') { RuleTextOk(rules[i]); }
    PiecesJoin(items, ',');
    assert items[0..] == items && rules[..0] == [];
    ItemsParse(rules, 0);
    assert Token(rules) != "" by { PiecesLast("", ','); assert Pieces("", ',') == []; }
  }

  /** Whatever the reader accepts is a list of at most 64 well-formed rules in strict path order. */
  lemma {:induction false} ParsedForm(items: seq<string>, known: seq<Rule>)
    requires RulesAscend(known) && (forall i | 0 <= i < |known| :: RuleForm(known[i])) && |known| <= RULE_CAP
    requires ParseItems(items, known).Some?
    ensures var rules := ParseItems(items, known).value;
      RulesAscend(rules) && (forall i | 0 <= i < |rules| :: RuleForm(rules[i])) && |rules| <= RULE_CAP
    decreases |items|
  {
    hide Less, CanonicalRelHex;
    if |items| > 0 {
      var rule := Rule(items[0][0], items[0][2..]);
      forall i | 0 <= i < |known| ensures Less(known[i].path, rule.path) {
        if i < |known| - 1 { LessTransitive(known[i].path, known[|known| - 1].path, rule.path); }
      }
      ParsedForm(items[1..], known + [rule]);
    }
  }
}
