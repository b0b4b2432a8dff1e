/** cfg predicates: splitting their tokens at commas, parsing them, and rendering them. */
module Cfgs {
  import opened Options
  import opened Brackets

  datatype Operator = All | Any | Not

  // The syntax of predicates. A setting may be compared with a literal; what is no predicate keeps only
  // where it mentions `test`.
  datatype Cfg =
    | Setting(name: string, value: Option<string>)
    | Group(operator: Operator, operands: seq<Cfg>)
    | Other(words: seq<string>)

  function Word(text: string): Token { Token(Ident, text) }
  function Mark(text: string): Token { Token(Punct, text) }

  const COMMA := Mark(",")

  predicate Is(tokens: seq<Token>, i: int, kind: Kind, text: string) {
    0 <= i < |tokens| && tokens[i] == Token(kind, text)
  }

  // Raw identifiers name what they would without the prefix.
  function Unraw(name: string): string {
    if |name| >= 2 && name[..2] == "r#" then name[2..] else name
  }

  function Operation(name: string): Option<Operator> {
    if name == "all" then Some(All) else if name == "any" then Some(Any)
    else if name == "not" then Some(Not) else None
  }

  function Name(operator: Operator): string {
    match operator case All => "all" case Any => "any" case Not => "not"
  }

  // The nonempty pieces of a range, as pairs of offsets, given that the piece at hand began earlier; a
  // bracket is passed together with all that it encloses.
  function SplitFrom(tokens: seq<Token>, partner: seq<int>, piece: nat, index: nat, end: nat)
      : (pieces: seq<(nat, nat)>)
    requires Partners(tokens, partner) && piece <= index && piece <= end <= |tokens|
    ensures forall k :: 0 <= k < |pieces| ==> piece <= pieces[k].0 < pieces[k].1 <= end
    decreases if index < end then end - index else 0
  {
    if index >= end then if piece < end then [(piece, end)] else []
    else if tokens[index].Opens() then
      assert Placed(tokens, partner, index);
      SplitFrom(tokens, partner, piece, partner[index] + 1, end)
    else if tokens[index] == COMMA then
      (if piece < index then [(piece, index)] else [])
      + SplitFrom(tokens, partner, index + 1, index + 1, end)
    else SplitFrom(tokens, partner, piece, index + 1, end)
  }

  function Split(tokens: seq<Token>, partner: seq<int>, start: nat, end: nat): (pieces: seq<(nat, nat)>)
    requires Partners(tokens, partner) && start <= end <= |tokens|
    ensures forall k :: 0 <= k < |pieces| ==> start <= pieces[k].0 < pieces[k].1 <= end
  {
    SplitFrom(tokens, partner, start, start, end)
  }

  // The mentions of `test` among tokens, but those of a macro variable or a setting's name. The token
  // before the first of all is, as Python indexes it, the last.
  function Mentions(tokens: seq<Token>, start: nat, end: nat): seq<string>
    requires start <= end <= |tokens|
    decreases end - start
  {
    if start == end then []
    else
      (if && tokens[start].kind == Ident && Unraw(tokens[start].text) == "test"
          && !Is(tokens, if start == 0 then |tokens| - 1 else start - 1, Punct, "$")
          && !Is(tokens, start + 1, Punct, "=")
       then [tokens[start].text] else [])
      + Mentions(tokens, start + 1, end)
  }

  // Parses the predicate from start to end.
  function Parse(tokens: seq<Token>, partner: seq<int>, start: nat, end: nat): Cfg
    requires Partners(tokens, partner) && start <= end <= |tokens|
    decreases end - start
  {
    if start < end && tokens[start].kind == Ident then
      var name := Unraw(tokens[start].text);
      if start + 1 == end then Setting(name, None)
      else if Operation(name).Some? && tokens[start + 1] == Mark("(") && partner[start + 1] == end - 1 then
        assert Placed(tokens, partner, start + 1);
        var pieces := Split(tokens, partner, start + 2, end - 1);
        Group(Operation(name).value,
              seq(|pieces|, k requires 0 <= k < |pieces| => Parse(tokens, partner, pieces[k].0, pieces[k].1)))
      else if start + 3 == end && tokens[start + 1] == Mark("=") && tokens[start + 2].kind == Literal then
        Setting(name, Some(tokens[start + 2].text))
      else Other(Mentions(tokens, start, end))
    else Other(Mentions(tokens, start, end))
  }

  // The inverse of parsing, as far as there is one.
  function Render(cfg: Cfg): seq<Token> {
    match cfg
    case Setting(name, None) => [Word(name)]
    case Setting(name, Some(value)) => [Word(name), Mark("="), Token(Literal, value)]
    case Group(operator, operands) =>
      [Word(Name(operator)), Mark("(")] + RenderAll(operands) + [Mark(")")]
    case Other(words) => seq(|words|, k requires 0 <= k < |words| => Word(words[k]))
  }

  function RenderAll(operands: seq<Cfg>): seq<Token> {
    if operands == [] then []
    else if |operands| == 1 then Render(operands[0])
    else Render(operands[0]) + [COMMA] + RenderAll(operands[1..])
  }

  // All of it parsed, from identifiers without raw prefixes.
  predicate Proper(cfg: Cfg) {
    match cfg
    case Setting(name, _) => Unraw(name) == name
    case Group(_, operands) => forall k :: 0 <= k < |operands| ==> Proper(operands[k])
    case Other(_) => false
  }

  lemma {:induction false} RenderBalanced(cfg: Cfg)
    ensures Balanced(Render(cfg))
    decreases cfg, 0
  {
    match cfg
    case Setting(name, value) => PlainBalanced(Render(cfg));
    case Other(words) => PlainBalanced(Render(cfg));
    case Group(operator, operands) =>
      RenderAllBalanced(operands);
      var inner := [Mark("(")] + RenderAll(operands) + [Mark(")")];
      BalancedWrap(Mark("("), RenderAll(operands), Mark(")"));
      BalancedOne(Word(Name(operator)));
      BalancedConcat([Word(Name(operator))], inner);
      assert Render(cfg) == [Word(Name(operator))] + inner;
  }

  lemma {:induction false} RenderAllBalanced(operands: seq<Cfg>)
    ensures Balanced(RenderAll(operands))
    decreases operands
  {
    if operands != [] {
      RenderBalanced(operands[0]);
      if |operands| > 1 {
        RenderAllBalanced(operands[1..]);
        BalancedOne(COMMA);
        BalancedConcat(Render(operands[0]), [COMMA]);
        BalancedConcat(Render(operands[0]) + [COMMA], RenderAll(operands[1..]));
      }
    }
  }

  lemma {:induction false} PlainBalanced(s: seq<Token>)
    requires forall k :: 0 <= k < |s| ==> !s[k].Bracket()
    ensures Balanced(s)
  {
    if s != [] {
      PlainBalanced(s[1..]);
    }
  }

  // The tokens hold others from start.
  ghost predicate At(tokens: seq<Token>, start: nat, s: seq<Token>) {
    start + |s| <= |tokens| && forall k :: 0 <= k < |s| ==> s[k] == tokens[start + k]
  }

  lemma AtSlice(tokens: seq<Token>, start: nat, s: seq<Token>)
    requires At(tokens, start, s)
    ensures tokens[start..start + |s|] == s
  {
  }

  lemma AtConcat(tokens: seq<Token>, start: nat, a: seq<Token>, b: seq<Token>)
    requires At(tokens, start, a + b)
    ensures At(tokens, start, a) && At(tokens, start + |a|, b)
  {
    forall k | 0 <= k < |a| ensures a[k] == tokens[start + k] {
      assert (a + b)[k] == a[k];
    }
    forall k | 0 <= k < |b| ensures b[k] == tokens[start + |a| + k] {
      assert (a + b)[|a| + k] == b[k];
    }
  }

  lemma AtOne(tokens: seq<Token>, start: nat, token: Token)
    requires At(tokens, start, [token])
    ensures start < |tokens| && tokens[start] == token
  {
    assert [token][0] == token;
  }

  lemma AtGroup(tokens: seq<Token>, start: nat, cfg: Cfg)
    requires cfg.Group? && At(tokens, start, Render(cfg))
    ensures start + 2 < |tokens| && |Render(cfg)| >= 3
    ensures tokens[start] == Word(Name(cfg.operator)) && tokens[start + 1] == Mark("(")
    ensures tokens[start + |Render(cfg)| - 1] == Mark(")")
    ensures At(tokens, start + 2, RenderAll(cfg.operands))
    ensures start + 2 + |RenderAll(cfg.operands)| == start + |Render(cfg)| - 1
  {
    var head, body := [Word(Name(cfg.operator)), Mark("(")], RenderAll(cfg.operands);
    AtConcat(tokens, start, head + body, [Mark(")")]);
    AtConcat(tokens, start, head, body);
    AtOne(tokens, start + |head + body|, Mark(")"));
    assert head == [head[0]] + [head[1]];
    AtConcat(tokens, start, [head[0]], [head[1]]);
    AtOne(tokens, start, head[0]);
    AtOne(tokens, start + 1, head[1]);
  }

  // The parenthesis of a rendered group closes where its tokens end.
  lemma GroupPartner(tokens: seq<Token>, partner: seq<int>, start: nat, cfg: Cfg)
    requires Partners(tokens, partner) && cfg.Group? && At(tokens, start, Render(cfg))
    ensures start + 1 < |tokens| && partner[start + 1] == start + |Render(cfg)| - 1
  {
    AtGroup(tokens, start, cfg);
    RenderAllBalanced(cfg.operands);
    AtSlice(tokens, start + 2, RenderAll(cfg.operands));
    PartnerIs(tokens, partner, start + 1, start + |Render(cfg)| - 1);
  }

  lemma AtSetting(tokens: seq<Token>, start: nat, name: string, value: string)
    requires At(tokens, start, Render(Setting(name, Some(value))))
    ensures start + 3 <= |tokens| && tokens[start] == Word(name)
    ensures tokens[start + 1] == Mark("=") && tokens[start + 2] == Token(Literal, value)
  {
    var s := Render(Setting(name, Some(value)));
    assert s[0] == Word(name) && s[1] == Mark("=") && s[2] == Token(Literal, value);
  }

  lemma SkipPlain(tokens: seq<Token>, partner: seq<int>, piece: nat, index: nat, end: nat)
    requires Partners(tokens, partner) && piece <= index < end <= |tokens|
    requires !tokens[index].Opens() && tokens[index] != COMMA
    ensures SplitFrom(tokens, partner, piece, index, end) == SplitFrom(tokens, partner, piece, index + 1, end)
  {
  }

  // Splitting passes a rendered predicate whole.
  lemma SkipRender(tokens: seq<Token>, partner: seq<int>, piece: nat, index: nat, end: nat, cfg: Cfg)
    requires Partners(tokens, partner) && piece <= index && piece <= end <= |tokens|
    requires index + |Render(cfg)| <= end && !cfg.Other? && At(tokens, index, Render(cfg))
    ensures SplitFrom(tokens, partner, piece, index, end)
            == SplitFrom(tokens, partner, piece, index + |Render(cfg)|, end)
  {
    match cfg
    case Setting(_, _) => SkipSetting(tokens, partner, piece, index, end, cfg);
    case Group(_, _) => SkipGroup(tokens, partner, piece, index, end, cfg);
  }

  lemma SkipSetting(tokens: seq<Token>, partner: seq<int>, piece: nat, index: nat, end: nat, cfg: Cfg)
    requires Partners(tokens, partner) && piece <= index && piece <= end <= |tokens|
    requires index + |Render(cfg)| <= end && cfg.Setting? && At(tokens, index, Render(cfg))
    ensures SplitFrom(tokens, partner, piece, index, end)
            == SplitFrom(tokens, partner, piece, index + |Render(cfg)|, end)
  {
    if cfg.value.None? {
      AtOne(tokens, index, Word(cfg.name));
      SkipPlain(tokens, partner, piece, index, end);
    } else {
      AtSetting(tokens, index, cfg.name, cfg.value.value);
      SkipPlain(tokens, partner, piece, index, end);
      SkipPlain(tokens, partner, piece, index + 1, end);
      SkipPlain(tokens, partner, piece, index + 2, end);
    }
  }

  lemma SkipGroup(tokens: seq<Token>, partner: seq<int>, piece: nat, index: nat, end: nat, cfg: Cfg)
    requires Partners(tokens, partner) && piece <= index && piece <= end <= |tokens|
    requires index + |Render(cfg)| <= end && cfg.Group? && At(tokens, index, Render(cfg))
    ensures SplitFrom(tokens, partner, piece, index, end)
            == SplitFrom(tokens, partner, piece, index + |Render(cfg)|, end)
  {
    AtGroup(tokens, index, cfg);
    GroupPartner(tokens, partner, index, cfg);
    SkipPlain(tokens, partner, piece, index, end);
  }

  // Where the first of rendered operands ends, and the others start.
  lemma AtOperands(tokens: seq<Token>, start: nat, end: nat, operands: seq<Cfg>) returns (mid: nat)
    requires operands != [] && At(tokens, start, RenderAll(operands)) && end == start + |RenderAll(operands)|
    ensures At(tokens, start, Render(operands[0])) && mid == start + |Render(operands[0])| <= end <= |tokens|
    ensures |operands| == 1 ==> mid == end
    ensures |operands| > 1 ==>
              && mid < end && tokens[mid] == COMMA && At(tokens, mid + 1, RenderAll(operands[1..]))
              && end == mid + 1 + |RenderAll(operands[1..])|
  {
    var first := Render(operands[0]);
    mid := start + |first|;
    if |operands| > 1 {
      AtConcat(tokens, start, first + [COMMA], RenderAll(operands[1..]));
      AtConcat(tokens, start, first, [COMMA]);
      AtOne(tokens, mid, COMMA);
    }
  }

  lemma RenderNonempty(cfg: Cfg)
    requires !cfg.Other?
    ensures Render(cfg) != []
  {
  }

  // Rendering a predicate and parsing its tokens, wherever they are, gives it back.
  lemma {:induction false} ParseRender(tokens: seq<Token>, partner: seq<int>, start: nat, cfg: Cfg)
    requires Partners(tokens, partner) && Proper(cfg) && At(tokens, start, Render(cfg))
    ensures Parse(tokens, partner, start, start + |Render(cfg)|) == cfg
    decreases cfg, 0
  {
    match cfg
    case Setting(_, _) => ParseSetting(tokens, partner, start, cfg);
    case Group(operator, operands) =>
      var end := AtBody(tokens, start, cfg);
      ParseOperands(tokens, partner, start + 2, end, operands);
      ParseGroup(tokens, partner, start, cfg);
  }

  lemma AtBody(tokens: seq<Token>, start: nat, cfg: Cfg) returns (end: nat)
    requires cfg.Group? && At(tokens, start, Render(cfg))
    ensures end == start + |Render(cfg)| - 1 == start + 2 + |RenderAll(cfg.operands)|
    ensures At(tokens, start + 2, RenderAll(cfg.operands))
  {
    AtGroup(tokens, start, cfg);
    end := start + |Render(cfg)| - 1;
  }

  lemma ParseSetting(tokens: seq<Token>, partner: seq<int>, start: nat, cfg: Cfg)
    requires Partners(tokens, partner) && cfg.Setting? && Proper(cfg) && At(tokens, start, Render(cfg))
    ensures Parse(tokens, partner, start, start + |Render(cfg)|) == cfg
  {
    match cfg
    case Setting(name, None) => AtOne(tokens, start, Word(name));
    case Setting(name, Some(value)) =>
      AtSetting(tokens, start, name, value);
      assert Mark("=").text[0] != Mark("(").text[0];
  }

  lemma ParseGroup(tokens: seq<Token>, partner: seq<int>, start: nat, cfg: Cfg)
    requires Partners(tokens, partner) && cfg.Group? && At(tokens, start, Render(cfg))
    requires ParsesAs(tokens, partner, start + 2, start + |Render(cfg)| - 1, cfg.operands)
    ensures Parse(tokens, partner, start, start + |Render(cfg)|) == cfg
  {
    AtGroup(tokens, start, cfg);
    GroupPartner(tokens, partner, start, cfg);
    ParseParts(tokens, partner, start, start + |Render(cfg)|, cfg);
  }

  lemma ParseParts(tokens: seq<Token>, partner: seq<int>, start: nat, end: nat, cfg: Cfg)
    requires Partners(tokens, partner) && start + 2 < end <= |tokens| && cfg.Group?
    requires tokens[start] == Word(Name(cfg.operator)) && tokens[start + 1] == Mark("(")
    requires partner[start + 1] == end - 1 && ParsesAs(tokens, partner, start + 2, end - 1, cfg.operands)
    ensures Parse(tokens, partner, start, end) == cfg
  {
    ParseUnfold(tokens, partner, start, end, cfg.operator);
    assert ParseAll(tokens, partner, Split(tokens, partner, start + 2, end - 1)) == cfg.operands;
  }

  lemma NameOperation(operator: Operator)
    ensures Unraw(Name(operator)) == Name(operator) && Operation(Name(operator)) == Some(operator)
  {
    var name := Name(operator);
    assert name[..2][0] == name[0] != 'r';
  }

  function ParseAll(tokens: seq<Token>, partner: seq<int>, pieces: seq<(nat, nat)>): (parsed: seq<Cfg>)
    requires Partners(tokens, partner)
    requires forall k :: 0 <= k < |pieces| ==> pieces[k].0 <= pieces[k].1 <= |tokens|
    ensures |parsed| == |pieces|
    ensures forall k :: 0 <= k < |pieces| ==> parsed[k] == Parse(tokens, partner, pieces[k].0, pieces[k].1)
  {
    seq(|pieces|, k requires 0 <= k < |pieces| => Parse(tokens, partner, pieces[k].0, pieces[k].1))
  }

  lemma ParseUnfold(tokens: seq<Token>, partner: seq<int>, start: nat, end: nat, operator: Operator)
    requires Partners(tokens, partner) && start + 2 < end <= |tokens|
    requires tokens[start] == Word(Name(operator)) && tokens[start + 1] == Mark("(")
    requires partner[start + 1] == end - 1
    ensures Parse(tokens, partner, start, end)
            == Group(operator, ParseAll(tokens, partner, Split(tokens, partner, start + 2, end - 1)))
  {
    NameOperation(operator);
    assert Placed(tokens, partner, start + 1);
    var pieces := Split(tokens, partner, start + 2, end - 1);
    assert seq(|pieces|, k requires 0 <= k < |pieces| => Parse(tokens, partner, pieces[k].0, pieces[k].1))
           == ParseAll(tokens, partner, pieces);
  }

  // The pieces of a range parse as given operands, one by one.
  ghost predicate ParsesAs(
      tokens: seq<Token>, partner: seq<int>, start: nat, end: nat, operands: seq<Cfg>)
    requires Partners(tokens, partner)
  {
    && start <= end <= |tokens|
    && forall pieces {:trigger ParseAll(tokens, partner, pieces)} ::
         pieces == Split(tokens, partner, start, end) ==> ParseAll(tokens, partner, pieces) == operands
  }

  // No operands make no pieces,
  lemma NoOperand(tokens: seq<Token>, partner: seq<int>, start: nat)
    requires Partners(tokens, partner) && start <= |tokens|
    ensures ParsesAs(tokens, partner, start, start, [])
  {
  }

  // one makes one,
  lemma OneOperand(tokens: seq<Token>, partner: seq<int>, start: nat, end: nat, operands: seq<Cfg>)
    requires Partners(tokens, partner) && start < end <= |tokens| && |operands| == 1
    requires SplitFrom(tokens, partner, start, start, end) == SplitFrom(tokens, partner, start, end, end)
    requires Parse(tokens, partner, start, end) == operands[0]
    ensures ParsesAs(tokens, partner, start, end, operands)
  {
    assert Split(tokens, partner, start, end) == [(start, end)];
    assert ParseAll(tokens, partner, [(start, end)]) == operands;
  }

  // and more make the first of them and those of the others.
  lemma FirstOperand(tokens: seq<Token>, partner: seq<int>, start: nat, mid: nat, end: nat, operands: seq<Cfg>)
    requires Partners(tokens, partner) && |operands| > 1
    requires start < mid < end <= |tokens|
    requires SplitFrom(tokens, partner, start, start, end) == SplitFrom(tokens, partner, start, mid, end)
    requires tokens[mid] == COMMA && Parse(tokens, partner, start, mid) == operands[0]
    requires ParsesAs(tokens, partner, mid + 1, end, operands[1..])
    ensures ParsesAs(tokens, partner, start, end, operands)
  {
    var rest := Split(tokens, partner, mid + 1, end);
    SplitFirst(tokens, partner, start, mid, end, rest);
    ParseAllParts(tokens, partner, start, mid, rest);
    assert ParseAll(tokens, partner, rest) == operands[1..];
    Prepend(ParseAll(tokens, partner, [(start, mid)] + rest), operands);
  }

  lemma Prepend<T>(a: seq<T>, b: seq<T>)
    requires a != [] && b != [] && a[0] == b[0] && a[1..] == b[1..]
    ensures a == b
  {
    assert a == [a[0]] + a[1..] && b == [b[0]] + b[1..];
  }

  lemma SplitFirst(tokens: seq<Token>, partner: seq<int>, start: nat, mid: nat, end: nat, rest: seq<(nat, nat)>)
    requires Partners(tokens, partner) && start < mid < end <= |tokens| && tokens[mid] == COMMA
    requires SplitFrom(tokens, partner, start, start, end) == SplitFrom(tokens, partner, start, mid, end)
    requires rest == Split(tokens, partner, mid + 1, end)
    ensures Split(tokens, partner, start, end) == [(start, mid)] + rest
  {
  }

  lemma ParseAllParts(tokens: seq<Token>, partner: seq<int>, start: nat, mid: nat, rest: seq<(nat, nat)>)
    requires Partners(tokens, partner) && start <= mid <= |tokens|
    requires forall k :: 0 <= k < |rest| ==> rest[k].0 <= rest[k].1 <= |tokens|
    ensures var parsed := ParseAll(tokens, partner, [(start, mid)] + rest);
            parsed[0] == Parse(tokens, partner, start, mid) && parsed[1..] == ParseAll(tokens, partner, rest)
  {
    var pieces := [(start, mid)] + rest;
    assert pieces[0] == (start, mid) && pieces[1..] == rest;
    ParseAllRest(tokens, partner, pieces);
  }

  lemma ParseAllRest(tokens: seq<Token>, partner: seq<int>, pieces: seq<(nat, nat)>)
    requires Partners(tokens, partner) && pieces != []
    requires forall k :: 0 <= k < |pieces| ==> pieces[k].0 <= pieces[k].1 <= |tokens|
    ensures ParseAll(tokens, partner, pieces)[1..] == ParseAll(tokens, partner, pieces[1..])
  {
  }

  lemma {:induction false} ParseOperands(
      tokens: seq<Token>, partner: seq<int>, start: nat, end: nat, operands: seq<Cfg>)
    requires Partners(tokens, partner) && At(tokens, start, RenderAll(operands))
    requires end == start + |RenderAll(operands)|
    requires forall k :: 0 <= k < |operands| ==> Proper(operands[k])
    ensures ParsesAs(tokens, partner, start, end, operands)
    decreases operands, 1
  {
    if operands == [] {
      NoOperand(tokens, partner, start);
    } else {
      var mid := ParseFirst(tokens, partner, start, end, operands);
      if |operands| == 1 {
        OneOperand(tokens, partner, start, end, operands);
      } else {
        ParseOperands(tokens, partner, mid + 1, end, operands[1..]);
        FirstOperand(tokens, partner, start, mid, end, operands);
      }
    }
  }

  // The first operand parses, and splitting passes it.
  lemma {:induction false} ParseFirst(
      tokens: seq<Token>, partner: seq<int>, start: nat, end: nat, operands: seq<Cfg>) returns (mid: nat)
    requires Partners(tokens, partner) && operands != [] && Proper(operands[0])
    requires At(tokens, start, RenderAll(operands)) && end == start + |RenderAll(operands)|
    ensures start < mid <= end <= |tokens| && Parse(tokens, partner, start, mid) == operands[0]
    ensures SplitFrom(tokens, partner, start, start, end) == SplitFrom(tokens, partner, start, mid, end)
    ensures |operands| == 1 ==> mid == end
    ensures |operands| > 1 ==>
              && mid < end && tokens[mid] == COMMA && At(tokens, mid + 1, RenderAll(operands[1..]))
              && end == mid + 1 + |RenderAll(operands[1..])|
    decreases operands, 0
  {
    mid := AtOperands(tokens, start, end, operands);
    ParseRender(tokens, partner, start, operands[0]);
    SkipTo(tokens, partner, start, mid, end, operands[0]);
  }

  lemma SkipTo(tokens: seq<Token>, partner: seq<int>, start: nat, mid: nat, end: nat, cfg: Cfg)
    requires Partners(tokens, partner) && !cfg.Other? && At(tokens, start, Render(cfg))
    requires mid == start + |Render(cfg)| <= end <= |tokens|
    ensures start < mid
    ensures SplitFrom(tokens, partner, start, start, end) == SplitFrom(tokens, partner, start, mid, end)
  {
    RenderNonempty(cfg);
    SkipRender(tokens, partner, start, start, end, cfg);
  }

  // Parses text on its own, as a predicate that was rendered is read again.
  function Read(text: seq<Token>): Option<Cfg> {
    MatchMeans(text);
    match Match(text)
    case Matched(partner) => Some(Parse(text, partner, 0, |text|))
    case _ => None
  }

  lemma ReadRender(cfg: Cfg)
    requires Proper(cfg)
    ensures Read(Render(cfg)) == Some(cfg)
  {
    var text := Render(cfg);
    RenderBalanced(cfg);
    MatchMeans(text);
    assert text[0..|text|] == text;
    ParseRender(text, Match(text).partner, 0, cfg);
  }
}
