/** Rust tokens and the matching of their brackets. */
module Brackets {
  import opened Options

  datatype Kind = Ident | Lifetime | Literal | Punct

  datatype Token = Token(kind: Kind, text: string)
  {
    predicate Opens() {
      kind == Punct && text in ["(", "[", "{"]
    }

    predicate Closes() {
      kind == Punct && text in [")", "]", "}"]
    }

    predicate Bracket() {
      Opens() || Closes()
    }
  }

  // The opening bracket that a closing one ends.
  function Opener(closer: string): string {
    if closer == ")" then "(" else if closer == "]" then "[" else "{"
  }

  predicate Pairs(open: Token, close: Token) {
    open.Opens() && close.Closes() && open.text == Opener(close.text)
  }

  // The grammar of well-bracketed tokens.
  ghost predicate Balanced(s: seq<Token>)
    decreases |s|, 1
  {
    || s == []
    || (!s[0].Bracket() && Balanced(s[1..]))
    || exists k :: 0 < k < |s| && Splits(s, k)
  }

  ghost predicate Splits(s: seq<Token>, k: nat)
    requires 0 < k < |s|
    decreases |s|, 0
  {
    Pairs(s[0], s[k]) && Balanced(s[1..k]) && Balanced(s[k + 1..])
  }

  lemma {:induction false} BalancedConcat(a: seq<Token>, b: seq<Token>)
    requires Balanced(a) && Balanced(b)
    ensures Balanced(a + b)
    decreases |a|
  {
    var s := a + b;
    if a == [] {
      assert s == b;
    } else if !a[0].Bracket() {
      assert s[1..] == a[1..] + b;
      BalancedConcat(a[1..], b);
    } else {
      var k :| 0 < k < |a| && Splits(a, k);
      assert s[1..k] == a[1..k] && s[k + 1..] == a[k + 1..] + b;
      BalancedConcat(a[k + 1..], b);
      assert Splits(s, k);
    }
  }

  lemma BalancedWrap(open: Token, body: seq<Token>, close: Token)
    requires Pairs(open, close) && Balanced(body)
    ensures Balanced([open] + body + [close])
  {
    var s := [open] + body + [close];
    var k := |body| + 1;
    assert s[1..k] == body && s[k + 1..] == [];
    assert Splits(s, k);
  }

  lemma BalancedOne(token: Token)
    requires !token.Bracket()
    ensures Balanced([token])
  {
  }

  // The brackets that tokens leave open over those that are, or none when one closes another.
  function Opened(s: seq<Token>, open: seq<Token>): Option<seq<Token>> {
    if s == [] then Some(open)
    else if s[0].Opens() then Opened(s[1..], open + [s[0]])
    else if s[0].Closes() then
      if open != [] && Pairs(open[|open| - 1], s[0]) then Opened(s[1..], open[..|open| - 1]) else None
    else Opened(s[1..], open)
  }

  lemma {:induction false} OpenedConcat(a: seq<Token>, b: seq<Token>, open: seq<Token>)
    ensures Opened(a + b, open)
            == match Opened(a, open) case None => None case Some(after) => Opened(b, after)
  {
    if a == [] {
      assert a + b == b;
    } else {
      assert (a + b)[1..] == a[1..] + b;
      if a[0].Opens() {
        OpenedConcat(a[1..], b, open + [a[0]]);
      } else if a[0].Closes() {
        if open != [] && Pairs(open[|open| - 1], a[0]) {
          OpenedConcat(a[1..], b, open[..|open| - 1]);
        }
      } else {
        OpenedConcat(a[1..], b, open);
      }
    }
  }

  lemma {:induction false} BalancedOpens(s: seq<Token>, open: seq<Token>)
    requires Balanced(s)
    ensures Opened(s, open) == Some(open)
    decreases |s|
  {
    if s == [] {
    } else if !s[0].Bracket() {
      BalancedOpens(s[1..], open);
    } else {
      var k :| 0 < k < |s| && Splits(s, k);
      var inner := open + [s[0]];
      BalancedOpens(s[1..k], inner);
      BalancedOpens(s[k + 1..], open);
      assert s[1..] == s[1..k] + s[k..];
      OpenedConcat(s[1..k], s[k..], inner);
      assert s[k..][1..] == s[k + 1..] && inner[..|inner| - 1] == open;
    }
  }

  // A bracket's partner is the first that closes it.
  lemma CloseUnique(s: seq<Token>, j: nat)
    requires j < |s| && s[j].Closes() && Balanced(s[..j])
    ensures !Balanced(s)
  {
    BalancedOpens(s[..j], []);
    assert s == s[..j] + s[j..];
    OpenedConcat(s[..j], s[j..], []);
    if Balanced(s) {
      BalancedOpens(s, []);
    }
  }

  // The bracket at i has its partner.
  ghost predicate Paired(tokens: seq<Token>, partner: seq<int>, i: nat)
    requires |partner| == |tokens| && i < |tokens|
  {
    var j := partner[i];
    && 0 <= j < |tokens| && partner[j] == i
    && if tokens[i].Opens()
       then i < j && Pairs(tokens[i], tokens[j]) && Balanced(tokens[i + 1..j])
       else j < i && Pairs(tokens[j], tokens[i]) && Balanced(tokens[j + 1..i])
  }

  ghost predicate Partners(tokens: seq<Token>, partner: seq<int>) {
    && |partner| == |tokens|
    && forall i {:trigger Placed(tokens, partner, i)} :: 0 <= i < |tokens| ==> Placed(tokens, partner, i)
  }

  ghost predicate Placed(tokens: seq<Token>, partner: seq<int>, i: nat)
    requires |partner| == |tokens| && i < |tokens|
  {
    if tokens[i].Bracket() then Paired(tokens, partner, i) else partner[i] == -1
  }

  lemma {:induction false} OpenedFrame(s: seq<Token>, base: seq<Token>, open: seq<Token>)
    requires Opened(s, open).Some?
    ensures Opened(s, base + open) == Some(base + Opened(s, open).value)
    decreases |s|
  {
    if s == [] {
    } else if s[0].Opens() {
      assert base + open + [s[0]] == base + (open + [s[0]]);
      OpenedFrame(s[1..], base, open + [s[0]]);
    } else if s[0].Closes() {
      assert (base + open)[..|base + open| - 1] == base + open[..|open| - 1];
      OpenedFrame(s[1..], base, open[..|open| - 1]);
    } else {
      OpenedFrame(s[1..], base, open);
    }
  }

  // What follows an opening bracket of balanced tokens closes it.
  lemma OpenCloses(s: seq<Token>, k: nat)
    requires Balanced(s) && k < |s| && s[k].Opens()
    ensures Opened(s[k + 1..], []).None?
  {
    var rest := s[k + 1..];
    assert s == s[..k] + s[k..] && s[k..][1..] == rest;
    BalancedOpens(s, []);
    OpenedConcat(s[..k], s[k..], []);
    if Opened(rest, []).Some? {
      var before := Opened(s[..k], []).value + [s[k]];
      assert before + [] == before;
      OpenedFrame(rest, before, []);
    }
  }

  lemma PrefixOpens(s: seq<Token>, k: nat)
    requires Balanced(s) && k <= |s|
    ensures Opened(s[..k], []).Some?
  {
    BalancedOpens(s, []);
    assert s == s[..k] + s[k..];
    OpenedConcat(s[..k], s[k..], []);
  }

  // Balanced tokens that start within others end before them, after a bracket that both hold.
  lemma Uncrossed(tokens: seq<Token>, a: int, b: nat, c: nat, d: nat)
    requires -1 <= a < b < c <= |tokens| && b < d <= |tokens| && tokens[b].Opens()
    requires Balanced(tokens[a + 1..c]) && Balanced(tokens[b + 1..d])
    ensures d < c
  {
    assert tokens[a + 1..c][b - a..] == tokens[b + 1..c];
    OpenCloses(tokens[a + 1..c], b - a - 1);
    if c <= d {
      assert tokens[b + 1..d][..c - b - 1] == tokens[b + 1..c];
      PrefixOpens(tokens[b + 1..d], c - b - 1);
    }
  }

  // Brackets pair without crossing: what is between two partners has its partner there.
  lemma PartnersNest(tokens: seq<Token>, partner: seq<int>, i: nat, j: nat)
    requires Partners(tokens, partner) && i < |tokens| && tokens[i].Opens()
    requires i < j < partner[i] && j < |tokens| && tokens[j].Bracket()
    ensures i < partner[j] < partner[i]
  {
    assert Placed(tokens, partner, i) && Placed(tokens, partner, j);
    if tokens[j].Opens() {
      Uncrossed(tokens, i, j, partner[i], partner[j]);
    } else if partner[j] < i {
      Uncrossed(tokens, partner[j], i, j, partner[i]);
    }
  }

  // Balanced tokens between a bracket and one that closes make them partners.
  lemma PartnerIs(tokens: seq<Token>, partner: seq<int>, i: nat, j: nat)
    requires Partners(tokens, partner) && i < j < |tokens|
    requires tokens[i].Opens() && tokens[j].Closes() && Balanced(tokens[i + 1..j])
    ensures partner[i] == j
  {
    assert Placed(tokens, partner, i);
    CloseFirst(tokens, i + 1, j, partner[i]);
    CloseFirst(tokens, i + 1, partner[i], j);
  }

  lemma CloseFirst(tokens: seq<Token>, i: nat, j: nat, k: nat)
    requires i <= j < |tokens| && i <= k < |tokens| && tokens[k].Closes()
    requires Balanced(tokens[i..j]) && Balanced(tokens[i..k])
    ensures j <= k
  {
    if k < j {
      assert tokens[i..j][..k - i] == tokens[i..k];
      CloseUnique(tokens[i..j], k - i);
    }
  }

  datatype Matching = Matched(partner: seq<int>) | Unbalanced(at: nat) | Unclosed(at: nat)

  // Matches the tokens from i on, where stack holds the brackets that are open.
  function MatchFrom(tokens: seq<Token>, i: nat, stack: seq<nat>, partner: seq<int>): Matching
    requires i <= |tokens| == |partner| && forall k :: 0 <= k < |stack| ==> stack[k] < i
    decreases |tokens| - i
  {
    if i == |tokens| then
      if stack == [] then Matched(partner) else Unclosed(stack[|stack| - 1])
    else if tokens[i].Opens() then MatchFrom(tokens, i + 1, stack + [i], partner)
    else if tokens[i].Closes() then
      if stack == [] || !Pairs(tokens[stack[|stack| - 1]], tokens[i]) then Unbalanced(i)
      else
        var open := stack[|stack| - 1];
        MatchFrom(tokens, i + 1, stack[..|stack| - 1], partner[open := i][i := open])
    else MatchFrom(tokens, i + 1, stack, partner)
  }

  function Alone(size: nat): seq<int> {
    seq(size, _ => -1)
  }

  function Match(tokens: seq<Token>): Matching {
    MatchFrom(tokens, 0, [], Alone(|tokens|))
  }

  // The open brackets and the tokens up to i: between two of them, and after the last, the tokens are
  // balanced.
  ghost predicate Segmented(tokens: seq<Token>, i: nat, stack: seq<nat>)
    requires i <= |tokens|
    decreases |stack|
  {
    if stack == [] then Balanced(tokens[..i])
    else
      var last := stack[|stack| - 1];
      && last < i && tokens[last].Opens() && Balanced(tokens[last + 1..i])
      && Segmented(tokens, last, stack[..|stack| - 1])
  }

  // The tokens that the stack holds.
  function Held(tokens: seq<Token>, stack: seq<nat>): seq<Token>
    requires forall k :: 0 <= k < |stack| ==> stack[k] < |tokens|
  {
    seq(|stack|, k requires 0 <= k < |stack| => tokens[stack[k]])
  }

  lemma {:induction false} SegmentedOpens(tokens: seq<Token>, i: nat, stack: seq<nat>)
    requires i <= |tokens| && Segmented(tokens, i, stack)
    ensures forall k :: 0 <= k < |stack| ==> stack[k] < i
    ensures Opened(tokens[..i], []) == Some(Held(tokens, stack))
    decreases |stack|
  {
    if stack == [] {
      BalancedOpens(tokens[..i], []);
    } else {
      var last := stack[|stack| - 1];
      var rest := stack[..|stack| - 1];
      SegmentedOpens(tokens, last, rest);
      assert forall k :: 0 <= k < |rest| ==> stack[k] == rest[k] < last;
      assert tokens[..i] == tokens[..last] + tokens[last..i];
      OpenedConcat(tokens[..last], tokens[last..i], []);
      assert tokens[last..i][1..] == tokens[last + 1..i];
      assert Held(tokens, rest) + [tokens[last]] == Held(tokens, stack);
      BalancedOpens(tokens[last + 1..i], Held(tokens, stack));
    }
  }

  // Balanced tokens from i extend the last segment.
  lemma SegmentedMore(tokens: seq<Token>, i: nat, j: nat, stack: seq<nat>)
    requires i <= j <= |tokens| && Segmented(tokens, i, stack) && Balanced(tokens[i..j])
    ensures Segmented(tokens, j, stack)
  {
    var from := if stack == [] then 0 else stack[|stack| - 1] + 1;
    assert tokens[from..j] == tokens[from..i] + tokens[i..j];
    BalancedConcat(tokens[from..i], tokens[i..j]);
    if stack == [] {
      assert tokens[..j] == tokens[from..j] && tokens[..i] == tokens[from..i];
    }
  }

  lemma Ends(tokens: seq<Token>, i: nat, j: nat)
    requires i < j < |tokens|
    ensures tokens[i..j + 1] == [tokens[i]] + tokens[i + 1..j] + [tokens[j]]
  {
  }

  // A closing bracket ends the last segment, which joins the one before it.
  lemma SegmentedClose(tokens: seq<Token>, i: nat, stack: seq<nat>)
    requires i < |tokens| && stack != [] && Segmented(tokens, i, stack)
    requires Pairs(tokens[stack[|stack| - 1]], tokens[i])
    ensures Segmented(tokens, i + 1, stack[..|stack| - 1])
  {
    var last := stack[|stack| - 1];
    var body := tokens[last + 1..i];
    BalancedWrap(tokens[last], body, tokens[i]);
    Ends(tokens, last, i);
    SegmentedMore(tokens, last, i + 1, stack[..|stack| - 1]);
  }

  // The brackets before i that are not open have their partners.
  ghost predicate PairedUpTo(tokens: seq<Token>, i: nat, stack: seq<nat>, partner: seq<int>) {
    && i <= |tokens| == |partner|
    && (forall k :: 0 <= k < |stack| ==> stack[k] < i)
    && (forall j {:trigger PairedAt(tokens, i, stack, partner, j)} :: 0 <= j < |tokens| ==>
          PairedAt(tokens, i, stack, partner, j))
  }

  ghost predicate PairedAt(tokens: seq<Token>, i: nat, stack: seq<nat>, partner: seq<int>, j: nat)
    requires i <= |tokens| == |partner| && j < |tokens|
  {
    if j < i && tokens[j].Bracket() && j !in stack then Paired(tokens, partner, j) else partner[j] == -1
  }

  lemma PairedClose(tokens: seq<Token>, i: nat, stack: seq<nat>, partner: seq<int>)
    requires i < |tokens| && stack != [] && Segmented(tokens, i, stack)
    requires PairedUpTo(tokens, i, stack, partner)
    requires Pairs(tokens[stack[|stack| - 1]], tokens[i])
    requires stack[|stack| - 1] !in stack[..|stack| - 1]
    ensures PairedUpTo(tokens, i + 1, stack[..|stack| - 1],
                       partner[stack[|stack| - 1] := i][i := stack[|stack| - 1]])
  {
    var last, rest := stack[|stack| - 1], stack[..|stack| - 1];
    var after := partner[last := i][i := last];
    assert stack == rest + [last];
    assert PairedAt(tokens, i, stack, partner, last) && PairedAt(tokens, i, stack, partner, i);
    var next := i + 1;
    forall j | 0 <= j < |tokens| ensures PairedAt(tokens, next, rest, after, j) {
      assert PairedAt(tokens, i, stack, partner, j);
      if j == i || j == last {
        assert Balanced(tokens[last + 1..i]);
      }
    }
  }

  // What a matching means: partners of balanced tokens, a bracket that no continuation saves, or the
  // innermost one that nothing closes.
  ghost predicate Means(tokens: seq<Token>, matching: Matching) {
    match matching
    case Matched(partner) => Balanced(tokens) && Partners(tokens, partner)
    case Unbalanced(at) =>
      && at < |tokens| && tokens[at].Closes() && Opened(tokens[..at], []).Some?
      && Opened(tokens[..at + 1], []).None?
    case Unclosed(at) =>
      at < |tokens| && tokens[at].Opens() && Balanced(tokens[at + 1..]) && Opened(tokens, []).Some?
  }

  // The same, with a quantifier that keeps proofs from looking into it.
  ghost predicate Meant(tokens: seq<Token>, matching: Matching) {
    forall m {:trigger Means(tokens, m)} :: m == matching ==> Means(tokens, m)
  }

  // The state of the matching at i, which proofs look into only where they name it.
  ghost predicate Going(tokens: seq<Token>, i: nat, stack: seq<nat>, partner: seq<int>) {
    && i <= |tokens| == |partner| && (forall k :: 0 <= k < |stack| ==> stack[k] < i)
    && forall n {:trigger State(tokens, n, stack, partner)} :: n == i ==> State(tokens, n, stack, partner)
  }

  ghost predicate State(tokens: seq<Token>, i: nat, stack: seq<nat>, partner: seq<int>) {
    i <= |tokens| && PairedUpTo(tokens, i, stack, partner) && Segmented(tokens, i, stack)
  }

  lemma GoingMeans(tokens: seq<Token>, i: nat, stack: seq<nat>, partner: seq<int>)
    requires i <= |tokens|
    ensures Going(tokens, i, stack, partner) <==>
              PairedUpTo(tokens, i, stack, partner) && Segmented(tokens, i, stack)
  {
    assert State(tokens, i, stack, partner) <==> PairedUpTo(tokens, i, stack, partner) && Segmented(tokens, i, stack);
  }

  lemma OpenStep(tokens: seq<Token>, i: nat, stack: seq<nat>, partner: seq<int>)
    requires i < |tokens| && Going(tokens, i, stack, partner)
    requires tokens[i].Opens()
    ensures Going(tokens, i + 1, stack + [i], partner)
  {
    GoingMeans(tokens, i, stack, partner);
    var next, more := i + 1, stack + [i];
    forall j | 0 <= j < |tokens| ensures PairedAt(tokens, next, more, partner, j) {
      assert PairedAt(tokens, i, stack, partner, j);
    }
    assert more[..|more| - 1] == stack && tokens[i + 1..next] == [];
    GoingMeans(tokens, next, more, partner);
  }

  lemma OtherStep(tokens: seq<Token>, i: nat, stack: seq<nat>, partner: seq<int>)
    requires i < |tokens| && Going(tokens, i, stack, partner)
    requires !tokens[i].Bracket()
    ensures Going(tokens, i + 1, stack, partner)
  {
    GoingMeans(tokens, i, stack, partner);
    var next := i + 1;
    forall j | 0 <= j < |tokens| ensures PairedAt(tokens, next, stack, partner, j) {
      assert PairedAt(tokens, i, stack, partner, j);
    }
    BalancedOne(tokens[i]);
    assert tokens[i..i + 1] == [tokens[i]];
    SegmentedMore(tokens, i, i + 1, stack);
  }

  lemma CloseStep(tokens: seq<Token>, i: nat, stack: seq<nat>, partner: seq<int>)
    requires i < |tokens| && Going(tokens, i, stack, partner)
    requires stack != [] && Pairs(tokens[stack[|stack| - 1]], tokens[i])
    ensures var open, rest := stack[|stack| - 1], stack[..|stack| - 1];
            Going(tokens, i + 1, rest, partner[open := i][i := open])
  {
    GoingMeans(tokens, i, stack, partner);
    SegmentedOpens(tokens, stack[|stack| - 1], stack[..|stack| - 1]);
    PairedClose(tokens, i, stack, partner);
    SegmentedClose(tokens, i, stack);
  }

  lemma EndMatched(tokens: seq<Token>, partner: seq<int>)
    requires Going(tokens, |tokens|, [], partner)
    ensures Meant(tokens, Matched(partner))
  {
    GoingMeans(tokens, |tokens|, [], partner);
    assert tokens[..|tokens|] == tokens;
    forall j | 0 <= j < |tokens| ensures Placed(tokens, partner, j) {
      assert PairedAt(tokens, |tokens|, [], partner, j);
    }
  }

  lemma EndUnclosed(tokens: seq<Token>, stack: seq<nat>, partner: seq<int>)
    requires stack != [] && Going(tokens, |tokens|, stack, partner)
    ensures Meant(tokens, Unclosed(stack[|stack| - 1]))
  {
    GoingMeans(tokens, |tokens|, stack, partner);
    SegmentedOpens(tokens, |tokens|, stack);
    assert tokens[..|tokens|] == tokens;
    var at := stack[|stack| - 1];
    assert tokens[at + 1..|tokens|] == tokens[at + 1..];
  }

  lemma {:induction false} MatchFromMeans(tokens: seq<Token>, i: nat, stack: seq<nat>, partner: seq<int>)
    requires Going(tokens, i, stack, partner)
    ensures Meant(tokens, MatchFrom(tokens, i, stack, partner))
    decreases |tokens| - i
  {
    if i == |tokens| {
      if stack == [] {
        EndMatched(tokens, partner);
      } else {
        EndUnclosed(tokens, stack, partner);
      }
    } else if tokens[i].Opens() {
      OpenStep(tokens, i, stack, partner);
      MatchFromMeans(tokens, i + 1, stack + [i], partner);
    } else if tokens[i].Closes() {
      if stack == [] || !Pairs(tokens[stack[|stack| - 1]], tokens[i]) {
        UnbalancedAt(tokens, i, stack, partner);
      } else {
        CloseStep(tokens, i, stack, partner);
        var open := stack[|stack| - 1];
        MatchFromMeans(tokens, i + 1, stack[..|stack| - 1], partner[open := i][i := open]);
      }
    } else {
      OtherStep(tokens, i, stack, partner);
      MatchFromMeans(tokens, i + 1, stack, partner);
    }
  }

  lemma UnbalancedAt(tokens: seq<Token>, i: nat, stack: seq<nat>, partner: seq<int>)
    requires i < |tokens| && Going(tokens, i, stack, partner) && tokens[i].Closes()
    requires stack == [] || (stack[|stack| - 1] < i && !Pairs(tokens[stack[|stack| - 1]], tokens[i]))
    ensures Meant(tokens, Unbalanced(i))
  {
    GoingMeans(tokens, i, stack, partner);
    SegmentedOpens(tokens, i, stack);
    assert tokens[..i + 1] == tokens[..i] + [tokens[i]];
    OpenedConcat(tokens[..i], [tokens[i]], []);
  }

  // Matching succeeds exactly on balanced tokens, and gives each bracket its partner. It fails where
  // the tokens so far can still be balanced and no longer can, or at an unclosed bracket.
  lemma MatchMeans(tokens: seq<Token>)
    ensures Means(tokens, Match(tokens))
    ensures Match(tokens).Matched? <==> Balanced(tokens)
    ensures Match(tokens).Unbalanced? ==> Hopeless(tokens[..Match(tokens).at + 1])
  {
    assert tokens[..0] == [];
    GoingMeans(tokens, 0, [], Alone(|tokens|));
    MatchFromMeans(tokens, 0, [], Alone(|tokens|));
    assert Means(tokens, Match(tokens));
    if Match(tokens).Unclosed? {
      var at := Match(tokens).at;
      if Balanced(tokens) {
        OpenCloses(tokens, at);
        BalancedOpens(tokens[at + 1..], []);
      }
    }
    if Match(tokens).Unbalanced? {
      var dead := tokens[..Match(tokens).at + 1];
      forall rest ensures !Completes(dead, rest) {
        DeadEnd(dead, rest);
      }
      assert tokens == dead + tokens[Match(tokens).at + 1..];
      assert !Completes(dead, tokens[Match(tokens).at + 1..]);
    }
  }

  ghost predicate Completes(start: seq<Token>, rest: seq<Token>) {
    Balanced(start + rest)
  }

  ghost predicate Hopeless(start: seq<Token>) {
    forall rest :: !Completes(start, rest)
  }

  lemma DeadEnd(dead: seq<Token>, rest: seq<Token>)
    requires Opened(dead, []).None?
    ensures !Completes(dead, rest)
  {
    OpenedConcat(dead, rest, []);
    if Balanced(dead + rest) {
      BalancedOpens(dead + rest, []);
    }
  }

  method MatchBrackets(tokens: seq<Token>) returns (matching: Matching)
    ensures matching == Match(tokens)
  {
    var partner := Alone(|tokens|);
    var stack: seq<nat> := [];
    for index := 0 to |tokens|
      invariant |partner| == |tokens|
      invariant forall k :: 0 <= k < |stack| ==> stack[k] < index && tokens[stack[k]].Opens()
      invariant MatchFrom(tokens, index, stack, partner) == Match(tokens)
    {
      var token := tokens[index];
      if token.kind != Punct {
        continue;
      }
      if token.text in ["(", "[", "{"] {
        stack := stack + [index];
      } else if token.text in [")", "]", "}"] {
        if stack == [] || tokens[stack[|stack| - 1]].text != Opener(token.text) {
          return Unbalanced(index);
        }
        var opener := stack[|stack| - 1];
        stack := stack[..|stack| - 1];
        partner := partner[opener := index][index := opener];
      }
    }
    if stack != [] {
      return Unclosed(stack[|stack| - 1]);
    }
    return Matched(partner);
  }
}
