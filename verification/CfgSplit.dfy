/** What splitting tokens at commas gives: the nonempty stretches between the commas outside brackets. */
module CfgSplit {
  import opened Brackets
  import opened Cfgs

  // No bracket from start on is open at i.
  ghost predicate Outside(tokens: seq<Token>, partner: seq<int>, start: nat, i: nat)
    requires Partners(tokens, partner)
  {
    forall k :: start <= k < i && k < |tokens| && tokens[k].Opens() ==> partner[k] <= i
  }

  ghost predicate TopComma(tokens: seq<Token>, partner: seq<int>, start: nat, i: nat)
    requires Partners(tokens, partner)
  {
    i < |tokens| && tokens[i] == COMMA && Outside(tokens, partner, start, i)
  }

  // The token at i is in one of the pieces.
  ghost predicate Covered(pieces: seq<(nat, nat)>, i: nat) {
    exists k :: 0 <= k < |pieces| && pieces[k].0 <= i < pieces[k].1
  }

  // Pieces are nonempty, in order, and apart.
  ghost predicate Ordered(pieces: seq<(nat, nat)>) {
    && (forall k :: 0 <= k < |pieces| ==> pieces[k].0 < pieces[k].1)
    && (forall j, k :: 0 <= j < k < |pieces| ==> pieces[j].1 < pieces[k].0)
  }

  // After a bracket's partner, its brackets are closed; before it, no comma is outside.
  lemma JumpOutside(tokens: seq<Token>, partner: seq<int>, start: nat, index: nat)
    requires Partners(tokens, partner) && start <= index < |tokens| && tokens[index].Opens()
    requires Outside(tokens, partner, start, index)
    ensures index < partner[index] < |tokens|
    ensures Outside(tokens, partner, start, partner[index] + 1)
    ensures forall i :: index <= i < partner[index] + 1 ==> !TopComma(tokens, partner, start, i)
  {
    var next := partner[index] + 1;
    assert Placed(tokens, partner, index);
    assert !COMMA.Bracket();
    forall k | start <= k < next && tokens[k].Opens() ensures partner[k] <= next {
      if index < k < partner[index] {
        PartnersNest(tokens, partner, index, k);
      }
    }
  }

  lemma {:induction false} SplitCovers(
      tokens: seq<Token>, partner: seq<int>, start: nat, piece: nat, index: nat, end: nat)
    requires Partners(tokens, partner) && start <= piece <= index && piece <= end <= |tokens|
    requires Outside(tokens, partner, start, index)
    requires forall i :: piece <= i < index ==> !TopComma(tokens, partner, start, i)
    ensures Cover(tokens, partner, start, piece, end, SplitFrom(tokens, partner, piece, index, end))
    decreases if index < end then end - index else 0
  {
    if index >= end {
      LastCovers(tokens, partner, start, piece, index, end);
    } else if tokens[index].Opens() {
      JumpOutside(tokens, partner, start, index);
      var next := partner[index] + 1;
      assert SplitFrom(tokens, partner, piece, index, end) == SplitFrom(tokens, partner, piece, next, end);
      SplitCovers(tokens, partner, start, piece, next, end);
    } else if tokens[index] == COMMA {
      SplitCovers(tokens, partner, start, index + 1, index + 1, end);
      var rest := SplitFrom(tokens, partner, index + 1, index + 1, end);
      CommaJoins(tokens, partner, start, piece, index, end, rest);
    } else {
      SplitCovers(tokens, partner, start, piece, index + 1, end);
    }
  }

  // The pieces are in order, and hold the tokens that are no commas outside brackets.
  ghost predicate Cover(
      tokens: seq<Token>, partner: seq<int>, start: nat, piece: nat, end: nat, pieces: seq<(nat, nat)>)
    requires Partners(tokens, partner)
  {
    Ordered(pieces)
    && forall i :: piece <= i < end ==> (Covered(pieces, i) <==> !TopComma(tokens, partner, start, i))
  }

  lemma LastCovers(tokens: seq<Token>, partner: seq<int>, start: nat, piece: nat, index: nat, end: nat)
    requires Partners(tokens, partner) && start <= piece <= index && piece <= end <= |tokens| && index >= end
    requires forall i :: piece <= i < index ==> !TopComma(tokens, partner, start, i)
    ensures Cover(tokens, partner, start, piece, end, SplitFrom(tokens, partner, piece, index, end))
  {
    var pieces := SplitFrom(tokens, partner, piece, index, end);
    if piece < end {
      assert pieces[0] == (piece, end);
    }
  }

  lemma CommaJoins(tokens: seq<Token>, partner: seq<int>, start: nat, piece: nat, index: nat, end: nat, rest: seq<(nat, nat)>)
    requires Partners(tokens, partner) && start <= piece <= index < end <= |tokens| && tokens[index] == COMMA
    requires Outside(tokens, partner, start, index)
    requires forall i :: piece <= i < index ==> !TopComma(tokens, partner, start, i)
    requires rest == SplitFrom(tokens, partner, index + 1, index + 1, end)
    requires Cover(tokens, partner, start, index + 1, end, rest)
    ensures Cover(tokens, partner, start, piece, end, SplitFrom(tokens, partner, piece, index, end))
  {
    var pieces := SplitFrom(tokens, partner, piece, index, end);
    assert !COMMA.Opens();
    assert pieces == (if piece < index then [(piece, index)] else []) + rest;
    CommaCovers(pieces, rest, piece, index, end);
    assert TopComma(tokens, partner, start, index);
  }

  lemma CommaCovers(pieces: seq<(nat, nat)>, rest: seq<(nat, nat)>, piece: nat, index: nat, end: nat)
    requires piece <= index < end
    requires pieces == (if piece < index then [(piece, index)] else []) + rest
    requires forall k :: 0 <= k < |rest| ==> index + 1 <= rest[k].0
    requires Ordered(rest)
    ensures Ordered(pieces)
    ensures forall i :: piece <= i < index ==> Covered(pieces, i)
    ensures !Covered(pieces, index)
    ensures forall i :: index < i < end ==> (Covered(pieces, i) <==> Covered(rest, i))
  {
    forall i | piece <= i < index ensures Covered(pieces, i) {
      assert pieces[0] == (piece, index);
    }
    forall i | index < i < end ensures Covered(pieces, i) <==> Covered(rest, i) {
      var offset := |pieces| - |rest|;
      if Covered(rest, i) {
        var k :| 0 <= k < |rest| && rest[k].0 <= i < rest[k].1;
        assert pieces[k + offset] == rest[k];
      }
      if Covered(pieces, i) {
        var k :| 0 <= k < |pieces| && pieces[k].0 <= i < pieces[k].1;
        assert k >= offset && rest[k - offset] == pieces[k];
      }
    }
  }

  // The pieces hold exactly the tokens that are no commas outside brackets.
  lemma SplitMeans(tokens: seq<Token>, partner: seq<int>, start: nat, end: nat)
    requires Partners(tokens, partner) && start <= end <= |tokens|
    ensures Ordered(Split(tokens, partner, start, end))
    ensures forall i :: start <= i < end ==>
              (Covered(Split(tokens, partner, start, end), i) <==> !TopComma(tokens, partner, start, i))
  {
    SplitCovers(tokens, partner, start, start, start, end);
  }

  function Nonempty(pieces: seq<(nat, nat)>): seq<(nat, nat)> {
    if pieces == [] then []
    else (if pieces[0].0 < pieces[0].1 then [pieces[0]] else []) + Nonempty(pieces[1..])
  }

  lemma {:induction false} NonemptyConcat(a: seq<(nat, nat)>, b: seq<(nat, nat)>)
    ensures Nonempty(a + b) == Nonempty(a) + Nonempty(b)
  {
    if a == [] {
      assert a + b == b;
    } else {
      assert (a + b)[1..] == a[1..] + b;
      NonemptyConcat(a[1..], b);
    }
  }

  lemma NonemptyMore(pieces: seq<(nat, nat)>, piece: (nat, nat))
    ensures Nonempty(pieces + [piece])
            == Nonempty(pieces) + if piece.0 < piece.1 then [piece] else []
  {
    NonemptyConcat(pieces, [piece]);
    assert [piece][1..] == [];
  }

  // What is to come of the pieces so far and of the rest of the range.
  ghost predicate Left(goal: seq<(nat, nat)>, pieces: seq<(nat, nat)>, rest: seq<(nat, nat)>) {
    goal == Nonempty(pieces) + rest
  }

  // The loop aims at the split. The quantifier keeps proofs from looking into the rest of it.
  ghost predicate Aims(tokens: seq<Token>, partner: seq<int>, goal: seq<(nat, nat)>, pieces: seq<(nat, nat)>,
                       piece: nat, index: nat, end: nat)
    requires Partners(tokens, partner)
  {
    && piece <= index && piece <= end <= |tokens|
    && forall rest {:trigger Left(goal, pieces, rest)} ::
         rest == SplitFrom(tokens, partner, piece, index, end) ==> Left(goal, pieces, rest)
  }

  lemma CommaStep(tokens: seq<Token>, partner: seq<int>, goal: seq<(nat, nat)>, pieces: seq<(nat, nat)>,
                  piece: nat, index: nat, end: nat)
    requires Partners(tokens, partner) && Aims(tokens, partner, goal, pieces, piece, index, end)
    requires index < end && tokens[index] == COMMA
    ensures Aims(tokens, partner, goal, pieces + [(piece, index)], index + 1, index + 1, end)
  {
    NonemptyMore(pieces, (piece, index));
    var last := if piece < index then [(piece, index)] else [];
    var rest := SplitFrom(tokens, partner, index + 1, index + 1, end);
    assert !COMMA.Opens();
    assert Left(goal, pieces, SplitFrom(tokens, partner, piece, index, end));
    assert SplitFrom(tokens, partner, piece, index, end) == last + rest;
    Associate(Nonempty(pieces), last, rest);
  }

  lemma Associate(a: seq<(nat, nat)>, b: seq<(nat, nat)>, c: seq<(nat, nat)>)
    ensures a + (b + c) == a + b + c
  {
  }

  lemma JumpStep(tokens: seq<Token>, partner: seq<int>, goal: seq<(nat, nat)>, pieces: seq<(nat, nat)>,
                 piece: nat, index: nat, end: nat)
    requires Partners(tokens, partner) && Aims(tokens, partner, goal, pieces, piece, index, end)
    requires index < end && tokens[index].Opens()
    ensures index < partner[index] && Aims(tokens, partner, goal, pieces, piece, partner[index] + 1, end)
  {
    assert Placed(tokens, partner, index);
    assert SplitFrom(tokens, partner, piece, index, end) == SplitFrom(tokens, partner, piece, partner[index] + 1, end);
    assert Left(goal, pieces, SplitFrom(tokens, partner, piece, index, end));
  }

  lemma PassStep(tokens: seq<Token>, partner: seq<int>, goal: seq<(nat, nat)>, pieces: seq<(nat, nat)>,
                 piece: nat, index: nat, end: nat)
    requires Partners(tokens, partner) && Aims(tokens, partner, goal, pieces, piece, index, end)
    requires index < end && !tokens[index].Opens() && tokens[index] != COMMA
    ensures Aims(tokens, partner, goal, pieces, piece, index + 1, end)
  {
    SkipPlain(tokens, partner, piece, index, end);
    assert Left(goal, pieces, SplitFrom(tokens, partner, piece, index, end));
  }

  lemma LastStep(tokens: seq<Token>, partner: seq<int>, goal: seq<(nat, nat)>, pieces: seq<(nat, nat)>,
                 piece: nat, index: nat, end: nat)
    requires Partners(tokens, partner) && Aims(tokens, partner, goal, pieces, piece, index, end) && end <= index
    ensures goal == Nonempty(pieces + [(piece, end)])
  {
    NonemptyMore(pieces, (piece, end));
    assert Left(goal, pieces, SplitFrom(tokens, partner, piece, index, end));
  }

  method SplitCommas(tokens: seq<Token>, partner: seq<int>, start: nat, end: nat)
      returns (pieces: seq<(nat, nat)>)
    requires Partners(tokens, partner) && start <= end <= |tokens|
    ensures pieces == Split(tokens, partner, start, end)
  {
    pieces := [];
    var piece: nat, index: nat := start, start;
    ghost var goal := Split(tokens, partner, start, end);
    while index < end
      invariant Aims(tokens, partner, goal, pieces, piece, index, end)
    {
      var token := tokens[index];
      if token.kind == Punct {
        if token.text in ["(", "[", "{"] {
          JumpStep(tokens, partner, goal, pieces, piece, index, end);
          index := partner[index] + 1;
          continue;
        }
        if token.text == "," {
          CommaStep(tokens, partner, goal, pieces, piece, index, end);
          pieces := pieces + [(piece, index)];
          piece, index := index + 1, index + 1;
          continue;
        }
      }
      PassStep(tokens, partner, goal, pieces, piece, index, end);
      index := index + 1;
    }
    LastStep(tokens, partner, goal, pieces, piece, index, end);
    pieces := Nonempty(pieces + [(piece, end)]);
  }

  // Every bracket from an offset on closes before an end.
  ghost predicate Within(tokens: seq<Token>, partner: seq<int>, index: nat, end: nat)
    requires |partner| == |tokens| && end <= |tokens|
  {
    forall i :: index <= i < end && tokens[i].Opens() ==> partner[i] < end
  }

  // A last comma changes nothing.
  lemma {:induction false} TrailingFrom(tokens: seq<Token>, partner: seq<int>, piece: nat, index: nat, end: nat)
    requires Partners(tokens, partner) && piece <= index <= end < |tokens| && tokens[end] == COMMA
    requires Within(tokens, partner, index, end)
    ensures SplitFrom(tokens, partner, piece, index, end + 1) == SplitFrom(tokens, partner, piece, index, end)
    decreases end - index
  {
    if index == end {
      TrailingEnd(tokens, partner, piece, end);
    } else if tokens[index].Opens() {
      assert Placed(tokens, partner, index);
      TrailingFrom(tokens, partner, piece, partner[index] + 1, end);
    } else if tokens[index] == COMMA {
      TrailingFrom(tokens, partner, index + 1, index + 1, end);
    } else {
      TrailingFrom(tokens, partner, piece, index + 1, end);
    }
  }

  lemma TrailingEnd(tokens: seq<Token>, partner: seq<int>, piece: nat, end: nat)
    requires Partners(tokens, partner) && piece <= end < |tokens| && tokens[end] == COMMA
    ensures SplitFrom(tokens, partner, piece, end, end + 1) == SplitFrom(tokens, partner, piece, end, end)
  {
    assert SplitFrom(tokens, partner, end + 1, end + 1, end + 1) == [];
  }

  // Brackets in others close before what follows them there.
  lemma InnerWithin(tokens: seq<Token>, partner: seq<int>, open: nat, end: nat)
    requires Partners(tokens, partner) && open < end < |tokens| && tokens[open].Opens() && partner[open] == end + 1
    requires !tokens[end].Bracket()
    ensures Within(tokens, partner, open + 1, end)
  {
    assert Placed(tokens, partner, open);
    forall i | open + 1 <= i < end && tokens[i].Opens() ensures partner[i] < end {
      assert Placed(tokens, partner, i);
      PartnersNest(tokens, partner, open, i);
    }
  }

  // So all(test, unix,) parses as all(test, unix): the operands of a group are those without its last comma.
  lemma TrailingComma(tokens: seq<Token>, partner: seq<int>, start: nat, end: nat)
    requires Partners(tokens, partner) && start + 3 < end <= |tokens|
    requires tokens[start].kind == Ident && Operation(Unraw(tokens[start].text)).Some?
    requires tokens[start + 1] == Mark("(") && partner[start + 1] == end - 1 && tokens[end - 2] == COMMA
    ensures var cfg, pieces := Parse(tokens, partner, start, end), Split(tokens, partner, start + 2, end - 2);
      && cfg.Group? && |cfg.operands| == |pieces|
      && forall k :: 0 <= k < |pieces| ==> cfg.operands[k] == Parse(tokens, partner, pieces[k].0, pieces[k].1)
  {
    InnerWithin(tokens, partner, start + 1, end - 2);
    TrailingFrom(tokens, partner, start + 2, start + 2, end - 2);
    GroupParses(tokens, partner, start, end, Split(tokens, partner, start + 2, end - 1));
  }

  lemma GroupParses(tokens: seq<Token>, partner: seq<int>, start: nat, end: nat, pieces: seq<(nat, nat)>)
    requires Partners(tokens, partner) && start + 2 < end <= |tokens|
    requires tokens[start].kind == Ident && Operation(Unraw(tokens[start].text)).Some?
    requires tokens[start + 1] == Mark("(") && partner[start + 1] == end - 1
    requires pieces == Split(tokens, partner, start + 2, end - 1)
    ensures var cfg := Parse(tokens, partner, start, end);
      && cfg.Group? && |cfg.operands| == |pieces|
      && forall k :: 0 <= k < |pieces| ==> cfg.operands[k] == Parse(tokens, partner, pieces[k].0, pieces[k].1)
  {
  }

  // A token mentions `test`.
  predicate MentionsAt(tokens: seq<Token>, i: nat)
    requires i < |tokens|
  {
    && tokens[i].kind == Ident && Unraw(tokens[i].text) == "test"
    && !Is(tokens, if i == 0 then |tokens| - 1 else i - 1, Punct, "$") && !Is(tokens, i + 1, Punct, "=")
  }

  ghost predicate AnyMention(tokens: seq<Token>, start: nat, end: nat)
    requires start <= end <= |tokens|
  {
    exists i :: start <= i < end && MentionsAt(tokens, i)
  }

  // What does not parse has words exactly if one of its tokens does.
  lemma {:induction false} MentionsMeans(tokens: seq<Token>, start: nat, end: nat)
    requires start <= end <= |tokens|
    ensures Mentions(tokens, start, end) != [] <==> AnyMention(tokens, start, end)
    decreases end - start
  {
    if start < end {
      MentionsMeans(tokens, start + 1, end);
      MentionsStep(tokens, start, end);
      AnyStep(tokens, start, end);
    } else {
      MentionsNone(tokens, start);
    }
  }

  lemma MentionsNone(tokens: seq<Token>, start: nat)
    requires start <= |tokens|
    ensures Mentions(tokens, start, start) == [] && !AnyMention(tokens, start, start)
  {
  }

  lemma AnyStep(tokens: seq<Token>, start: nat, end: nat)
    requires start < end <= |tokens|
    ensures AnyMention(tokens, start, end) <==> MentionsAt(tokens, start) || AnyMention(tokens, start + 1, end)
  {
  }

  lemma MentionsStep(tokens: seq<Token>, start: nat, end: nat)
    requires start < end <= |tokens|
    ensures Mentions(tokens, start, end) != [] <==> MentionsAt(tokens, start) || Mentions(tokens, start + 1, end) != []
  {
  }
}
