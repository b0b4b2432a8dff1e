/** The laws of emphasis over every list of runs, over rendered content with links, and for the
    matching that updates the runs in place. */
module EmphasisLaws {
  import opened Options
  import opened Tags
  import opened Emphasis
  import opened EmphasisNesting
  import opened EmphasisMatches
  import opened EmphasisSearch

  ghost predicate AllFresh(runs: seq<Delimiter>) {
    forall i :: 0 <= i < |runs| ==> runs[i].Fresh()
  }

  function Indices(size: nat): seq<nat> {
    seq(size, i => i)
  }

  function Initial(runs: seq<Delimiter>): State {
    State(runs, Indices(|runs|), map[], 0, [])
  }

  function Matched(runs: seq<Delimiter>): State
    requires AllFresh(runs)
  {
    Run(Initial(runs))
  }

  ghost predicate Originals(runs: seq<Delimiter>, originals: seq<Delimiter>) {
    |runs| == |originals| && forall i :: 0 <= i < |runs| ==> runs[i].Original() == originals[i]
  }

  // What every turn of the loop keeps.
  ghost predicate Invariant(s: State, originals: seq<Delimiter>, gaps: seq<seq<Token>>) {
    && Shape(s) && Orderly(s) && Searched(s)
    && Originals(s.runs, originals)
    && |gaps| == |s.runs| + 1 && StateNests(gaps, s)
  }

  lemma StepOriginals(s: State, originals: seq<Delimiter>)
    requires Shape(s) && s.current < |s.stack| && Originals(s.runs, originals)
    ensures Originals(Step(s).runs, originals)
  {
    var m, used := StepOutcome(s);
  }

  lemma StepInvariant(s: State, originals: seq<Delimiter>, gaps: seq<seq<Token>>)
    requires Invariant(s, originals, gaps) && s.current < |s.stack|
    ensures Invariant(Step(s), originals, gaps)
  {
    StepProgress(s);
    StepOrderly(s);
    StepSearched(s);
    StepNests(gaps, s);
    StepOriginals(s, originals);
  }

  lemma {:induction false} RunInvariant(s: State, originals: seq<Delimiter>, gaps: seq<seq<Token>>)
    requires Invariant(s, originals, gaps)
    ensures Invariant(Run(s), originals, gaps)
    ensures Run(s).current == |Run(s).stack|
    decreases Unused(s.runs) + |s.stack|, |s.stack| - s.current
  {
    if s.current < |s.stack| {
      StepProgress(s);
      StepInvariant(s, originals, gaps);
      RunInvariant(Step(s), originals, gaps);
    }
  }

  lemma InitialNests(runs: seq<Delimiter>, gaps: seq<seq<Token>>)
    requires AllFresh(runs) && |gaps| == |runs| + 1
    requires forall i :: 0 <= i < |gaps| ==> Nested(gaps[i])
    ensures Nests(gaps, runs, Indices(|runs|))
  {
    var stack := Indices(|runs|);
    forall k | 0 <= k <= |stack| ensures NestsAt(gaps, runs, stack, k) {
      assert Segment(gaps, runs, k - 1, k) == gaps[k];
    }
  }

  lemma MatchedInvariant(runs: seq<Delimiter>, gaps: seq<seq<Token>>)
    requires AllFresh(runs) && |gaps| == |runs| + 1
    requires forall i :: 0 <= i < |gaps| ==> Nested(gaps[i])
    ensures Invariant(Matched(runs), runs, gaps)
    ensures Matched(runs).current == |Matched(runs).stack|
  {
    InitialInvariant(runs, gaps);
    RunInvariant(Initial(runs), runs, gaps);
  }

  // The runs of any content render tags that nest, around whatever nests between them.
  lemma MatchedNests(runs: seq<Delimiter>, gaps: seq<seq<Token>>)
    requires AllFresh(runs) && |gaps| == |runs| + 1
    requires forall i :: 0 <= i < |gaps| ==> Nested(gaps[i])
    ensures |Matched(runs).runs| == |runs|
    ensures Nested(Between(gaps, Matched(runs).runs, 0, |runs|))
  {
    MatchedInvariant(runs, gaps);
    AllNests(gaps, Matched(runs));
  }

  lemma AllNests(gaps: seq<seq<Token>>, s: State)
    requires |gaps| == |s.runs| + 1 && Shape(s) && StateNests(gaps, s)
    ensures Nested(Between(gaps, s.runs, 0, |s.runs|))
  {
    NestsAcross(gaps, s.runs, s.stack, 0, |s.stack| + 1, -1, |s.runs|);
    assert Segment(gaps, s.runs, -1, |s.runs|) == Between(gaps, s.runs, 0, |s.runs|);
  }

  function NoGaps(size: nat): seq<seq<Token>> {
    seq(size + 1, _ => [])
  }

  // Matching keeps the runs and uses each of their characters at most once.
  lemma MatchedConserves(runs: seq<Delimiter>)
    requires AllFresh(runs)
    ensures Originals(Matched(runs).runs, runs)
    ensures forall i :: 0 <= i < |runs| ==> Conserved(Matched(runs).runs[i])
  {
    MatchedInvariant(runs, NoGaps(|runs|));
  }

  // The tags of the runs are those of matches that the rules allow, of which no two cross, and of
  // which two runs make all but the last with two characters.
  lemma MatchedByTheRules(runs: seq<Delimiter>)
    requires AllFresh(runs)
    ensures var s := Matched(runs);
      && Recorded(s.runs, s.matches)
      && (forall m :: m in s.matches ==> LegalMatch(runs, m))
      && (forall a, b :: 0 <= a < b < |s.matches| ==>
            Uncrossed(s.matches[a], s.matches[b]) && Greedy(s.matches[a], s.matches[b]))
  {
    MatchedInvariant(runs, NoGaps(|runs|));
    var s := Matched(runs);
    forall m | m in s.matches ensures LegalMatch(runs, m) {
      assert LegalMatch(s.runs, m);
      assert s.runs[m.opener].Original() == runs[m.opener];
      assert s.runs[m.closer].Original() == runs[m.closer];
    }
  }

  // No match is left among the runs that stay on the stack.
  lemma MatchedExhausts(runs: seq<Delimiter>, i: nat, p: nat)
    requires AllFresh(runs) && i < p < |Matched(runs).stack|
    ensures var stack := Matched(runs).stack;
      && stack[i] < stack[p] < |runs|
      && !(runs[stack[p]].closes && Legal(runs[stack[i]], runs[stack[p]]))
  {
    MatchedInvariant(runs, NoGaps(|runs|));
    var s := Matched(runs);
    assert s.runs[s.stack[i]].Original() == runs[s.stack[i]];
    assert s.runs[s.stack[p]].Original() == runs[s.stack[p]];
  }

  // The states of the loop up to some turn, from the runs as they are scanned.
  ghost predicate Trace(runs: seq<Delimiter>, states: seq<State>) {
    && states != [] && states[0] == Initial(runs)
    && forall k {:trigger Turn(states, k)} :: 0 <= k < |states| - 1 ==> Turn(states, k)
  }

  ghost predicate Turn(states: seq<State>, k: nat) {
    && k + 1 < |states| && Shape(states[k]) && states[k].current < |states[k].stack|
    && states[k + 1] == Step(states[k])
  }

  lemma {:induction false} TraceInvariant(runs: seq<Delimiter>, gaps: seq<seq<Token>>, states: seq<State>)
    requires AllFresh(runs) && |gaps| == |runs| + 1
    requires forall i :: 0 <= i < |gaps| ==> Nested(gaps[i])
    requires Trace(runs, states)
    ensures Invariant(states[|states| - 1], runs, gaps)
    decreases |states|
  {
    var last := |states| - 1;
    if last == 0 {
      InitialInvariant(runs, gaps);
    } else {
      TracePrefix(runs, states);
      TraceInvariant(runs, gaps, states[..last]);
      assert Turn(states, last - 1);
      StepInvariant(states[last - 1], runs, gaps);
    }
  }

  lemma TracePrefix(runs: seq<Delimiter>, states: seq<State>)
    requires Trace(runs, states) && |states| > 1
    ensures Trace(runs, states[..|states| - 1])
  {
    var before := states[..|states| - 1];
    forall k | 0 <= k < |before| - 1 ensures Turn(before, k) {
      assert Turn(states, k);
    }
  }

  // The search of the closer at hand fails.
  ghost predicate Fails(s: State) {
    && Shape(s) && s.current < |s.stack| && s.runs[s.stack[s.current]].closes
    && var closer := s.runs[s.stack[s.current]];
       Opener(s.runs, s.stack, closer, s.current, Bottom(s.bottoms, Key(closer))).None?
  }

  // At whatever turn a search fails, the runs on the stack that it could have used are exactly those that
  // its bottom passes over. So a search misses none unless its closer cannot open, which then leaves
  // the stack for good.
  lemma FailsExactly(runs: seq<Delimiter>, states: seq<State>, i: nat)
    requires AllFresh(runs) && Trace(runs, states)
    requires Fails(states[|states| - 1]) && i < states[|states| - 1].current
    ensures var s := states[|states| - 1];
      var x, c := s.stack[i], s.stack[s.current];
      && x < c < |runs| && s.runs[x].count >= 1
      && (Legal(runs[x], runs[c]) <==> Passed(runs[x], runs[c], x, Bottom(s.bottoms, Key(runs[c]))))
      && (c in Step(s).stack <==> runs[c].opens)
  {
    TraceInvariant(runs, NoGaps(|runs|), states);
    FailsAt(states[|states| - 1], runs, i);
  }

  lemma InitialInvariant(runs: seq<Delimiter>, gaps: seq<seq<Token>>)
    requires AllFresh(runs) && |gaps| == |runs| + 1
    requires forall i :: 0 <= i < |gaps| ==> Nested(gaps[i])
    ensures Invariant(Initial(runs), runs, gaps)
  {
    InitialNests(runs, gaps);
  }

  lemma FailsAt(s: State, runs: seq<Delimiter>, i: nat)
    requires Searched(s) && Originals(s.runs, runs) && Fails(s) && i < s.current
    ensures var x, c := s.stack[i], s.stack[s.current];
      && x < c < |runs| && s.runs[x].count >= 1
      && (Legal(runs[x], runs[c]) <==> Passed(runs[x], runs[c], x, Bottom(s.bottoms, Key(runs[c]))))
      && (c in Step(s).stack <==> runs[c].opens)
  {
    var x, c := s.stack[i], s.stack[s.current];
    assert s.runs[x].Original() == runs[x] && s.runs[c].Original() == runs[c];
    UnmatchedExactly(s, i);
    DropsExactly(s);
  }

  lemma DropsExactly(s: State)
    requires Shape(s) && s.current < |s.stack|
    ensures s.stack[s.current] in Unmatched(s).stack <==> s.runs[s.stack[s.current]].opens
  {
    var c, t := s.stack[s.current], Unmatched(s);
    if s.runs[c].opens {
      assert t.stack[s.current] == c;
    } else {
      forall k | 0 <= k < |t.stack| ensures t.stack[k] != c {
        assert t.stack[k] == s.stack[if k < s.current then k else k + 1];
      }
    }
  }

  // Inline content: text, a tag of raw HTML, a run of delimiters, or a link, whose text holds its own runs.
  datatype Piece =
    Plain(text: string) | Html(token: Token) | Delimiters(run: Delimiter) | Link(pieces: seq<Piece>)

  function RunsOf(pieces: seq<Piece>): seq<Delimiter> {
    if pieces == [] then []
    else (if pieces[0].Delimiters? then [pieces[0].run] else []) + RunsOf(pieces[1..])
  }

  // The scanner made every run, at any depth.
  ghost predicate Scanned(pieces: seq<Piece>) {
    forall i :: 0 <= i < |pieces| ==>
      match pieces[i]
      case Plain(_) => true
      case Html(token) => token.Raw?
      case Delimiters(run) => run.Fresh()
      case Link(inner) => Scanned(inner)
  }

  lemma {:induction false} RunsFresh(pieces: seq<Piece>)
    requires Scanned(pieces)
    ensures AllFresh(RunsOf(pieces))
  {
    if pieces != [] {
      assert forall i :: 0 <= i < |pieces[1..]| ==> pieces[1..][i] == pieces[i + 1];
      RunsFresh(pieces[1..]);
    }
  }

  // Renders the pieces of a heading or of a link's text, whose runs match only one another.
  function Render(pieces: seq<Piece>): seq<Token>
    requires Scanned(pieces)
    decreases pieces, 1
  {
    RunsFresh(pieces);
    MatchedConserves(RunsOf(pieces));
    Emit(pieces, Matched(RunsOf(pieces)).runs)
  }

  function Emit(pieces: seq<Piece>, runs: seq<Delimiter>): seq<Token>
    requires Scanned(pieces) && |runs| == |RunsOf(pieces)|
    decreases pieces, 0
  {
    if pieces == [] then []
    else
      assert forall i :: 0 <= i < |pieces[1..]| ==> pieces[1..][i] == pieces[i + 1];
      match pieces[0]
      case Plain(text) => [Text(text)] + Emit(pieces[1..], runs)
      case Html(token) => [token] + Emit(pieces[1..], runs)
      case Delimiters(_) => Rendered(runs[0]) + Emit(pieces[1..], runs[1..])
      case Link(inner) => [Open(Anchor)] + Render(inner) + [Close(Anchor)] + Emit(pieces[1..], runs)
  }

  // What renders before each run, and after the last.
  function Gaps(pieces: seq<Piece>): (gaps: seq<seq<Token>>)
    requires Scanned(pieces)
    ensures |gaps| == |RunsOf(pieces)| + 1
  {
    if pieces == [] then [[]]
    else
      assert forall i :: 0 <= i < |pieces[1..]| ==> pieces[1..][i] == pieces[i + 1];
      var rest := Gaps(pieces[1..]);
      match pieces[0]
      case Plain(text) => rest[0 := [Text(text)] + rest[0]]
      case Html(token) => rest[0 := [token] + rest[0]]
      case Delimiters(_) => [[]] + rest
      case Link(inner) => rest[0 := [Open(Anchor)] + Render(inner) + [Close(Anchor)] + rest[0]]
  }

  lemma {:induction false} BetweenShift(
      gaps: seq<seq<Token>>, runs: seq<Delimiter>, a: nat, b: nat)
    requires |gaps| == |runs| + 1 && 1 <= a <= b <= |runs|
    ensures Between(gaps, runs, a, b) == Between(gaps[1..], runs[1..], a - 1, b - 1)
    decreases b - a
  {
    if a < b {
      BetweenShift(gaps, runs, a + 1, b);
    }
  }

  // More content before the first gap renders first.
  lemma BetweenBefore(before: seq<Token>, gaps: seq<seq<Token>>, runs: seq<Delimiter>)
    requires |gaps| == |runs| + 1
    ensures Between(gaps[0 := before + gaps[0]], runs, 0, |runs|)
            == before + Between(gaps, runs, 0, |runs|)
  {
    var more := gaps[0 := before + gaps[0]];
    if runs != [] {
      BetweenShift(more, runs, 1, |runs|);
      BetweenShift(gaps, runs, 1, |runs|);
      assert more[1..] == gaps[1..];
    }
  }

  lemma {:induction false} EmitBetween(pieces: seq<Piece>, runs: seq<Delimiter>)
    requires Scanned(pieces) && |runs| == |RunsOf(pieces)|
    ensures Emit(pieces, runs) == Between(Gaps(pieces), runs, 0, |runs|)
  {
    if pieces != [] {
      assert forall i :: 0 <= i < |pieces[1..]| ==> pieces[1..][i] == pieces[i + 1];
      var rest, gaps := Gaps(pieces[1..]), Gaps(pieces);
      match pieces[0]
      case Plain(text) =>
        EmitBetween(pieces[1..], runs);
        BetweenBefore([Text(text)], rest, runs);
      case Html(token) =>
        EmitBetween(pieces[1..], runs);
        BetweenBefore([token], rest, runs);
      case Delimiters(_) =>
        EmitBetween(pieces[1..], runs[1..]);
        BetweenShift(gaps, runs, 1, |runs|);
        assert gaps[1..] == rest;
        assert [] + Rendered(runs[0]) == Rendered(runs[0]);
      case Link(inner) =>
        EmitBetween(pieces[1..], runs);
        BetweenBefore([Open(Anchor)] + Render(inner) + [Close(Anchor)], rest, runs);
    }
  }

  lemma {:induction false} GapsNest(pieces: seq<Piece>)
    requires Scanned(pieces)
    ensures forall i :: 0 <= i < |Gaps(pieces)| ==> Nested(Gaps(pieces)[i])
    decreases pieces, 0
  {
    if pieces != [] {
      assert forall i :: 0 <= i < |pieces[1..]| ==> pieces[1..][i] == pieces[i + 1];
      GapsNest(pieces[1..]);
      var rest := Gaps(pieces[1..]);
      match pieces[0]
      case Plain(text) =>
        NestedText(text);
        NestedConcat([Text(text)], rest[0]);
      case Html(token) =>
        NestedRaw(token);
        NestedConcat([token], rest[0]);
      case Delimiters(_) =>
      case Link(inner) =>
        RenderNests(inner);
        NestedWrap(Anchor, Render(inner));
        NestedConcat([Open(Anchor)] + Render(inner) + [Close(Anchor)], rest[0]);
    }
  }

  // Content with links at any depth renders tags that nest.
  lemma {:induction false} RenderNests(pieces: seq<Piece>)
    requires Scanned(pieces)
    ensures Nested(Render(pieces))
    decreases pieces, 1
  {
    RunsFresh(pieces);
    GapsNest(pieces);
    MatchedNests(RunsOf(pieces), Gaps(pieces));
    EmitBetween(pieces, Matched(RunsOf(pieces)).runs);
  }

  // Tokens without the tags of elements: text, and raw HTML.
  function Bare(tokens: seq<Token>): seq<Token> {
    if tokens == [] then []
    else (if tokens[0].Text? || tokens[0].Raw? then [tokens[0]] else []) + Bare(tokens[1..])
  }

  // What pieces say, in order, at any depth: texts, raw HTML, and the characters of runs that no match uses.
  function Said(pieces: seq<Piece>): seq<Token>
    requires Scanned(pieces)
    decreases pieces, 1
  {
    RunsFresh(pieces);
    MatchedConserves(RunsOf(pieces));
    SaidBy(pieces, Matched(RunsOf(pieces)).runs)
  }

  function SaidBy(pieces: seq<Piece>, runs: seq<Delimiter>): seq<Token>
    requires Scanned(pieces) && |runs| == |RunsOf(pieces)|
    decreases pieces, 0
  {
    if pieces == [] then []
    else
      assert forall i :: 0 <= i < |pieces[1..]| ==> pieces[1..][i] == pieces[i + 1];
      match pieces[0]
      case Plain(text) => [Text(text)] + SaidBy(pieces[1..], runs)
      case Html(token) => [token] + SaidBy(pieces[1..], runs)
      case Delimiters(_) => [Text(Literal(runs[0]))] + SaidBy(pieces[1..], runs[1..])
      case Link(inner) => Said(inner) + SaidBy(pieces[1..], runs)
  }

  lemma {:induction false} BareConcat(a: seq<Token>, b: seq<Token>)
    ensures Bare(a + b) == Bare(a) + Bare(b)
  {
    if a == [] {
      assert a + b == b;
    } else {
      var first := if a[0].Text? || a[0].Raw? then [a[0]] else [];
      assert (a + b)[1..] == a[1..] + b && (a + b)[0] == a[0];
      BareConcat(a[1..], b);
      assert first + (Bare(a[1..]) + Bare(b)) == first + Bare(a[1..]) + Bare(b);
    }
  }

  lemma {:induction false} BareTags(tokens: seq<Token>)
    requires forall i :: 0 <= i < |tokens| ==> tokens[i].Open? || tokens[i].Close?
    ensures Bare(tokens) == []
  {
    if tokens != [] {
      BareTags(tokens[1..]);
    }
  }

  lemma BareRun(run: Delimiter)
    ensures Bare(Rendered(run)) == [Text(Literal(run))]
  {
    ClosingsTags(run.ends);
    OpeningsTags(run.starts);
    BareTags(Closings(run.ends));
    BareTags(Openings(run.starts));
    BareConcat(Closings(run.ends), [Text(Literal(run))]);
    BareConcat(Closings(run.ends) + [Text(Literal(run))], Openings(run.starts));
    assert Bare([Text(Literal(run))]) == [Text(Literal(run))] + Bare([]);
  }

  lemma {:induction false} ClosingsTags(ends: seq<Tag>)
    ensures forall i :: 0 <= i < |Closings(ends)| ==> Closings(ends)[i].Close?
  {
    if ends != [] {
      ClosingsTags(ends[1..]);
    }
  }

  lemma {:induction false} OpeningsTags(starts: seq<Tag>)
    ensures forall i :: 0 <= i < |Openings(starts)| ==> Openings(starts)[i].Open?
  {
    if starts != [] {
      OpeningsTags(starts[..|starts| - 1]);
      OpeningsTags(starts[1..]);
    }
  }

  lemma {:induction false} EmitSays(pieces: seq<Piece>, runs: seq<Delimiter>)
    requires Scanned(pieces) && |runs| == |RunsOf(pieces)|
    ensures Bare(Emit(pieces, runs)) == SaidBy(pieces, runs)
    decreases pieces, 0
  {
    if pieces != [] {
      assert forall i :: 0 <= i < |pieces[1..]| ==> pieces[1..][i] == pieces[i + 1];
      match pieces[0]
      case Plain(text) => EmitSays(pieces[1..], runs);
      case Html(token) => EmitSays(pieces[1..], runs);
      case Delimiters(_) =>
        EmitSays(pieces[1..], runs[1..]);
        BareRun(runs[0]);
        BareConcat(Rendered(runs[0]), Emit(pieces[1..], runs[1..]));
      case Link(inner) =>
        RenderSays(inner);
        EmitSays(pieces[1..], runs);
        BareWrap(Render(inner), Emit(pieces[1..], runs));
    }
  }

  lemma BareThree(a: seq<Token>, b: seq<Token>, c: seq<Token>)
    requires Bare(a) == [] && Bare(c) == []
    ensures Bare(a + b + c) == Bare(b)
  {
    BareConcat(a, b);
    BareConcat(a + b, c);
    assert [] + Bare(b) + [] == Bare(b);
  }

  lemma BareWrap(inner: seq<Token>, rest: seq<Token>)
    ensures Bare([Open(Anchor)] + inner + [Close(Anchor)] + rest) == Bare(inner) + Bare(rest)
  {
    var open, close: seq<Token> := [Open(Anchor)], [Close(Anchor)];
    BareTags(open);
    BareTags(close);
    BareThree(open, inner, close);
    BareConcat(open + inner + close, rest);
  }

  // Without its tags, what is rendered is what the pieces say: nothing is lost, added or moved.
  lemma {:induction false} RenderSays(pieces: seq<Piece>)
    requires Scanned(pieces)
    ensures Bare(Render(pieces)) == Said(pieces)
    decreases pieces, 1
  {
    RunsFresh(pieces);
    MatchedConserves(RunsOf(pieces));
    EmitSays(pieces, Matched(RunsOf(pieces)).runs);
  }
}
