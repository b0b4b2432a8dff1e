/** What compiling an item demands of the configuration, collected from its attributes as rendered
    predicates, and the part of a demand that is left once `test` is granted. */
module CfgConjuncts {
  import opened Options
  import opened Brackets
  import opened Cfgs
  import opened CfgMeaning

  // An attribute's path and the range of its arguments, between their delimiters.
  datatype Attribute = Attribute(path: string, arguments: Option<(nat, nat)>)

  // The range is between two partners.
  ghost predicate Enclosed(tokens: seq<Token>, partner: seq<int>, start: nat, end: nat)
    requires Partners(tokens, partner)
  {
    0 < start <= end < |tokens| && tokens[start - 1].Opens() && partner[start - 1] == end
  }

  // A bracket of an enclosed range encloses a range in it.
  lemma EnclosedInner(tokens: seq<Token>, partner: seq<int>, start: nat, end: nat, open: nat)
    requires Partners(tokens, partner) && Enclosed(tokens, partner, start, end)
    requires start <= open < end && tokens[open].Opens()
    ensures open < partner[open] < end && Enclosed(tokens, partner, open + 1, partner[open])
  {
    assert Placed(tokens, partner, start - 1) && Placed(tokens, partner, open);
    PartnersNest(tokens, partner, start - 1, open);
  }

  // Conjunctions are taken apart, down to parts that are none, and those are rendered.
  function Flattened(cfg: Cfg): set<seq<Token>> {
    match cfg
    case Group(All, operands) => FlattenedAll(operands)
    case _ => {Render(cfg)}
  }

  function FlattenedAll(operands: seq<Cfg>): set<seq<Token>> {
    if operands == [] then {} else Flattened(operands[0]) + FlattenedAll(operands[1..])
  }

  function Where(held: seq<Cfg>): Cfg {
    if |held| == 1 then held[0] else Group(All, held)
  }

  // The guards of a cfg_attr whose arguments are the range: under the guards that are around it, and
  // its own predicate, which comes first, each of its other arguments may be an attribute.
  function Conditional(tokens: seq<Token>, partner: seq<int>, start: nat, end: nat, held: seq<Cfg>)
      : set<seq<Token>>
    requires Partners(tokens, partner) && Enclosed(tokens, partner, start, end)
    decreases end - start, 0
  {
    var pieces := Split(tokens, partner, start, end);
    if pieces == [] then {}
    else Applied(tokens, partner, start, end, pieces[1..],
                 held + [Parse(tokens, partner, pieces[0].0, pieces[0].1)])
  }

  // Those of the pieces of it that apply an attribute.
  function Applied(tokens: seq<Token>, partner: seq<int>, start: nat, end: nat,
                   pieces: seq<(nat, nat)>, held: seq<Cfg>): set<seq<Token>>
    requires Partners(tokens, partner) && Enclosed(tokens, partner, start, end)
    requires forall k :: 0 <= k < |pieces| ==> start <= pieces[k].0 < pieces[k].1 <= end
    requires pieces != [] ==> start < end
    decreases end - start, 0, |pieces|
  {
    if pieces == [] then {}
    else
      var (begin, finish) := pieces[0];
      var rest := Applied(tokens, partner, start, end, pieces[1..], held);
      if finish - begin < 3 || tokens[begin + 1] != Mark("(") then rest
      else
        EnclosedInner(tokens, partner, start, end, begin + 1);
        var close := partner[begin + 1];
        if tokens[begin] == Word("cfg") then
          var required := Parse(tokens, partner, begin + 2, close);
          {Render(Group(Any, [Group(Not, [Where(held)]), required]))} + rest
        else if tokens[begin] == Word("cfg_attr") then
          Conditional(tokens, partner, begin + 2, close, held) + rest
        else rest
  }

  function Required(tokens: seq<Token>, partner: seq<int>, attribute: Attribute): set<seq<Token>>
    requires Partners(tokens, partner) && Arguments(tokens, partner, attribute)
  {
    match attribute
    case Attribute("cfg", Some((start, end))) => Flattened(Parse(tokens, partner, start, end))
    case Attribute("cfg_attr", Some((start, end))) => Conditional(tokens, partner, start, end, [])
    case _ => {}
  }

  ghost predicate Arguments(tokens: seq<Token>, partner: seq<int>, attribute: Attribute)
    requires Partners(tokens, partner)
  {
    attribute.arguments.Some? ==>
      Enclosed(tokens, partner, attribute.arguments.value.0, attribute.arguments.value.1)
  }

  // What some attribute requires.
  ghost predicate RequiredByOne(
    tokens: seq<Token>, partner: seq<int>, attributes: seq<Attribute>, text: seq<Token>)
    requires Partners(tokens, partner)
    requires forall i :: 0 <= i < |attributes| ==> Arguments(tokens, partner, attributes[i])
  {
    exists i :: 0 <= i < |attributes| && text in Required(tokens, partner, attributes[i])
  }

  // Collects what the attributes require, which holds exactly where all of them let the item compile.
  method Conjuncts(tokens: seq<Token>, partner: seq<int>, attributes: seq<Attribute>)
      returns (found: set<seq<Token>>)
    requires Partners(tokens, partner)
    requires forall i :: 0 <= i < |attributes| ==> Arguments(tokens, partner, attributes[i])
    ensures forall text :: text in found <==> RequiredByOne(tokens, partner, attributes, text)
    ensures (forall i :: 0 <= i < |attributes| ==> AttributeProper(tokens, partner, attributes[i])) ==>
              forall config: Config ::
                AllHold(found, config)
                <==> forall i :: 0 <= i < |attributes| ==> Guards(tokens, partner, attributes[i], config)
  {
    found := {};
    for n := 0 to |attributes|
      invariant forall text :: text in found <==> RequiredByOne(tokens, partner, attributes[..n], text)
    {
      RequiredByMore(tokens, partner, attributes, n);
      found := found + Required(tokens, partner, attributes[n]);
    }
    assert attributes[..|attributes|] == attributes;
    if forall i :: 0 <= i < |attributes| ==> AttributeProper(tokens, partner, attributes[i]) {
      forall config: Config
        ensures AllHold(found, config)
                <==> forall i :: 0 <= i < |attributes| ==> Guards(tokens, partner, attributes[i], config)
      {
        ConjunctsHold(tokens, partner, attributes, found, config);
      }
    }
  }

  lemma RequiredByMore(tokens: seq<Token>, partner: seq<int>, attributes: seq<Attribute>, n: nat)
    requires Partners(tokens, partner) && n < |attributes|
    requires forall i :: 0 <= i < |attributes| ==> Arguments(tokens, partner, attributes[i])
    ensures forall text :: RequiredByOne(tokens, partner, attributes[..n + 1], text)
              <==> RequiredByOne(tokens, partner, attributes[..n], text) || text in Required(tokens, partner, attributes[n])
  {
    var some, more := attributes[..n], attributes[..n + 1];
    assert more[n] == attributes[n];
    assert forall i :: 0 <= i < n ==> more[i] == some[i] == attributes[i];
  }

  lemma ConjunctsHold(
    tokens: seq<Token>, partner: seq<int>, attributes: seq<Attribute>, found: set<seq<Token>>, config: Config)
    requires Partners(tokens, partner)
    requires forall i :: 0 <= i < |attributes| ==> Arguments(tokens, partner, attributes[i])
    requires forall i :: 0 <= i < |attributes| ==> AttributeProper(tokens, partner, attributes[i])
    requires forall text :: text in found <==> RequiredByOne(tokens, partner, attributes, text)
    ensures AllHold(found, config)
            <==> forall i :: 0 <= i < |attributes| ==> Guards(tokens, partner, attributes[i], config)
  {
    forall i | 0 <= i < |attributes|
      ensures Guards(tokens, partner, attributes[i], config)
              <==> AllHold(Required(tokens, partner, attributes[i]), config)
    {
      RequiredHolds(tokens, partner, attributes[i], config);
    }
    assert forall i :: 0 <= i < |attributes| ==> Required(tokens, partner, attributes[i]) <= found;
  }

  // A rendered predicate holds as it reads.
  predicate Holds(text: seq<Token>, config: Config) {
    match Read(text)
    case Some(cfg) => Eval(cfg, config)
    case None => false
  }

  ghost predicate AllHold(texts: set<seq<Token>>, config: Config) {
    forall text :: text in texts ==> Holds(text, config)
  }

  lemma AllHoldUnion(a: set<seq<Token>>, b: set<seq<Token>>, config: Config)
    ensures AllHold(a + b, config) <==> AllHold(a, config) && AllHold(b, config)
  {
  }

  lemma RenderHolds(cfg: Cfg, config: Config)
    requires Proper(cfg)
    ensures AllHold({Render(cfg)}, config) <==> Eval(cfg, config)
  {
    ReadRender(cfg);
    assert Render(cfg) in {Render(cfg)};
  }

  lemma {:induction false} FlattenedHolds(cfg: Cfg, config: Config)
    requires Proper(cfg)
    ensures AllHold(Flattened(cfg), config) <==> Eval(cfg, config)
    decreases cfg
  {
    match cfg
    case Group(All, operands) => FlattenedAllHold(operands, config);
    case _ => RenderHolds(cfg, config);
  }

  lemma {:induction false} FlattenedAllHold(operands: seq<Cfg>, config: Config)
    requires forall k :: 0 <= k < |operands| ==> Proper(operands[k])
    ensures AllHold(FlattenedAll(operands), config)
            <==> forall k :: 0 <= k < |operands| ==> Eval(operands[k], config)
    decreases operands
  {
    if operands != [] {
      FlattenedHolds(operands[0], config);
      FlattenedAllHold(operands[1..], config);
      AllHoldUnion(Flattened(operands[0]), FlattenedAll(operands[1..]), config);
      assert operands == [operands[0]] + operands[1..];
    }
  }

  // Where the predicate of a cfg_attr holds, what it applies must hold, and else nothing.
  predicate Allows(tokens: seq<Token>, partner: seq<int>, start: nat, end: nat, config: Config)
    requires Partners(tokens, partner) && Enclosed(tokens, partner, start, end)
    decreases end - start, 0
  {
    var pieces := Split(tokens, partner, start, end);
    pieces != [] && Eval(Parse(tokens, partner, pieces[0].0, pieces[0].1), config) ==>
      AllowsAll(tokens, partner, start, end, pieces[1..], config)
  }

  predicate AllowsAll(tokens: seq<Token>, partner: seq<int>, start: nat, end: nat,
                      pieces: seq<(nat, nat)>, config: Config)
    requires Partners(tokens, partner) && Enclosed(tokens, partner, start, end)
    requires forall k :: 0 <= k < |pieces| ==> start <= pieces[k].0 < pieces[k].1 <= end
    decreases end - start, 0, |pieces|
  {
    pieces != [] ==>
      var (begin, finish) := pieces[0];
      && AllowsAll(tokens, partner, start, end, pieces[1..], config)
      && (if finish - begin >= 3 && tokens[begin + 1] == Mark("(") then
            EnclosedInner(tokens, partner, start, end, begin + 1);
            var close := partner[begin + 1];
            if tokens[begin] == Word("cfg") then Eval(Parse(tokens, partner, begin + 2, close), config)
            else (tokens[begin] == Word("cfg_attr") ==> Allows(tokens, partner, begin + 2, close, config))
          else true)
  }

  // The configuration compiles what the attribute is on.
  predicate Guards(tokens: seq<Token>, partner: seq<int>, attribute: Attribute, config: Config)
    requires Partners(tokens, partner) && Arguments(tokens, partner, attribute)
  {
    match attribute
    case Attribute("cfg", Some((start, end))) => Eval(Parse(tokens, partner, start, end), config)
    case Attribute("cfg_attr", Some((start, end))) => Allows(tokens, partner, start, end, config)
    case _ => true
  }

  // All the predicates of an attribute parse.
  ghost predicate AttributeProper(tokens: seq<Token>, partner: seq<int>, attribute: Attribute)
    requires Partners(tokens, partner) && Arguments(tokens, partner, attribute)
  {
    match attribute
    case Attribute("cfg", Some((start, end))) => Proper(Parse(tokens, partner, start, end))
    case Attribute("cfg_attr", Some((start, end))) => ProperIn(tokens, partner, start, end)
    case _ => true
  }

  ghost predicate ProperIn(tokens: seq<Token>, partner: seq<int>, start: nat, end: nat)
    requires Partners(tokens, partner) && Enclosed(tokens, partner, start, end)
    decreases end - start, 0
  {
    var pieces := Split(tokens, partner, start, end);
    pieces != [] ==>
      && Proper(Parse(tokens, partner, pieces[0].0, pieces[0].1))
      && ProperAll(tokens, partner, start, end, pieces[1..])
  }

  ghost predicate ProperAll(tokens: seq<Token>, partner: seq<int>, start: nat, end: nat,
                            pieces: seq<(nat, nat)>)
    requires Partners(tokens, partner) && Enclosed(tokens, partner, start, end)
    requires forall k :: 0 <= k < |pieces| ==> start <= pieces[k].0 < pieces[k].1 <= end
    decreases end - start, 0, |pieces|
  {
    pieces != [] ==>
      var (begin, finish) := pieces[0];
      && ProperAll(tokens, partner, start, end, pieces[1..])
      && (if finish - begin >= 3 && tokens[begin + 1] == Mark("(") then
            EnclosedInner(tokens, partner, start, end, begin + 1);
            var close := partner[begin + 1];
            if tokens[begin] == Word("cfg") then Proper(Parse(tokens, partner, begin + 2, close))
            else (tokens[begin] == Word("cfg_attr") ==> ProperIn(tokens, partner, begin + 2, close))
          else true)
  }

  ghost predicate AllEval(held: seq<Cfg>, config: Config) {
    forall k :: 0 <= k < |held| ==> Eval(held[k], config)
  }

  ghost predicate AllProper(held: seq<Cfg>) {
    forall k :: 0 <= k < |held| ==> Proper(held[k])
  }

  lemma WhereHolds(held: seq<Cfg>, config: Config)
    requires held != [] && AllProper(held)
    ensures Proper(Where(held)) && (Eval(Where(held), config) <==> AllEval(held, config))
  {
  }

  // any(not(P), X) holds exactly when P does not or X does.
  lemma GuardHolds(held: seq<Cfg>, required: Cfg, config: Config)
    requires held != [] && AllProper(held) && Proper(required)
    ensures AllHold({Render(Group(Any, [Group(Not, [Where(held)]), required]))}, config)
            <==> (AllEval(held, config) ==> Eval(required, config))
  {
    WhereHolds(held, config);
    var negated := Group(Not, [Where(held)]);
    var guard := Group(Any, [negated, required]);
    assert negated.operands[0] == Where(held) && Proper(negated);
    assert guard.operands[0] == negated && guard.operands[1] == required && Proper(guard);
    assert Eval(negated, config) <==> !Eval(Where(held), config);
    assert Eval(guard, config) <==> Eval(guard.operands[0], config) || Eval(guard.operands[1], config);
    RenderHolds(guard, config);
  }

  lemma GuardJoins(held: seq<Cfg>, required: Cfg, rest: set<seq<Token>>, config: Config)
    requires held != [] && AllProper(held) && Proper(required)
    ensures AllHold({Render(Group(Any, [Group(Not, [Where(held)]), required]))} + rest, config)
            <==> (AllEval(held, config) ==> Eval(required, config)) && AllHold(rest, config)
  {
    GuardHolds(held, required, config);
    AllHoldUnion({Render(Group(Any, [Group(Not, [Where(held)]), required]))}, rest, config);
  }

  lemma {:induction false} ConditionalHolds(
      tokens: seq<Token>, partner: seq<int>, start: nat, end: nat, held: seq<Cfg>, config: Config)
    requires Partners(tokens, partner) && Enclosed(tokens, partner, start, end)
    requires AllProper(held) && ProperIn(tokens, partner, start, end)
    ensures AllHold(Conditional(tokens, partner, start, end, held), config)
            <==> (AllEval(held, config) ==> Allows(tokens, partner, start, end, config))
    decreases end - start, 0
  {
    var pieces := Split(tokens, partner, start, end);
    if pieces != [] {
      var first := Parse(tokens, partner, pieces[0].0, pieces[0].1);
      var more := held + [first];
      assert AllEval(more, config) <==> AllEval(held, config) && Eval(first, config) by {
        assert forall k :: 0 <= k < |held| ==> more[k] == held[k];
        assert more[|held|] == first;
      }
      AppliedHolds(tokens, partner, start, end, pieces[1..], more, config);
    }
  }

  lemma {:induction false} AppliedHolds(tokens: seq<Token>, partner: seq<int>, start: nat, end: nat,
                                        pieces: seq<(nat, nat)>, held: seq<Cfg>, config: Config)
    requires Partners(tokens, partner) && Enclosed(tokens, partner, start, end)
    requires forall k :: 0 <= k < |pieces| ==> start <= pieces[k].0 < pieces[k].1 <= end
    requires held != [] && AllProper(held) && ProperAll(tokens, partner, start, end, pieces)
    ensures AllHold(Applied(tokens, partner, start, end, pieces, held), config)
            <==> (AllEval(held, config) ==> AllowsAll(tokens, partner, start, end, pieces, config))
    decreases end - start, 0, |pieces|
  {
    if pieces != [] {
      var (begin, finish) := pieces[0];
      AppliedHolds(tokens, partner, start, end, pieces[1..], held, config);
      var rest := Applied(tokens, partner, start, end, pieces[1..], held);
      if finish - begin >= 3 && tokens[begin + 1] == Mark("(") {
        EnclosedInner(tokens, partner, start, end, begin + 1);
        var close := partner[begin + 1];
        if tokens[begin] == Word("cfg") {
          GuardJoins(held, Parse(tokens, partner, begin + 2, close), rest, config);
        } else if tokens[begin] == Word("cfg_attr") {
          ConditionalHolds(tokens, partner, begin + 2, close, held, config);
          AllHoldUnion(Conditional(tokens, partner, begin + 2, close, held), rest, config);
        }
      }
    }
  }

  // A configuration satisfies every predicate of an attribute exactly when it compiles what it is on.
  lemma RequiredHolds(tokens: seq<Token>, partner: seq<int>, attribute: Attribute, config: Config)
    requires Partners(tokens, partner) && Arguments(tokens, partner, attribute)
    requires AttributeProper(tokens, partner, attribute)
    ensures AllHold(Required(tokens, partner, attribute), config)
            <==> Guards(tokens, partner, attribute, config)
  {
    match attribute
    case Attribute("cfg", Some((start, end))) =>
      FlattenedHolds(Parse(tokens, partner, start, end), config);
    case Attribute("cfg_attr", Some((start, end))) =>
      ConditionalHolds(tokens, partner, start, end, [], config);
    case _ =>
  }

  // The residue of a predicate once `test` is on: its conjuncts but those, or none.
  function AssumeTest(cfg: Cfg): Option<Cfg> {
    match cfg
    case Group(All, operands) =>
      var rest := Residues(operands);
      if rest == [] then None else if |rest| == 1 then Some(rest[0]) else Some(Group(All, rest))
    case _ => if cfg == TEST then None else Some(cfg)
  }

  function Residues(operands: seq<Cfg>): seq<Cfg> {
    if operands == [] then []
    else (match AssumeTest(operands[0]) case None => [] case Some(residue) => [residue])
         + Residues(operands[1..])
  }

  predicate Residual(cfg: Cfg, config: Config) {
    match AssumeTest(cfg) case None => true case Some(residue) => Eval(residue, config)
  }

  // With `test` on, a predicate holds exactly when its residue does.
  lemma {:induction false} AssumeTestMeans(cfg: Cfg, config: Config)
    requires config(TEST)
    ensures Eval(cfg, config) <==> Residual(cfg, config)
    decreases cfg
  {
    match cfg
    case Group(All, operands) => ResiduesMean(operands, config);
    case _ =>
  }

  lemma {:induction false} ResiduesMean(operands: seq<Cfg>, config: Config)
    requires config(TEST)
    ensures AllEval(operands, config) <==> AllEval(Residues(operands), config)
    decreases operands
  {
    if operands != [] {
      AssumeTestMeans(operands[0], config);
      ResiduesMean(operands[1..], config);
      assert operands == [operands[0]] + operands[1..];
      AllEvalFirst(operands[0], operands[1..], config);
      match AssumeTest(operands[0])
      case None => assert Residues(operands) == Residues(operands[1..]);
      case Some(residue) => AllEvalFirst(residue, Residues(operands[1..]), config);
    }
  }

  lemma AllEvalFirst(cfg: Cfg, rest: seq<Cfg>, config: Config)
    ensures AllEval([cfg] + rest, config) <==> Eval(cfg, config) && AllEval(rest, config)
  {
    var all := [cfg] + rest;
    assert all[0] == cfg;
    assert forall k :: 0 <= k < |rest| ==> all[k + 1] == rest[k];
    assert forall k :: 1 <= k < |all| ==> all[k] == rest[k - 1];
  }

  // So a predicate that requires `test` is `test` and its residue.
  lemma AssumeTestSplits(cfg: Cfg, config: Config)
    requires WellNegated(cfg) && RequiresTest(cfg)
    ensures Eval(cfg, config) <==> config(TEST) && Residual(cfg, config)
  {
    if Eval(cfg, config) {
      RequiresTestSound(cfg, config);
    }
    if config(TEST) {
      AssumeTestMeans(cfg, config);
    }
  }

  // `test` is among what an `all`, or an `all` in it, requires.
  predicate HasTest(cfg: Cfg) {
    match cfg
    case Group(All, operands) => exists k :: 0 <= k < |operands| && HasTest(operands[k])
    case _ => cfg == TEST
  }

  // The residue no longer requires `test`.
  lemma {:induction false} AssumeTestDrops(cfg: Cfg)
    ensures AssumeTest(cfg).Some? ==> !HasTest(AssumeTest(cfg).value)
    decreases cfg
  {
    match cfg
    case Group(All, operands) => ResiduesDrop(operands);
    case _ =>
  }

  lemma {:induction false} ResiduesDrop(operands: seq<Cfg>)
    ensures forall k :: 0 <= k < |Residues(operands)| ==> !HasTest(Residues(operands)[k])
    decreases operands
  {
    if operands != [] {
      AssumeTestDrops(operands[0]);
      ResiduesDrop(operands[1..]);
    }
  }

  ghost predicate Conjunct(text: seq<Token>) {
    exists cfg :: Render(cfg) == text && !(cfg.Group? && cfg.operator == All)
  }

  // No predicate of a cfg attribute is an `all`.
  lemma {:induction false} FlattenedConjuncts(cfg: Cfg, text: seq<Token>)
    requires text in Flattened(cfg)
    ensures Conjunct(text)
    decreases cfg
  {
    match cfg
    case Group(All, operands) => FlattenedAllConjuncts(operands, text);
    case _ => assert Render(cfg) == text;
  }

  lemma {:induction false} FlattenedAllConjuncts(operands: seq<Cfg>, text: seq<Token>)
    requires text in FlattenedAll(operands)
    ensures Conjunct(text)
    decreases operands
  {
    if text in Flattened(operands[0]) {
      FlattenedConjuncts(operands[0], text);
    } else {
      FlattenedAllConjuncts(operands[1..], text);
    }
  }
}
