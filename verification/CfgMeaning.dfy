/** What cfg predicates mean under a configuration, and whether they hold only with `test` or without. */
module CfgMeaning {
  import opened Options
  import opened Cfgs

  // A configuration decides each option, and what is no predicate: what does not parse, and a `not`
  // of other than one operand.
  type Config = Cfg -> bool

  const TEST := Setting("test", None)

  predicate Eval(cfg: Cfg, config: Config) {
    match cfg
    case Group(All, operands) => forall k :: 0 <= k < |operands| ==> Eval(operands[k], config)
    case Group(Any, operands) => exists k :: 0 <= k < |operands| && Eval(operands[k], config)
    case Group(Not, operands) => if |operands| == 1 then !Eval(operands[0], config) else config(cfg)
    case _ => config(cfg)
  }

  // The shape of the predicate alone makes it false, without a look at its options,
  predicate Never(cfg: Cfg) {
    match cfg
    case Group(Any, operands) => forall k :: 0 <= k < |operands| ==> Never(operands[k])
    case Group(All, operands) => exists k :: 0 <= k < |operands| && Never(operands[k])
    case Group(Not, operands) => |operands| == 1 && Always(operands[0])
    case _ => false
  }

  // or makes it true.
  predicate Always(cfg: Cfg) {
    match cfg
    case Group(All, operands) => forall k :: 0 <= k < |operands| ==> Always(operands[k])
    case Group(Any, operands) => exists k :: 0 <= k < |operands| && Always(operands[k])
    case Group(Not, operands) => |operands| == 1 && Never(operands[0])
    case _ => false
  }

  // Whether the predicate is to hold only when `test` does,
  predicate RequiresTest(cfg: Cfg) {
    match cfg
    case Setting(_, _) => cfg == TEST
    case Group(All, operands) => exists k :: 0 <= k < |operands| && RequiresTest(operands[k])
    case Group(Any, operands) =>
      && (exists k :: 0 <= k < |operands| && !Never(operands[k]))
      && (forall k :: 0 <= k < |operands| ==> Never(operands[k]) || RequiresTest(operands[k]))
    case Group(Not, operands) => |operands| == 1 && ForbidsTest(operands[0])
    case Other(_) => false
  }

  // or only when it does not.
  predicate ForbidsTest(cfg: Cfg) {
    match cfg
    case Group(All, operands) => exists k :: 0 <= k < |operands| && ForbidsTest(operands[k])
    case Group(Any, operands) =>
      && (exists k :: 0 <= k < |operands| && !Never(operands[k]))
      && (forall k :: 0 <= k < |operands| ==> Never(operands[k]) || ForbidsTest(operands[k]))
    case Group(Not, operands) => |operands| == 1 && RequiresTest(operands[0])
    case _ => false
  }

  // Three-valued evaluation, where only `test` may be known.
  datatype Truth = True | False | Unknown

  function Fold(cfg: Cfg, test: Truth): Truth {
    match cfg
    case Group(All, operands) =>
      if exists k :: 0 <= k < |operands| && Fold(operands[k], test) == False then False
      else if forall k :: 0 <= k < |operands| ==> Fold(operands[k], test) == True then True
      else Unknown
    case Group(Any, operands) =>
      if exists k :: 0 <= k < |operands| && Fold(operands[k], test) == True then True
      else if forall k :: 0 <= k < |operands| ==> Fold(operands[k], test) == False then False
      else Unknown
    case Group(Not, operands) =>
      if |operands| != 1 then Unknown
      else (match Fold(operands[0], test) case True => False case False => True case Unknown => Unknown)
    case _ => if cfg == TEST then test else Unknown
  }

  // Never and always are three-valued evaluation that knows nothing.
  lemma {:induction false} NeverAlwaysFold(cfg: Cfg)
    ensures Never(cfg) <==> Fold(cfg, Unknown) == False
    ensures Always(cfg) <==> Fold(cfg, Unknown) == True
  {
    if cfg.Group? {
      forall k | 0 <= k < |cfg.operands|
        ensures Never(cfg.operands[k]) <==> Fold(cfg.operands[k], Unknown) == False
        ensures Always(cfg.operands[k]) <==> Fold(cfg.operands[k], Unknown) == True
      {
        NeverAlwaysFold(cfg.operands[k]);
      }
    }
  }

  ghost predicate Agrees(test: Truth, config: Config) {
    (test == True ==> config(TEST)) && (test == False ==> !config(TEST))
  }

  // What folds to a constant has that value under every configuration that agrees.
  lemma {:induction false} FoldSound(cfg: Cfg, test: Truth, config: Config)
    requires Agrees(test, config)
    ensures Fold(cfg, test) == True ==> Eval(cfg, config)
    ensures Fold(cfg, test) == False ==> !Eval(cfg, config)
  {
    if cfg.Group? {
      forall k | 0 <= k < |cfg.operands|
        ensures Fold(cfg.operands[k], test) == True ==> Eval(cfg.operands[k], config)
        ensures Fold(cfg.operands[k], test) == False ==> !Eval(cfg.operands[k], config)
      {
        FoldSound(cfg.operands[k], test, config);
      }
    }
  }

  // What folds to a constant without `test` does with it.
  lemma {:induction false} FoldMonotone(cfg: Cfg, test: Truth)
    ensures Fold(cfg, Unknown) != Unknown ==> Fold(cfg, test) == Fold(cfg, Unknown)
  {
    if cfg.Group? {
      forall k | 0 <= k < |cfg.operands|
        ensures Fold(cfg.operands[k], Unknown) != Unknown ==>
                  Fold(cfg.operands[k], test) == Fold(cfg.operands[k], Unknown)
      {
        FoldMonotone(cfg.operands[k], test);
      }
    }
  }

  // An `all` that never holds has, beside the part that never does, one that a value of `test` makes
  // false, at any depth.
  ghost predicate Tied(cfg: Cfg, test: Truth) {
    && cfg.Group? && cfg.operator == All
    && exists k :: 0 <= k < |cfg.operands|
         && if Fold(cfg.operands[k], Unknown) == False then Tied(cfg.operands[k], test)
            else Fold(cfg.operands[k], test) == False
  }

  // Over an operand that is classified right, the classification of a `not` says nothing false,
  ghost predicate SafelyNegated(cfg: Cfg) {
    var on, off := Fold(cfg, True), Fold(cfg, False);
    match Fold(cfg, Unknown)
    case True => true
    case False => !Tied(cfg, True) && !Tied(cfg, False)
    case Unknown => (on == False ==> off == True) && (off == False ==> on == True)
  }

  // and leaves nothing out.
  ghost predicate FullyNegated(cfg: Cfg) {
    var on, off := Fold(cfg, True), Fold(cfg, False);
    Fold(cfg, Unknown) == Unknown ==> (off == True ==> on == False) && (on == True ==> off == False)
  }

  ghost predicate Negatable(cfg: Cfg) {
    SafelyNegated(cfg) && FullyNegated(cfg)
  }

  // What the classifications say of a predicate holds by three-valued evaluation,
  ghost predicate FoldsSafely(cfg: Cfg) {
    && (RequiresTest(cfg) ==> Fold(cfg, False) == False)
    && (ForbidsTest(cfg) ==> Fold(cfg, True) == False)
  }

  // and what that says is in them, unless the predicate never holds.
  ghost predicate FoldsFully(cfg: Cfg) {
    && (Fold(cfg, False) == False ==> RequiresTest(cfg) || Never(cfg))
    && (Fold(cfg, True) == False ==> ForbidsTest(cfg) || Never(cfg))
  }

  // Both hold throughout a predicate: of it, and of every part of it.
  ghost predicate Classified(cfg: Cfg) {
    && FoldsSafely(cfg) && FoldsFully(cfg)
    && (cfg.Group? ==> forall k :: 0 <= k < |cfg.operands| ==> Classified(cfg.operands[k]))
  }

  // Every `not` has a negatable operand.
  ghost predicate WellNegated(cfg: Cfg) {
    cfg.Group? ==>
      && (cfg.operator == Not && |cfg.operands| == 1 ==> Negatable(cfg.operands[0]))
      && forall k :: 0 <= k < |cfg.operands| ==> WellNegated(cfg.operands[k])
  }

  // What the classifications say of a predicate that never holds is how it is tied.
  lemma {:induction false} NeverTied(cfg: Cfg)
    requires Classified(cfg) && Never(cfg)
    ensures RequiresTest(cfg) <==> Tied(cfg, False)
    ensures ForbidsTest(cfg) <==> Tied(cfg, True)
  {
    match cfg
    case Group(All, operands) =>
      forall k | 0 <= k < |operands|
        ensures RequiresTest(operands[k]) <==>
                  if Never(operands[k]) then Tied(operands[k], False) else Fold(operands[k], False) == False
        ensures ForbidsTest(operands[k]) <==>
                  if Never(operands[k]) then Tied(operands[k], True) else Fold(operands[k], True) == False
        ensures Never(operands[k]) <==> Fold(operands[k], Unknown) == False
      {
        NeverAlwaysFold(operands[k]);
        if Never(operands[k]) {
          NeverTied(operands[k]);
        }
      }
    case Group(Any, operands) =>
    case Group(Not, operands) =>
      NeverAlwaysFold(operands[0]);
      FoldMonotone(operands[0], True);
      FoldMonotone(operands[0], False);
    case _ =>
  }

  // A `not` of what is classified right is safe, and complete, exactly when its operand says so.
  lemma NotClassified(cfg: Cfg)
    requires Classified(cfg)
    ensures FoldsSafely(Group(Not, [cfg])) <==> SafelyNegated(cfg)
    ensures FoldsFully(Group(Not, [cfg])) <==> FullyNegated(cfg)
  {
    NeverAlwaysFold(cfg);
    FoldMonotone(cfg, True);
    FoldMonotone(cfg, False);
    if Never(cfg) {
      NeverTied(cfg);
    }
    var negated := Group(Not, [cfg]);
    assert RequiresTest(negated) == ForbidsTest(cfg) && ForbidsTest(negated) == RequiresTest(cfg);
    assert Never(negated) == Always(cfg);
  }

  // An `all` or `any` of safe parts is safe, and of complete ones complete.
  lemma AllAnySafely(cfg: Cfg)
    requires cfg.Group? && cfg.operator != Not
    requires forall k :: 0 <= k < |cfg.operands| ==> FoldsSafely(cfg.operands[k])
    ensures FoldsSafely(cfg)
  {
    forall k | 0 <= k < |cfg.operands|
      ensures Never(cfg.operands[k]) ==> Fold(cfg.operands[k], True) == Fold(cfg.operands[k], False) == False
    {
      NeverAlwaysFold(cfg.operands[k]);
      FoldMonotone(cfg.operands[k], True);
      FoldMonotone(cfg.operands[k], False);
    }
  }

  lemma AllAnyFully(cfg: Cfg)
    requires cfg.Group? && cfg.operator != Not
    requires forall k :: 0 <= k < |cfg.operands| ==> FoldsFully(cfg.operands[k])
    ensures FoldsFully(cfg)
  {
  }

  // A predicate is classified right throughout exactly when all that it negates is negatable.
  lemma {:induction false} ClassifiedExactly(cfg: Cfg)
    ensures Classified(cfg) <==> WellNegated(cfg)
  {
    if cfg.Group? {
      forall k | 0 <= k < |cfg.operands|
        ensures Classified(cfg.operands[k]) <==> WellNegated(cfg.operands[k])
      {
        ClassifiedExactly(cfg.operands[k]);
      }
      if forall k :: 0 <= k < |cfg.operands| ==> Classified(cfg.operands[k]) {
        GroupClassified(cfg);
      }
    }
  }

  lemma GroupClassified(cfg: Cfg)
    requires cfg.Group?
    requires forall k :: 0 <= k < |cfg.operands| ==> Classified(cfg.operands[k])
    ensures Classified(cfg) <==> (cfg.operator == Not && |cfg.operands| == 1 ==> Negatable(cfg.operands[0]))
  {
    if cfg.operator != Not {
      AllAnySafely(cfg);
      AllAnyFully(cfg);
    } else if |cfg.operands| == 1 {
      NotClassified(cfg.operands[0]);
      assert cfg == Group(Not, [cfg.operands[0]]);
    }
  }

  // Then a predicate that requires `test` holds under no configuration without it, and one that
  // forbids it under none with it.
  lemma RequiresTestSound(cfg: Cfg, config: Config)
    requires WellNegated(cfg) && Eval(cfg, config)
    ensures RequiresTest(cfg) ==> config(TEST)
    ensures ForbidsTest(cfg) ==> !config(TEST)
  {
    ClassifiedExactly(cfg);
    FoldSound(cfg, if config(TEST) then True else False, config);
  }

  // A `not` over an option, or over such a `not`, is negatable.
  predicate Literal(cfg: Cfg) {
    match cfg
    case Setting(_, _) => true
    case Group(Not, operands) => |operands| == 1 && Literal(operands[0])
    case _ => false
  }

  predicate LiteralNegations(cfg: Cfg) {
    cfg.Group? ==>
      if cfg.operator == Not then Literal(cfg)
      else forall k :: 0 <= k < |cfg.operands| ==> LiteralNegations(cfg.operands[k])
  }

  lemma {:induction false} LiteralWellNegated(cfg: Cfg)
    requires Literal(cfg)
    ensures WellNegated(cfg) && Negatable(cfg) && !Never(cfg) && !Always(cfg)
  {
    if cfg.Group? {
      var operand := cfg.operands[0];
      LiteralWellNegated(operand);
      assert cfg == Group(Not, [operand]);
      NeverAlwaysFold(cfg);
    }
  }

  lemma {:induction false} LiteralNegationsWellNegated(cfg: Cfg)
    requires LiteralNegations(cfg)
    ensures WellNegated(cfg)
  {
    if cfg.Group? {
      if cfg.operator == Not {
        LiteralWellNegated(cfg);
      } else {
        forall k | 0 <= k < |cfg.operands| ensures WellNegated(cfg.operands[k]) {
          LiteralNegationsWellNegated(cfg.operands[k]);
        }
      }
    }
  }

  const UNIX := Setting("unix", None)

  lemma NotTestFold(test: Truth)
    ensures Fold(Group(Not, [TEST]), test) == match test case True => False case False => True case Unknown => Unknown
    ensures Fold(UNIX, test) == Unknown
  {
  }

  lemma PairFold(operator: Operator, test: Truth)
    requires operator != Not
    ensures var pair := Group(operator, [Group(Not, [TEST]), UNIX]);
            Fold(pair, test) == if operator == All && test == True then False
                                else if operator == Any && test == False then True else Unknown
  {
    var pair := Group(operator, [Group(Not, [TEST]), UNIX]);
    NotTestFold(test);
    assert pair.operands[0] == Group(Not, [TEST]) && pair.operands[1] == UNIX;
  }

  lemma PairNotNegatable(operator: Operator)
    requires operator != Not
    ensures !Negatable(Group(operator, [Group(Not, [TEST]), UNIX]))
  {
    PairFold(operator, True);
    PairFold(operator, False);
    PairFold(operator, Unknown);
  }

  // Elsewhere the classification fails either way: not(all(not(test), unix)) requires `test` by it and
  // holds without,
  lemma RequiresTestUnsound()
    ensures var cfg := Group(Not, [Group(All, [Group(Not, [TEST]), UNIX])]);
            RequiresTest(cfg) && Eval(cfg, _ => false) && !Negatable(cfg.operands[0])
  {
    var inner := Group(All, [Group(Not, [TEST]), UNIX]);
    PairNotNegatable(All);
    assert RequiresTest(TEST) && inner.operands[1] == UNIX;
    assert ForbidsTest(inner.operands[0]) && ForbidsTest(inner);
    assert !Eval(inner.operands[1], _ => false) && !Eval(inner, _ => false);
  }

  // and not(any(not(test), unix)) holds only with `test` and does not require it by the classification.
  lemma RequiresTestIncomplete(config: Config)
    ensures var cfg := Group(Not, [Group(Any, [Group(Not, [TEST]), UNIX])]);
            !RequiresTest(cfg) && (Eval(cfg, config) ==> config(TEST)) && !Negatable(cfg.operands[0])
  {
    var inner := Group(Any, [Group(Not, [TEST]), UNIX]);
    PairNotNegatable(Any);
    assert inner.operands[0] == Group(Not, [TEST]) && inner.operands[1] == UNIX;
    assert !Never(UNIX) && !ForbidsTest(UNIX) && !ForbidsTest(inner);
    assert Eval(inner.operands[0], config) == !Eval(TEST, config) == !config(TEST);
    assert Eval(inner.operands[0], config) ==> Eval(inner, config);
  }
}
