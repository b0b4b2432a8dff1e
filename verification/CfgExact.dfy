/** When the classification of a predicate says exactly what every configuration says: three-valued
    evaluation decides a predicate none of whose options but `test` occurs twice. */
module CfgExact {
  import opened Cfgs
  import opened CfgMeaning

  // What a configuration decides of a predicate by itself, besides `test`.
  function Atoms(cfg: Cfg): set<Cfg> {
    if !cfg.Group? || (cfg.operator == Not && |cfg.operands| != 1) then (if cfg == TEST then {} else {cfg})
    else AtomsOf(cfg.operands)
  }

  function AtomsOf(operands: seq<Cfg>): set<Cfg> {
    if operands == [] then {} else Atoms(operands[0]) + AtomsOf(operands[1..])
  }

  // No two parts share one.
  predicate ReadOnce(cfg: Cfg) {
    cfg.Group? ==> ReadOnceAll(cfg.operands)
  }

  predicate ReadOnceAll(operands: seq<Cfg>) {
    operands != [] ==>
      && ReadOnce(operands[0]) && ReadOnceAll(operands[1..]) && Atoms(operands[0]) !! AtomsOf(operands[1..])
  }

  lemma {:induction false} ReadOncePart(operands: seq<Cfg>, k: nat)
    requires ReadOnceAll(operands) && k < |operands|
    ensures ReadOnce(operands[k])
  {
    if k > 0 {
      ReadOncePart(operands[1..], k - 1);
    }
  }

  lemma {:induction false} AtomsPart(operands: seq<Cfg>, k: nat)
    requires k < |operands|
    ensures Atoms(operands[k]) <= AtomsOf(operands)
  {
    if k > 0 {
      AtomsPart(operands[1..], k - 1);
    }
  }

  ghost predicate SameOn(atoms: set<Cfg>, a: Config, b: Config) {
    a(TEST) == b(TEST) && forall x :: x in atoms ==> a(x) == b(x)
  }

  // A predicate speaks of its atoms and `test` alone.
  lemma {:induction false} EvalFrame(cfg: Cfg, a: Config, b: Config)
    requires SameOn(Atoms(cfg), a, b)
    ensures Eval(cfg, a) <==> Eval(cfg, b)
  {
    if cfg.Group? && !(cfg.operator == Not && |cfg.operands| != 1) {
      forall k | 0 <= k < |cfg.operands| ensures Eval(cfg.operands[k], a) <==> Eval(cfg.operands[k], b) {
        AtomsPart(cfg.operands, k);
        EvalFrame(cfg.operands[k], a, b);
      }
    }
  }

  function Constant(value: bool): Truth {
    if value then True else False
  }

  // What does not fold to the contrary has a value under some configuration.
  lemma {:induction false} Realize(cfg: Cfg, test: bool, value: bool) returns (config: Config)
    requires ReadOnce(cfg) && Fold(cfg, Constant(test)) != Constant(!value)
    ensures config(TEST) == test && Eval(cfg, config) == value
    decreases cfg, 0
  {
    var plain: Config := x => if x == TEST then test else value;
    match cfg
    case Group(Not, operands) =>
      if |operands| == 1 {
        ReadOncePart(operands, 0);
        config := Realize(operands[0], test, !value);
      } else {
        config := plain;
      }
    case Group(operator, operands) =>
      // An `all` is true, and an `any` false, where all its operands are.
      if value == (operator == All) {
        config := RealizeAll(operands, test, value);
      } else {
        var k :| 0 <= k < |operands| && Fold(operands[k], Constant(test)) != Constant(!value);
        ReadOncePart(operands, k);
        config := Realize(operands[k], test, value);
      }
    case _ =>
      config := plain;
  }

  lemma {:induction false} RealizeAll(operands: seq<Cfg>, test: bool, value: bool) returns (config: Config)
    requires ReadOnceAll(operands)
    requires forall k :: 0 <= k < |operands| ==> Fold(operands[k], Constant(test)) != Constant(!value)
    ensures config(TEST) == test
    ensures forall k :: 0 <= k < |operands| ==> Eval(operands[k], config) == value
    decreases operands, 0
  {
    if operands == [] {
      config := x => test;
    } else {
      var first := Realize(operands[0], test, value);
      var rest := RealizeAll(operands[1..], test, value);
      config := Joined(operands, first, rest);
      JoinedRealizes(operands, first, rest, value);
    }
  }

  // One configuration on the atoms of the first operand, and another elsewhere.
  ghost function Joined(operands: seq<Cfg>, first: Config, rest: Config): Config
    requires operands != []
  {
    var atoms := Atoms(operands[0]);
    (x: Cfg) => if x in atoms then first(x) else rest(x)
  }

  lemma {:induction false} TestIsNoAtom(operands: seq<Cfg>)
    ensures TEST !in AtomsOf(operands)
  {
    if operands != [] {
      TestIsNoAtom(operands[1..]);
      if operands[0].Group? {
        TestIsNoAtom(operands[0].operands);
      }
    }
  }

  lemma JoinedRealizes(operands: seq<Cfg>, first: Config, rest: Config, value: bool)
    requires operands != [] && ReadOnceAll(operands) && first(TEST) == rest(TEST)
    requires Eval(operands[0], first) == value
    requires forall k :: 0 <= k < |operands| - 1 ==> Eval(operands[1..][k], rest) == value
    ensures forall k :: 0 <= k < |operands| ==> Eval(operands[k], Joined(operands, first, rest)) == value
    ensures Joined(operands, first, rest)(TEST) == rest(TEST)
  {
    var config := Joined(operands, first, rest);
    TestIsNoAtom([operands[0]]);
    EvalFrame(operands[0], config, first);
    forall k | 1 <= k < |operands| ensures Eval(operands[k], config) == value {
      AtomsPart(operands[1..], k - 1);
      assert operands[1..][k - 1] == operands[k];
      EvalFrame(operands[k], config, rest);
    }
  }

  // A predicate holds only with `test`, or only without, whatever the configuration.
  ghost predicate NeedsTest(cfg: Cfg) {
    forall config: Config :: Eval(cfg, config) ==> config(TEST)
  }

  ghost predicate NeedsNoTest(cfg: Cfg) {
    forall config: Config :: Eval(cfg, config) ==> !config(TEST)
  }

  // Folding decides exactly that.
  lemma FoldExact(cfg: Cfg)
    requires ReadOnce(cfg)
    ensures NeedsTest(cfg) <==> Fold(cfg, False) == False
    ensures NeedsNoTest(cfg) <==> Fold(cfg, True) == False
  {
    forall config: Config | Eval(cfg, config)
      ensures Fold(cfg, False) == False ==> config(TEST)
      ensures Fold(cfg, True) == False ==> !config(TEST)
    {
      FoldSound(cfg, if config(TEST) then True else False, config);
    }
    if Fold(cfg, False) != False {
      var config := Realize(cfg, false, true);
    }
    if Fold(cfg, True) != False {
      var config := Realize(cfg, true, true);
    }
  }

  // The classifications say nothing false of a predicate,
  ghost predicate Safe(cfg: Cfg) {
    (RequiresTest(cfg) ==> NeedsTest(cfg)) && (ForbidsTest(cfg) ==> NeedsNoTest(cfg))
  }

  // and leave nothing out, unless it is seen that it never holds.
  ghost predicate Full(cfg: Cfg) {
    (NeedsTest(cfg) ==> RequiresTest(cfg) || Never(cfg)) && (NeedsNoTest(cfg) ==> ForbidsTest(cfg) || Never(cfg))
  }

  ghost predicate RightThroughout(cfg: Cfg) {
    && Safe(cfg) && Full(cfg)
    && (cfg.Group? ==> forall k :: 0 <= k < |cfg.operands| ==> RightThroughout(cfg.operands[k]))
  }

  // Under every configuration, the classifications are right throughout a predicate exactly when all
  // that it negates is negatable.
  lemma {:induction false} RightExactly(cfg: Cfg)
    requires ReadOnce(cfg)
    ensures RightThroughout(cfg) <==> WellNegated(cfg)
  {
    ClassifiedExactly(cfg);
    RightFolds(cfg);
  }

  lemma {:induction false} RightFolds(cfg: Cfg)
    requires ReadOnce(cfg)
    ensures RightThroughout(cfg) <==> Classified(cfg)
  {
    FoldExact(cfg);
    if cfg.Group? {
      forall k | 0 <= k < |cfg.operands|
        ensures RightThroughout(cfg.operands[k]) <==> Classified(cfg.operands[k])
      {
        ReadOncePart(cfg.operands, k);
        RightFolds(cfg.operands[k]);
      }
    }
  }

  // A `not` that no other `not` is around.
  predicate Negates(cfg: Cfg) {
    cfg.Group? && cfg.operator == Not && |cfg.operands| == 1
  }

  predicate Joins(cfg: Cfg) {
    cfg.Group? && cfg.operator != Not
  }

  // A `not` goes by the classification of its operand. It says nothing false if the operand folds to true
  // wherever it is then said to be false,
  ghost predicate SafelyDenied(cfg: Cfg) {
    && (RequiresTest(cfg) ==> Fold(cfg, True) == True)
    && (ForbidsTest(cfg) ==> Fold(cfg, False) == True)
  }

  // and leaves nothing out if the operand is classified where it folds to true.
  ghost predicate FullyDenied(cfg: Cfg) {
    && (Fold(cfg, True) == True ==> RequiresTest(cfg) || Always(cfg))
    && (Fold(cfg, False) == True ==> ForbidsTest(cfg) || Always(cfg))
  }

  // Over an operand that is classified right, folding alone decides both.
  lemma DeniedFolds(cfg: Cfg)
    requires WellNegated(cfg)
    ensures SafelyDenied(cfg) <==> SafelyNegated(cfg)
    ensures FullyDenied(cfg) <==> FullyNegated(cfg)
  {
    ClassifiedExactly(cfg);
    NotClassified(cfg);
    NotDenies(cfg);
  }

  lemma NotDenies(cfg: Cfg)
    ensures FoldsSafely(Group(Not, [cfg])) <==> SafelyDenied(cfg)
    ensures FoldsFully(Group(Not, [cfg])) <==> FullyDenied(cfg)
  {
    var negated := Group(Not, [cfg]);
    assert RequiresTest(negated) == ForbidsTest(cfg) && ForbidsTest(negated) == RequiresTest(cfg);
    assert Never(negated) == Always(cfg);
  }

  ghost predicate AllSafelyDenied(cfg: Cfg) {
    && (Negates(cfg) ==> SafelyDenied(cfg.operands[0]))
    && (Joins(cfg) ==> forall k :: 0 <= k < |cfg.operands| ==> AllSafelyDenied(cfg.operands[k]))
  }

  ghost predicate AllFullyDenied(cfg: Cfg) {
    && (Negates(cfg) ==> FullyDenied(cfg.operands[0]))
    && (Joins(cfg) ==> forall k :: 0 <= k < |cfg.operands| ==> AllFullyDenied(cfg.operands[k]))
  }

  ghost predicate SafeThroughout(cfg: Cfg) {
    Safe(cfg) && (Joins(cfg) ==> forall k :: 0 <= k < |cfg.operands| ==> SafeThroughout(cfg.operands[k]))
  }

  ghost predicate FullThroughout(cfg: Cfg) {
    Full(cfg) && (Joins(cfg) ==> forall k :: 0 <= k < |cfg.operands| ==> FullThroughout(cfg.operands[k]))
  }

  // Each direction has its own condition: nothing false is said of a predicate and its joined parts exactly
  // when each such `not` is safe,
  lemma {:induction false} SafeExactly(cfg: Cfg)
    requires ReadOnce(cfg)
    ensures SafeThroughout(cfg) <==> AllSafelyDenied(cfg)
  {
    FoldExact(cfg);
    if Negates(cfg) {
      NotDenies(cfg.operands[0]);
      assert cfg == Group(Not, [cfg.operands[0]]);
    } else if Joins(cfg) {
      forall k | 0 <= k < |cfg.operands|
        ensures SafeThroughout(cfg.operands[k]) <==> AllSafelyDenied(cfg.operands[k])
        ensures SafeThroughout(cfg.operands[k]) ==> FoldsSafely(cfg.operands[k])
      {
        ReadOncePart(cfg.operands, k);
        SafeExactly(cfg.operands[k]);
        FoldExact(cfg.operands[k]);
      }
      if forall k :: 0 <= k < |cfg.operands| ==> SafeThroughout(cfg.operands[k]) {
        AllAnySafely(cfg);
      }
    }
  }

  // and nothing is left out exactly when each is full.
  lemma {:induction false} FullExactly(cfg: Cfg)
    requires ReadOnce(cfg)
    ensures FullThroughout(cfg) <==> AllFullyDenied(cfg)
  {
    FoldExact(cfg);
    if Negates(cfg) {
      NotDenies(cfg.operands[0]);
      assert cfg == Group(Not, [cfg.operands[0]]);
    } else if Joins(cfg) {
      forall k | 0 <= k < |cfg.operands|
        ensures FullThroughout(cfg.operands[k]) <==> AllFullyDenied(cfg.operands[k])
        ensures FullThroughout(cfg.operands[k]) ==> FoldsFully(cfg.operands[k])
      {
        ReadOncePart(cfg.operands, k);
        FullExactly(cfg.operands[k]);
        FoldExact(cfg.operands[k]);
      }
      if forall k :: 0 <= k < |cfg.operands| ==> FullThroughout(cfg.operands[k]) {
        AllAnyFully(cfg);
      }
    }
  }

  // An option that occurs twice may decide what folding does not: any(test, all(unix, not(unix))) holds
  // only with `test`, and is not said to, although all that it negates is negatable.
  lemma TwiceUnseen()
    ensures var cfg := Group(Any, [TEST, Group(All, [UNIX, Group(Not, [UNIX])])]);
            NeedsTest(cfg) && !RequiresTest(cfg) && !Never(cfg) && LiteralNegations(cfg) && !ReadOnce(cfg)
  {
    var negated := Group(Not, [UNIX]);
    var inner := Group(All, [UNIX, negated]);
    var cfg := Group(Any, [TEST, inner]);
    assert negated.operands[0] == UNIX && inner.operands[0] == UNIX && inner.operands[1] == negated;
    assert cfg.operands[0] == TEST && cfg.operands[1] == inner;
    assert !Never(UNIX) && !Always(UNIX) && !Never(negated) && !Never(inner);
    assert !RequiresTest(UNIX) && !RequiresTest(negated) && !RequiresTest(inner);
    assert Literal(UNIX) && Literal(negated) && LiteralNegations(inner) && LiteralNegations(TEST);
    forall config: Config ensures !Eval(inner, config) {
      assert Eval(inner.operands[0], config) <==> !Eval(inner.operands[1], config);
    }
    assert inner.operands[1..] == [negated] && cfg.operands[1..] == [inner];
    assert Atoms(UNIX) == {UNIX} && UNIX in AtomsOf([UNIX]) && Atoms(negated) == AtomsOf([UNIX]);
    assert AtomsOf([negated]) == Atoms(negated) + AtomsOf([]);
    assert !ReadOnceAll(inner.operands) && !ReadOnce(inner) && !ReadOnceAll([inner]);
  }
}
