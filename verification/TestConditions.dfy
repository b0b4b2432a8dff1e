/** Conditions under which code compiles only for tests. */
module TestConditions {
  import opened Options
  import opened Brackets
  import opened Cfgs
  import opened CfgMeaning
  import opened CfgExact
  import opened CfgConjuncts
  import C = Conditions

  // A rendered predicate requires `test`; one that does not read requires nothing.
  predicate Requires(text: seq<Token>) {
    match Read(text)
    case Some(cfg) => RequiresTest(cfg)
    case None => false
  }

  // There are ways, and each has such a predicate.
  predicate RequireTest(conditions: Option<set<set<seq<Token>>>>) {
    && conditions.Some? && conditions.value != {}
    && forall way :: way in conditions.value ==> exists text :: text in way && Requires(text)
  }

  // Code of some ways compiles under a configuration,
  ghost predicate Compiles(ways: set<set<seq<Token>>>, config: Config) {
    C.Compiles(ways, text => Holds(text, config))
  }

  // and only under those with `test`.
  ghost predicate OnlyTested(ways: set<set<seq<Token>>>) {
    forall config: Config :: Compiles(ways, config) ==> config(TEST)
  }

  // Code of such conditions compiles under no configuration without `test`, if the predicates that are said to
  // require it fold to false without it.
  lemma RequireTestSound(conditions: Option<set<set<seq<Token>>>>, config: Config)
    requires RequireTest(conditions)
    requires forall way, text :: way in conditions.value && text in way && Requires(text) ==> FoldsAway(text)
    requires Compiles(conditions.value, config)
    ensures config(TEST)
  {
    var way :| way in conditions.value && C.AllHold(way, text => Holds(text, config));
    var text :| text in way && Requires(text);
    assert Holds(text, config) && FoldsAway(text);
    if !config(TEST) {
      FoldSound(Read(text).value, False, config);
    }
  }

  ghost predicate FoldsAway(text: seq<Token>) {
    Read(text).Some? && Fold(Read(text).value, False) == False
  }

  // Where all that a predicate negates is negatable, one that is said to require `test` does;
  lemma RequiresFoldsAway(text: seq<Token>)
    requires Requires(text) && WellNegated(Read(text).value)
    ensures FoldsAway(text)
  {
    ClassifiedExactly(Read(text).value);
  }

  // and code of one predicate, none of whose options but `test` occurs twice, is said to require `test` if the
  // predicate is, and compiles only with it exactly if the predicate folds to false without.
  lemma RequireTestExactly(cfg: Cfg)
    requires Proper(cfg) && ReadOnce(cfg)
    ensures RequireTest(Some({{Render(cfg)}})) <==> RequiresTest(cfg)
    ensures OnlyTested({{Render(cfg)}}) <==> FoldsAway(Render(cfg))
  {
    RequireOne(cfg);
    OnlyTestedOne(cfg);
    FoldExact(cfg);
    ReadRender(cfg);
  }

  lemma RequireOne(cfg: Cfg)
    requires Proper(cfg)
    ensures RequireTest(Some({{Render(cfg)}})) <==> RequiresTest(cfg)
  {
    RequiresRendered(cfg);
    assert Render(cfg) in {Render(cfg)};
  }

  lemma OnlyTestedOne(cfg: Cfg)
    requires Proper(cfg)
    ensures OnlyTested({{Render(cfg)}}) <==> NeedsTest(cfg)
  {
    forall config: Config ensures Compiles({{Render(cfg)}}, config) <==> Eval(cfg, config) {
      CompilesOne(cfg, config);
    }
  }

  lemma CompilesOne(cfg: Cfg, config: Config)
    requires Proper(cfg)
    ensures Compiles({{Render(cfg)}}, config) <==> Eval(cfg, config)
  {
    ReadRender(cfg);
    var way := {Render(cfg)};
    assert Render(cfg) in way && way in {way};
    assert C.AllHold(way, text => Holds(text, config)) <==> Holds(Render(cfg), config);
  }

  // And what was rendered from such a predicate reads as it.
  lemma RequiresRendered(cfg: Cfg)
    requires Proper(cfg)
    ensures Requires(Render(cfg)) <==> RequiresTest(cfg)
  {
    ReadRender(cfg);
  }
}
