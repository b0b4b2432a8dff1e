/** A match that is missed: the runs of `*a**b**c**`, whose last one could close the first. */
module EmphasisMissed {
  import opened Options
  import opened Tags
  import opened Emphasis
  import opened EmphasisSearch
  import opened EmphasisLaws

  const OPENER := Delimiter('*', 1, true, false, 1, [], [])
  const BOTH := Delimiter('*', 2, true, true, 2, [], [])
  const CLOSER := Delimiter('*', 2, false, true, 2, [], [])
  const RUNS := [OPENER, BOTH, CLOSER, CLOSER]

  // The second run, which opens, too, is held to the rule of three, and bounds the searches of its key.
  const BOUNDED := State(RUNS, [0, 1, 2, 3], map[('*', 2) := 1], 2, [])

  // Once the third has used it up, the fourth is left with the first.
  const USED := [OPENER, BOTH.(count := 0, starts := [Strong]), CLOSER.(count := 0, ends := [Strong]), CLOSER]
  const LEFT := State(USED, [0, 3], map[('*', 2) := 1], 1, [Match(1, 2, Strong)])

  const SCANNED := State(RUNS, [0, 1, 2, 3], map[], 0, [])
  const STATES := [SCANNED, SCANNED.(current := 1), BOUNDED, LEFT]

  lemma FirstTurn()
    ensures Shape(SCANNED) && Step(SCANNED) == SCANNED.(current := 1) && Initial(RUNS) == SCANNED
  {
  }

  lemma SecondTurn()
    ensures Shape(STATES[1]) && Step(STATES[1]) == BOUNDED
  {
    var s := STATES[1];
    assert Key(BOTH) == ('*', 2) && !Legal(OPENER, BOTH);
    assert Opener(s.runs, s.stack, BOTH, 0, 0) == None;
    assert Opener(s.runs, s.stack, BOTH, 1, 0) == None;
    assert Step(s) == Unmatched(s);
  }

  lemma ThirdTurn()
    ensures Shape(BOUNDED) && Step(BOUNDED) == LEFT
  {
    var s := BOUNDED;
    assert Key(CLOSER) == ('*', 2) && Legal(BOTH, CLOSER);
    assert Opener(s.runs, s.stack, CLOSER, 2, 1) == Some(1);
    assert Without(s.stack, 2, 2) == s.stack && Joined(s, 1) == s;
    ThirdMatch();
  }

  lemma ThirdMatch()
    ensures Shape(BOUNDED) && Pruned(Paired(BOUNDED)) == LEFT
  {
    var s, p := BOUNDED, Paired(BOUNDED);
    assert [] + [Strong] == [Strong];
    assert p.runs == Use(s.runs, 1, 2, 2, Strong) == USED;
    assert p.matches == [Match(1, 2, Strong)];
    assert Without(p.stack, 1, 2) == [0, 2, 3];
    assert OpenerPruned(p) == p.(stack := [0, 2, 3], current := 1);
    assert Without([0, 2, 3], 1, 2) == [0, 3];
  }

  lemma LastTurn()
    ensures EmphasisLaws.Fails(LEFT) && Step(LEFT).stack == [0] && Step(LEFT).current == 1
  {
    assert Key(CLOSER) == ('*', 2) && Bottom(LEFT.bottoms, Key(CLOSER)) == 1;
    assert Opener(LEFT.runs, LEFT.stack, CLOSER, 1, 1) == None;
    assert Step(LEFT) == Unmatched(LEFT);
    assert Without(LEFT.stack, 1, 2) == [0];
  }

  lemma EachTurn(k: nat)
    requires k < 3
    ensures Turn(STATES, k)
  {
    if k == 0 {
      FirstTurn();
    } else if k == 1 {
      SecondTurn();
    } else {
      ThirdTurn();
    }
  }

  // The search of the last run fails, and drops it, although the first is legal for it, unused, and apart
  // from every match.
  lemma MatchMissed()
    ensures AllFresh(RUNS) && Trace(RUNS, STATES) && EmphasisLaws.Fails(LEFT)
    ensures Legal(RUNS[0], RUNS[3]) && LEFT.runs[0] == RUNS[0] && LEFT.runs[3] == RUNS[3]
    ensures Passed(RUNS[0], RUNS[3], 0, Bottom(LEFT.bottoms, Key(RUNS[3])))
    ensures Step(LEFT).stack == [0] && Step(LEFT).current == 1
  {
    LastTurn();
    assert Initial(RUNS) == SCANNED;
    forall k | 0 <= k < 3 ensures Turn(STATES, k) {
      EachTurn(k);
    }
  }
}
