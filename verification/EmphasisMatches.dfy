/** What every sequence of matches keeps: the characters of each run, the record of what its tags
    belong to, and that matches are legal, do not cross, and take two characters where they can. */
module EmphasisMatches {
  import opened Options
  import opened Tags
  import opened Emphasis

  // The characters that the elements of a run's matches use.
  function Weight(tags: seq<Tag>): nat {
    if tags == [] then 0
    else Weight(tags[..|tags| - 1]) + if tags[|tags| - 1] == Strong then 2 else 1
  }

  // Each character of an emphasis run is literal or used by one match, and a strikethrough run is
  // literal or wholly used by one match.
  ghost predicate Conserved(run: Delimiter) {
    if run.mark != '~'
    then run.count + Weight(run.starts) + Weight(run.ends) == run.length
    else || run == run.Original()
         || (run.count == 0 && run.starts == [Del] && run.ends == [])
         || (run.count == 0 && run.starts == [] && run.ends == [Del])
  }

  // The elements of the matches that the run at i opens, in order.
  function StartsOf(matches: seq<Match>, i: nat): seq<Tag> {
    if matches == [] then []
    else var last := matches[|matches| - 1];
      StartsOf(matches[..|matches| - 1], i) + if last.opener == i then [last.tag] else []
  }

  function EndsOf(matches: seq<Match>, i: nat): seq<Tag> {
    if matches == [] then []
    else var last := matches[|matches| - 1];
      EndsOf(matches[..|matches| - 1], i) + if last.closer == i then [last.tag] else []
  }

  ghost predicate Recorded(runs: seq<Delimiter>, matches: seq<Match>) {
    forall i :: 0 <= i < |runs| ==>
      runs[i].starts == StartsOf(matches, i) && runs[i].ends == EndsOf(matches, i)
  }

  ghost predicate LegalMatch(runs: seq<Delimiter>, m: Match) {
    && m.opener < m.closer < |runs|
    && runs[m.closer].closes
    && Legal(runs[m.opener], runs[m.closer])
    && (m.tag == Del <==> runs[m.closer].mark == '~')
    && m.tag != Anchor
  }

  // The later of two matches encloses the earlier, or they are apart.
  ghost predicate Uncrossed(earlier: Match, later: Match) {
    || (later.opener <= earlier.opener && earlier.closer <= later.closer)
    || later.closer <= earlier.opener
    || earlier.closer <= later.opener
  }

  // Two runs that match again match with two characters before.
  ghost predicate Greedy(earlier: Match, later: Match) {
    earlier.opener == later.opener && earlier.closer == later.closer ==> earlier.tag == Strong
  }

  // A match leaves nothing between its runs on the stack, and both of them only if it is strong.
  ghost predicate Settled(stack: seq<nat>, m: Match) {
    && (forall x :: x in stack ==> x <= m.opener || m.closer <= x)
    && (m.opener in stack && m.closer in stack ==> m.tag == Strong)
  }

  ghost predicate Orderly(s: State) {
    && (forall i :: 0 <= i < |s.runs| ==> Conserved(s.runs[i]))
    && (forall x :: x in s.stack ==>
          x < |s.runs| && (s.runs[x].mark == '~' ==> s.runs[x] == s.runs[x].Original()))
    && Recorded(s.runs, s.matches)
    && (forall m :: m in s.matches ==> LegalMatch(s.runs, m) && Settled(s.stack, m))
    && (forall a, b :: 0 <= a < b < |s.matches| ==>
          Uncrossed(s.matches[a], s.matches[b]) && Greedy(s.matches[a], s.matches[b]))
  }

  // A turn of the loop either only shrinks the stack or moves on,
  ghost predicate Idle(s: State, t: State) {
    && t.runs == s.runs
    && t.matches == s.matches
    && (forall x :: x in t.stack ==> x in s.stack)
  }

  // or makes one match, of the runs at o and c.
  ghost predicate Makes(s: State, t: State, m: Match, used: nat) {
    var o, c := m.opener, m.closer;
    && o in s.stack && c in s.stack && o < c < |s.runs|
    && s.runs[c].closes && Legal(s.runs[o], s.runs[c])
    && 1 <= used <= s.runs[o].count && used <= s.runs[c].count
    && t.runs == Use(s.runs, o, c, used, m.tag)
    && t.matches == s.matches + [m]
    && (forall x :: x in t.stack ==> x in s.stack && (x <= o || c <= x))
    && match m.tag
       case Del =>
         && s.runs[c].mark == '~' && used == s.runs[o].count == s.runs[c].count
         && o !in t.stack && c !in t.stack
       case Em => s.runs[c].mark != '~' && used == 1 && !(o in t.stack && c in t.stack)
       case Strong => s.runs[c].mark != '~' && used == 2
       case Anchor => false
  }

  lemma WithoutSubset(stack: seq<nat>, from: nat, to: nat)
    requires from <= to <= |stack|
    ensures forall x :: x in Without(stack, from, to) ==> x in stack
  {
  }

  lemma JoinedGap(s: State, found: nat)
    requires Shape(s) && found < s.current < |s.stack|
    ensures var j := Joined(s, found);
            forall x :: x in j.stack ==> x in s.stack && (x <= j.stack[found] || j.stack[found + 1] <= x)
  {
  }

  lemma StruckMakes(s: State)
    requires Shape(s) && 1 <= s.current < |s.stack|
    requires var o, c := s.stack[s.current - 1], s.stack[s.current];
             && s.runs[c].closes && Legal(s.runs[o], s.runs[c]) && s.runs[c].mark == '~'
             && forall x :: x in s.stack ==> x <= o || c <= x
    ensures var o, c := s.stack[s.current - 1], s.stack[s.current];
            if s.runs[o].count == s.runs[c].count
            then Makes(s, Struck(s), Match(o, c, Del), s.runs[c].count) else Idle(s, Struck(s))
  {
  }

  lemma PrunedSubset(s: State)
    requires 1 <= s.current < |s.stack|
    requires s.stack[s.current - 1] < |s.runs| && s.stack[s.current] < |s.runs|
    ensures forall x :: x in Pruned(s).stack ==> x in s.stack
  {
  }

  lemma StackCounts(s: State)
    requires Shape(s)
    ensures forall x :: x in s.stack ==> x < |s.runs| && s.runs[x].count >= 1
  {
  }

  lemma PairedMakes(s: State)
    requires Shape(s) && 1 <= s.current < |s.stack|
    requires var o, c := s.stack[s.current - 1], s.stack[s.current];
             && s.runs[c].closes && Legal(s.runs[o], s.runs[c]) && s.runs[c].mark != '~'
             && forall x :: x in s.stack ==> x <= o || c <= x
    ensures var o, c := s.stack[s.current - 1], s.stack[s.current];
            var used := if s.runs[o].count >= 2 && s.runs[c].count >= 2 then 2 else 1;
            Makes(s, Pruned(Paired(s)), Match(o, c, if used == 2 then Strong else Em), used)
  {
    PrunedShape(s);
    PrunedSubset(Paired(s));
    StackCounts(Pruned(Paired(s)));
  }

  lemma JoinedOutcome(s: State, j: State, t: State, m: Match, used: nat)
    requires j.runs == s.runs && j.matches == s.matches && forall x :: x in j.stack ==> x in s.stack
    ensures Idle(j, t) ==> Idle(s, t)
    ensures Makes(j, t, m, used) ==> Makes(s, t, m, used)
  {
  }

  ghost predicate Finds(s: State, found: nat) {
    && Shape(s) && found < s.current < |s.stack|
    && s.runs[s.stack[s.current]].closes && Legal(s.runs[s.stack[found]], s.runs[s.stack[s.current]])
  }

  lemma StruckOutcome(s: State, found: nat)
    requires Finds(s, found) && s.runs[s.stack[s.current]].mark == '~'
    ensures var j := Joined(s, found);
            var o, c := s.stack[found], s.stack[s.current];
            if s.runs[o].count == s.runs[c].count
            then Makes(s, Struck(j), Match(o, c, Del), s.runs[c].count) else Idle(s, Struck(j))
  {
    var j := Joined(s, found);
    JoinedGap(s, found);
    StruckMakes(j);
    JoinedOutcome(s, j, Struck(j), Match(s.stack[found], s.stack[s.current], Del), s.runs[s.stack[s.current]].count);
  }

  lemma PairedOutcome(s: State, found: nat)
    requires Finds(s, found) && s.runs[s.stack[s.current]].mark != '~'
    ensures var j := Joined(s, found);
            var o, c := s.stack[found], s.stack[s.current];
            var used := if s.runs[o].count >= 2 && s.runs[c].count >= 2 then 2 else 1;
            Makes(s, Pruned(Paired(j)), Match(o, c, if used == 2 then Strong else Em), used)
  {
    var j := Joined(s, found);
    var o, c := s.stack[found], s.stack[s.current];
    var used := if s.runs[o].count >= 2 && s.runs[c].count >= 2 then 2 else 1;
    JoinedGap(s, found);
    PairedMakes(j);
    JoinedOutcome(s, j, Pruned(Paired(j)), Match(o, c, if used == 2 then Strong else Em), used);
  }

  lemma MatchOutcome(s: State, found: nat) returns (m: Option<Match>, used: nat)
    requires Finds(s, found)
    ensures var j := Joined(s, found);
            var t := if s.runs[s.stack[s.current]].mark == '~' then Struck(j) else Pruned(Paired(j));
            (m.None? ==> Idle(s, t)) && (m.Some? ==> Makes(s, t, m.value, used))
  {
    m, used := None, 0;
    var o, c := s.stack[found], s.stack[s.current];
    if s.runs[c].mark == '~' {
      StruckOutcome(s, found);
      if s.runs[o].count == s.runs[c].count {
        m, used := Some(Match(o, c, Del)), s.runs[c].count;
      }
    } else {
      PairedOutcome(s, found);
      used := if s.runs[o].count >= 2 && s.runs[c].count >= 2 then 2 else 1;
      m := Some(Match(o, c, if used == 2 then Strong else Em));
    }
  }

  lemma StepOutcome(s: State) returns (m: Option<Match>, used: nat)
    requires Shape(s) && s.current < |s.stack|
    ensures m.None? ==> Idle(s, Step(s))
    ensures m.Some? ==> Makes(s, Step(s), m.value, used)
  {
    m, used := None, 0;
    var closer := s.runs[s.stack[s.current]];
    if closer.closes {
      match Opener(s.runs, s.stack, closer, s.current, Bottom(s.bottoms, Key(closer)))
      case None => WithoutSubset(s.stack, s.current, s.current + 1);
      case Some(found) => m, used := MatchOutcome(s, found);
    }
  }

  lemma UseRecorded(runs: seq<Delimiter>, matches: seq<Match>, m: Match, used: nat)
    requires m.opener < m.closer < |runs|
    requires used <= runs[m.opener].count && used <= runs[m.closer].count
    requires Recorded(runs, matches)
    ensures Recorded(Use(runs, m.opener, m.closer, used, m.tag), matches + [m])
  {
  }

  // What a match takes from a run that has its characters.
  ghost predicate Takes(run: Delimiter, used: nat, tag: Tag) {
    && Conserved(run) && used <= run.count
    && if run.mark == '~' then tag == Del && used == run.count && run == run.Original()
       else used == if tag == Strong then 2 else 1
  }

  lemma StartConserved(run: Delimiter, used: nat, tag: Tag)
    requires Takes(run, used, tag)
    ensures Conserved(run.(count := run.count - used, starts := run.starts + [tag]))
  {
  }

  lemma EndConserved(run: Delimiter, used: nat, tag: Tag)
    requires Takes(run, used, tag)
    ensures Conserved(run.(count := run.count - used, ends := run.ends + [tag]))
  {
  }

  lemma UseConserved(s: State, t: State, m: Match, used: nat)
    requires Orderly(s) && Makes(s, t, m, used)
    ensures forall i :: 0 <= i < |t.runs| ==> Conserved(t.runs[i])
  {
    StartConserved(s.runs[m.opener], used, m.tag);
    EndConserved(s.runs[m.closer], used, m.tag);
  }

  // Earlier matches stay legal and settled,
  lemma MakesKeeps(s: State, t: State, m: Match, used: nat, x: Match)
    requires Makes(s, t, m, used) && LegalMatch(s.runs, x) && Settled(s.stack, x)
    ensures LegalMatch(t.runs, x) && Settled(t.stack, x)
  {
  }

  // the new one is,
  lemma MakesLegal(s: State, t: State, m: Match, used: nat)
    requires Makes(s, t, m, used)
    ensures LegalMatch(t.runs, m) && Settled(t.stack, m)
  {
  }

  // and it crosses none of them.
  lemma MakesUncrossed(s: State, t: State, m: Match, used: nat, x: Match)
    requires Makes(s, t, m, used) && Settled(s.stack, x)
    ensures Uncrossed(x, m) && Greedy(x, m)
  {
  }

  lemma MakesMatches(s: State, t: State, m: Match, used: nat)
    requires Orderly(s) && Makes(s, t, m, used)
    ensures forall x :: x in t.matches ==> LegalMatch(t.runs, x) && Settled(t.stack, x)
    ensures forall a, b :: 0 <= a < b < |t.matches| ==>
              Uncrossed(t.matches[a], t.matches[b]) && Greedy(t.matches[a], t.matches[b])
  {
    forall x | x in t.matches ensures LegalMatch(t.runs, x) && Settled(t.stack, x) {
      if x in s.matches {
        MakesKeeps(s, t, m, used, x);
      } else {
        MakesLegal(s, t, m, used);
      }
    }
    MakesOrdered(s, t, m, used);
  }

  lemma MakesOrdered(s: State, t: State, m: Match, used: nat)
    requires Orderly(s) && Makes(s, t, m, used)
    ensures forall a, b :: 0 <= a < b < |t.matches| ==>
              Uncrossed(t.matches[a], t.matches[b]) && Greedy(t.matches[a], t.matches[b])
  {
    forall a, b | 0 <= a < b < |t.matches|
      ensures Uncrossed(t.matches[a], t.matches[b]) && Greedy(t.matches[a], t.matches[b])
    {
      if b == |s.matches| {
        assert s.matches[a] in s.matches;
        MakesUncrossed(s, t, m, used, s.matches[a]);
      } else {
        assert Uncrossed(s.matches[a], s.matches[b]) && Greedy(s.matches[a], s.matches[b]);
      }
    }
  }

  lemma MakesOrderly(s: State, t: State, m: Match, used: nat)
    requires Orderly(s) && Makes(s, t, m, used)
    ensures Orderly(t)
  {
    UseRecorded(s.runs, s.matches, m, used);
    UseConserved(s, t, m, used);
    MakesMatches(s, t, m, used);
  }

  lemma IdleOrderly(s: State, t: State)
    requires Orderly(s) && Idle(s, t)
    ensures Orderly(t)
  {
  }

  lemma StepOrderly(s: State)
    requires Shape(s) && s.current < |s.stack| && Orderly(s)
    ensures Orderly(Step(s))
  {
    var m, used := StepOutcome(s);
    if m.Some? {
      MakesOrderly(s, Step(s), m.value, used);
    } else {
      IdleOrderly(s, Step(s));
    }
  }
}
