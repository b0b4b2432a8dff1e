/** Why no match is left: when the loop ends, no run on the stack can close another one there, although
    a failed search bounds the later ones by a key that leaves out whether their closer opens. */
module EmphasisSearch {
  import opened Options
  import opened Tags
  import opened Emphasis
  import opened EmphasisMatches

  // No closer of this key that can open, too, closes the run.
  ghost predicate Barred(run: Delimiter, key: (char, nat)) {
    run.opens && run.mark == key.0 ==> key.1 != 0 && (run.length + key.1) % 3 == 0
  }

  ghost predicate Inside(s: State) {
    s.current <= |s.stack| && forall i :: 0 <= i < |s.stack| ==> s.stack[i] < |s.runs|
  }

  // Searches fail below their bottoms,
  ghost predicate Bounded(s: State) requires Inside(s) {
    forall key, x :: key in s.bottoms && x in s.stack && x < s.bottoms[key] ==> Barred(s.runs[x], key)
  }

  // and a run before the current one that closes closes none before it.
  ghost predicate Done(s: State) requires Inside(s) {
    forall i, p :: 0 <= i < p < s.current && s.runs[s.stack[p]].closes ==>
      !Legal(s.runs[s.stack[i]], s.runs[s.stack[p]])
  }

  ghost predicate Searched(s: State) {
    Inside(s) && Bounded(s) && Done(s)
  }

  lemma UnmatchedBarred(s: State, i: nat)
    requires Shape(s) && i < s.current < |s.stack| && Searched(s)
    requires var closer := s.runs[s.stack[s.current]];
             Opener(s.runs, s.stack, closer, s.current, Bottom(s.bottoms, Key(closer))).None?
    ensures var run, closer := s.runs[s.stack[i]], s.runs[s.stack[s.current]];
            Barred(run, Key(closer)) && (closer.opens ==> !Legal(run, closer))
  {
  }

  // A run that a closer could use, although its search, from a bottom above, finds none: the search that
  // set the bottom was of a closer that opens, too, and so was held to the rule of three.
  ghost predicate Passed(run: Delimiter, closer: Delimiter, x: nat, bottom: nat) {
    !closer.opens && x < bottom && run.opens && !run.closes && run.mark == closer.mark
  }

  // Exactly such runs are passed over.
  lemma UnmatchedExactly(s: State, i: nat)
    requires Shape(s) && i < s.current < |s.stack| && Searched(s)
    requires var closer := s.runs[s.stack[s.current]];
             Opener(s.runs, s.stack, closer, s.current, Bottom(s.bottoms, Key(closer))).None?
    ensures var run, closer := s.runs[s.stack[i]], s.runs[s.stack[s.current]];
            Legal(run, closer) <==> Passed(run, closer, s.stack[i], Bottom(s.bottoms, Key(closer)))
  {
    UnmatchedBarred(s, i);
  }

  lemma UnmatchedBelow(s: State, x: nat)
    requires Shape(s) && s.current < |s.stack| && Searched(s) && x in s.stack && x < s.stack[s.current]
    requires var closer := s.runs[s.stack[s.current]];
             Opener(s.runs, s.stack, closer, s.current, Bottom(s.bottoms, Key(closer))).None?
    ensures Barred(s.runs[x], Key(s.runs[s.stack[s.current]]))
  {
  }

  lemma UnmatchedBounded(s: State)
    requires Shape(s) && s.current < |s.stack| && Searched(s)
    requires var closer := s.runs[s.stack[s.current]];
             Opener(s.runs, s.stack, closer, s.current, Bottom(s.bottoms, Key(closer))).None?
    ensures Inside(Unmatched(s)) && Bounded(Unmatched(s))
  {
    var t, key := Unmatched(s), Key(s.runs[s.stack[s.current]]);
    WithoutSubset(s.stack, s.current, s.current + 1);
    UnmatchedShape(s);
    forall x | x in t.stack && x < t.bottoms[key] ensures Barred(t.runs[x], key) {
      UnmatchedBelow(s, x);
    }
    forall k, x | k in t.bottoms && x in t.stack && x < t.bottoms[k] ensures Barred(t.runs[x], k) {
      if k != key {
        assert k in s.bottoms && t.bottoms[k] == s.bottoms[k];
      }
    }
  }

  lemma UnmatchedSearched(s: State)
    requires Shape(s) && s.current < |s.stack| && Searched(s)
    requires var closer := s.runs[s.stack[s.current]];
             Opener(s.runs, s.stack, closer, s.current, Bottom(s.bottoms, Key(closer))).None?
    ensures Searched(Unmatched(s))
  {
    UnmatchedBounded(s);
    var t := Unmatched(s);
    assert forall i :: 0 <= i < t.current ==> t.stack[i] == s.stack[i];
    forall i, p | 0 <= i < p < t.current && t.runs[t.stack[p]].closes
      ensures !Legal(t.runs[t.stack[i]], t.runs[t.stack[p]])
    {
      if p == s.current {
        UnmatchedBarred(s, i);
      } else {
        assert !Legal(s.runs[s.stack[i]], s.runs[s.stack[p]]);
      }
    }
  }

  // A match takes the search back to a part of the stack that it left as it was.
  ghost predicate Rewinds(s: State, t: State) {
    && |t.runs| == |s.runs|
    && (forall i :: 0 <= i < |s.runs| ==> t.runs[i].Original() == s.runs[i].Original())
    && t.bottoms == s.bottoms
    && (forall x :: x in t.stack ==> x in s.stack)
    && t.current <= s.current <= |s.stack| && t.current <= |t.stack|
    && (forall i :: 0 <= i < t.current ==> t.stack[i] == s.stack[i])
  }

  lemma RewindsSearched(s: State, t: State)
    requires Searched(s) && Rewinds(s, t)
    ensures Searched(t)
  {
    forall i | 0 <= i < |s.runs|
      ensures && t.runs[i].opens == s.runs[i].opens && t.runs[i].mark == s.runs[i].mark
              && t.runs[i].length == s.runs[i].length && t.runs[i].closes == s.runs[i].closes
    {
      assert t.runs[i].Original() == s.runs[i].Original();
    }
    forall i | 0 <= i < |t.stack| ensures t.stack[i] < |t.runs| {
      assert t.stack[i] in s.stack;
    }
    forall key, x | key in t.bottoms && x in t.stack && x < t.bottoms[key]
      ensures Barred(t.runs[x], key)
    {
      assert Barred(s.runs[x], key);
    }
    forall i, p | 0 <= i < p < t.current && t.runs[t.stack[p]].closes
      ensures !Legal(t.runs[t.stack[i]], t.runs[t.stack[p]])
    {
      assert !Legal(s.runs[s.stack[i]], s.runs[s.stack[p]]);
    }
  }

  lemma StruckRewinds(s: State, found: nat)
    requires Shape(s) && found < s.current < |s.stack|
    ensures Rewinds(s, Struck(Joined(s, found)))
  {
  }

  lemma PairedOriginals(s: State)
    requires Shape(s) && 1 <= s.current < |s.stack|
    ensures forall i :: 0 <= i < |s.runs| ==> Paired(s).runs[i].Original() == s.runs[i].Original()
  {
  }

  lemma PrunedRewinds(s: State)
    requires Inside(s) && 1 <= s.current < |s.stack|
    ensures Rewinds(s, Pruned(s)) && s.current - 1 <= Pruned(s).current
  {
  }

  lemma PairedRewinds(s: State, found: nat)
    requires Shape(s) && found < s.current < |s.stack|
    ensures Rewinds(s, Pruned(Paired(Joined(s, found))))
  {
    var j := Joined(s, found);
    WithoutSubset(s.stack, found + 1, s.current);
    PairedOriginals(j);
    var p := Paired(j);
    PrunedRewinds(p);
    var t := Pruned(p);
    assert forall i :: 0 <= i < t.current ==> t.stack[i] == p.stack[i] == j.stack[i] == s.stack[i];
  }

  lemma StepSearched(s: State)
    requires Shape(s) && s.current < |s.stack| && Searched(s)
    ensures Searched(Step(s))
  {
    var closer := s.runs[s.stack[s.current]];
    if closer.closes {
      match Opener(s.runs, s.stack, closer, s.current, Bottom(s.bottoms, Key(closer)))
      case None => UnmatchedSearched(s);
      case Some(found) =>
        if closer.mark == '~' {
          StruckRewinds(s, found);
        } else {
          PairedRewinds(s, found);
        }
        RewindsSearched(s, Step(s));
    }
  }
}
