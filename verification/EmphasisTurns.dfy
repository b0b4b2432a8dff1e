/** What each turn of matching does, said of the state before it and the state after it alone, and which runs
    leave the stack with characters that no match uses. */
module EmphasisTurns {
  import opened Options
  import opened Tags
  import opened Emphasis
  import opened EmphasisMatches
  import opened EmphasisSearch
  import opened EmphasisLaws

  // The run at hand, which tries to close another.
  function Closer(s: State): nat
    requires s.current < |s.stack|
  {
    s.stack[s.current]
  }

  ghost predicate Trying(s: State) {
    Shape(s) && s.current < |s.stack| && s.runs[Closer(s)].closes
  }

  // The run at a position of the stack is one that it closes, at or above the bound of its searches,
  ghost predicate Reachable(s: State, i: nat)
    requires Trying(s)
  {
    var closer := s.runs[Closer(s)];
    i < s.current && Bottom(s.bottoms, Key(closer)) <= s.stack[i] && Legal(s.runs[s.stack[i]], closer)
  }

  // and no nearer one is.
  ghost predicate Nearest(s: State, i: nat)
    requires Trying(s)
  {
    Reachable(s, i) && forall k :: i < k < s.current ==> !Reachable(s, k)
  }

  // The element that two runs make, if any: strikethrough only if they have as many characters left.
  function Element(opener: Delimiter, closer: Delimiter): Option<Tag> {
    if closer.mark == '~' then (if opener.count == closer.count then Some(Del) else None)
    else Some(if opener.count >= 2 && closer.count >= 2 then Strong else Em)
  }

  // The characters of either run that it uses.
  function Cost(tag: Tag, closer: Delimiter): nat {
    match tag
    case Del => closer.count
    case Strong => 2
    case _ => 1
  }

  // A match of the nearest run: exactly one element of the two, or none.
  ghost predicate Joins(s: State, t: State, o: nat, c: nat)
    requires o < c < |s.runs|
  {
    match Element(s.runs[o], s.runs[c])
    case None => t.runs == s.runs && t.matches == s.matches
    case Some(tag) =>
      var used := Cost(tag, s.runs[c]);
      && used <= s.runs[o].count && used <= s.runs[c].count
      && t.matches == s.matches + [Match(o, c, tag)]
      && t.runs == Use(s.runs, o, c, used, tag)
  }

  // It leaves on the stack what is outside the two, and of them those that have characters left, unless it
  // is of strikethrough; and goes on at the closer, or else after it.
  ghost predicate Clears(s: State, t: State, o: nat, c: nat) {
    && |t.runs| == |s.runs| && Shape(t)
    && (forall x :: x in t.stack <==> x in s.stack && Remains(t.runs, x, o, c))
    && (forall i :: 0 <= i < |t.stack| ==> (i < t.current <==> t.stack[i] < c))
  }

  predicate Remains(runs: seq<Delimiter>, x: nat, o: nat, c: nat) {
    x < o || c < x || ((x == o || x == c) && x < |runs| && runs[x].mark != '~' && runs[x].count >= 1)
  }

  // What a turn does.
  ghost predicate Turned(s: State, t: State)
    requires Shape(s) && s.current < |s.stack|
  {
    var c := Closer(s);
    if !s.runs[c].closes then t == s.(current := s.current + 1)
    else if exists i :: 0 <= i < s.current && Nearest(s, i) then
      && t.bottoms == s.bottoms
      && (forall i :: 0 <= i < s.current && Nearest(s, i) ==> Joins(s, t, s.stack[i], c) && Clears(s, t, s.stack[i], c))
    else
      && t.runs == s.runs && t.matches == s.matches && t.bottoms == s.bottoms[Key(s.runs[c]) := c] && Shape(t)
      && (forall x :: x in t.stack <==> x in s.stack && (x != c || s.runs[c].opens))
      && t.current == if s.runs[c].opens then s.current + 1 else s.current
  }

  // The search finds the nearest run, exactly if there is one.
  lemma OpenerNearest(s: State)
    requires Trying(s)
    ensures var closer := s.runs[Closer(s)];
            var found := Opener(s.runs, s.stack, closer, s.current, Bottom(s.bottoms, Key(closer)));
            && (found.Some? ==> Nearest(s, found.value))
            && (forall i :: 0 <= i < s.current && Nearest(s, i) ==> found == Some(i))
  {
    var closer := s.runs[Closer(s)];
    var found := Opener(s.runs, s.stack, closer, s.current, Bottom(s.bottoms, Key(closer)));
    var last := if found.Some? then found.value else -1;
    forall k | last < k < s.current ensures !Reachable(s, k) {
      assert !(Bottom(s.bottoms, Key(closer)) <= s.stack[k] && Legal(s.runs[s.stack[k]], closer));
    }
    if found.Some? {
      assert Reachable(s, found.value);
    }
  }

  lemma UnmatchedTurned(s: State)
    requires Trying(s)
    ensures var t := Unmatched(s);
            && Shape(t) && forall x :: x in t.stack <==> x in s.stack && (x != Closer(s) || s.runs[Closer(s)].opens)
  {
    UnmatchedShape(s);
    if !s.runs[Closer(s)].opens {
      WithoutMembers(s.stack, s.current, s.current + 1);
    }
  }

  // What stays of a stack without a part of it.
  lemma WithoutMembers(stack: seq<nat>, from: nat, to: nat)
    requires Increasing(stack) && from <= to <= |stack|
    ensures forall x :: x in Without(stack, from, to) <==> x in stack && forall i :: from <= i < to ==> x != stack[i]
  {
    var rest := Without(stack, from, to);
    forall x | x in stack && forall i :: from <= i < to ==> x != stack[i] ensures x in rest {
      var k :| 0 <= k < |stack| && stack[k] == x;
      assert rest[if k < from then k else k - (to - from)] == x;
    }
    forall x | x in rest ensures x in stack && forall i :: from <= i < to ==> x != stack[i] {
      var k :| 0 <= k < |rest| && rest[k] == x;
      assert x == stack[if k < from then k else k + to - from];
    }
  }

  lemma JoinedMembers(s: State, found: nat)
    requires Shape(s) && found < s.current < |s.stack|
    ensures var j := Joined(s, found);
            forall x :: x in j.stack <==> x in s.stack && (x <= s.stack[found] || s.stack[s.current] <= x)
  {
    WithoutMembers(s.stack, found + 1, s.current);
    forall x | x in s.stack ensures
      (x <= s.stack[found] || s.stack[s.current] <= x) <==> forall i :: found + 1 <= i < s.current ==> x != s.stack[i]
    {
      var k :| 0 <= k < |s.stack| && s.stack[k] == x;
    }
  }

  // The two runs of a match, next to one another on the stack.
  ghost predicate Adjoined(s: State, j: State, o: nat, c: nat) {
    && Shape(j) && 1 <= j.current < |j.stack| && j.stack[j.current - 1] == o && j.stack[j.current] == c
    && j.runs == s.runs && j.matches == s.matches && j.bottoms == s.bottoms
    && (forall x :: x in j.stack <==> x in s.stack && (x <= o || c <= x))
  }

  lemma StruckTurned(s: State, j: State, o: nat, c: nat)
    requires Adjoined(s, j, o, c) && s.runs[c].mark == '~' == s.runs[o].mark
    ensures Joins(s, Struck(j), o, c) && Clears(s, Struck(j), o, c) && Struck(j).bottoms == s.bottoms
  {
    StruckProgress(j);
    WithoutMembers(j.stack, j.current - 1, j.current + 1);
    var t := Struck(j);
    forall x ensures x in t.stack <==> x in s.stack && Remains(t.runs, x, o, c) {
      assert x in t.stack <==> x in j.stack && x != o && x != c;
    }
  }

  lemma PairedJoins(s: State, j: State, o: nat, c: nat)
    requires Adjoined(s, j, o, c) && s.runs[c].mark != '~'
    ensures Joins(s, Paired(j), o, c)
  {
  }

  // Where a loose stack loses its closer, if that is used up, or its opener.
  lemma OpenerPrunedTurned(p: State, o: nat, c: nat)
    requires 1 <= p.current && Loose(p, 1) && p.stack[p.current - 1] == o && p.stack[p.current] == c
    ensures var t := OpenerPruned(p);
            && Loose(t, 0) && t.stack[t.current] == c
            && forall x :: x in t.stack <==> x in p.stack && (x != o || p.runs[o].count >= 1)
  {
    OpenerPrunedLoose(p);
    WithoutMembers(p.stack, p.current - 1, p.current);
  }

  lemma CloserPrunedTurned(p: State, c: nat)
    requires Loose(p, 0) && p.stack[p.current] == c
    ensures var t := CloserPruned(p);
            && Shape(t) && (forall x :: x in t.stack <==> x in p.stack && (x != c || p.runs[c].count >= 1))
            && (forall i :: 0 <= i < |t.stack| ==> (i < t.current <==> t.stack[i] < c))
  {
    CloserPrunedShape(p);
    WithoutMembers(p.stack, p.current, p.current + 1);
  }

  lemma PairedTurned(s: State, j: State, o: nat, c: nat)
    requires Adjoined(s, j, o, c) && s.runs[c].mark == s.runs[o].mark != '~'
    ensures var t := Pruned(Paired(j));
            Joins(s, t, o, c) && Clears(s, t, o, c) && t.bottoms == s.bottoms
  {
    PairedJoins(s, j, o, c);
    PairedLoose(j);
    var p := Paired(j);
    OpenerPrunedTurned(p, o, c);
    CloserPrunedTurned(OpenerPruned(p), c);
    PairedClears(s, j, o, c);
  }

  lemma PairedClears(s: State, j: State, o: nat, c: nat)
    requires Adjoined(s, j, o, c) && s.runs[c].mark == s.runs[o].mark != '~'
    requires var p, t := Paired(j), Pruned(Paired(j));
             && Shape(t) && (forall x :: x in t.stack <==>
                  x in j.stack && (x != o || p.runs[o].count >= 1) && (x != c || p.runs[c].count >= 1))
             && (forall i :: 0 <= i < |t.stack| ==> (i < t.current <==> t.stack[i] < c))
    ensures Clears(s, Pruned(Paired(j)), o, c)
  {
  }

  lemma JoinedAdjoined(s: State, found: nat)
    requires Shape(s) && found < s.current < |s.stack|
    ensures Adjoined(s, Joined(s, found), s.stack[found], s.stack[s.current])
  {
    JoinedMembers(s, found);
  }

  // Every turn of the loop is one of those.
  lemma StepTurned(s: State)
    requires Shape(s) && s.current < |s.stack|
    ensures Turned(s, Step(s))
  {
    var c := Closer(s);
    if s.runs[c].closes {
      OpenerNearest(s);
      match Opener(s.runs, s.stack, s.runs[c], s.current, Bottom(s.bottoms, Key(s.runs[c])))
      case None => UnmatchedTurned(s);
      case Some(found) =>
        var j, o := Joined(s, found), s.stack[found];
        JoinedAdjoined(s, found);
        if s.runs[c].mark == '~' {
          StruckTurned(s, j, o, c);
        } else {
          PairedTurned(s, j, o, c);
        }
    }
  }

  // And that says all of it: a state has one next state.
  lemma TurnedUnique(s: State, t: State, u: State)
    requires Shape(s) && s.current < |s.stack| && Turned(s, t) && Turned(s, u)
    ensures t == u
  {
    var c := Closer(s);
    if s.runs[c].closes {
      if i :| 0 <= i < s.current && Nearest(s, i) {
        assert Joins(s, t, s.stack[i], c) && Joins(s, u, s.stack[i], c);
        assert Clears(s, t, s.stack[i], c) && Clears(s, u, s.stack[i], c);
        IncreasingUnique(t.stack, u.stack);
        SplitsUnique(t, u, c);
      } else {
        IncreasingUnique(t.stack, u.stack);
      }
    }
  }

  lemma SplitsUnique(t: State, u: State, c: nat)
    requires t.stack == u.stack && t.current <= |t.stack| && u.current <= |u.stack|
    requires forall i :: 0 <= i < |t.stack| ==> (i < t.current <==> t.stack[i] < c)
    requires forall i :: 0 <= i < |u.stack| ==> (i < u.current <==> u.stack[i] < c)
    ensures t.current == u.current
  {
    assert t.current < |t.stack| ==> !(t.stack[t.current] < c);
    assert u.current < |u.stack| ==> !(u.stack[u.current] < c);
  }

  lemma {:induction false} IncreasingUnique(a: seq<nat>, b: seq<nat>)
    requires Increasing(a) && Increasing(b) && forall x :: x in a <==> x in b
    ensures a == b
  {
    assert a != [] ==> a[0] in b;
    assert b != [] ==> b[0] in a;
    if a != [] {
      var m, n := |a| - 1, |b| - 1;
      assert a[m] in b && b[n] in a;
      assert a[m] == b[n];
      forall x ensures x in a[..m] <==> x in b[..n] {
        BelowLast(a, x);
        BelowLast(b, x);
      }
      IncreasingUnique(a[..m], b[..n]);
      assert a == a[..m] + [a[m]] && b == b[..n] + [b[n]];
    }
  }

  lemma BelowLast(a: seq<nat>, x: nat)
    requires Increasing(a) && a != []
    ensures x in a[..|a| - 1] <==> x in a && x < a[|a| - 1]
  {
    if x in a && x < a[|a| - 1] {
      var k :| 0 <= k < |a| && a[k] == x;
      assert a[..|a| - 1][k] == x;
    }
    if x in a[..|a| - 1] {
      var k :| 0 <= k < |a| - 1 && a[..|a| - 1][k] == x;
      assert a[k] == x;
    }
  }

  // At every turn, from the runs as they are scanned, the nearest run that the closer may close, if there is
  // one, is its opener, and they make exactly one element, or none if they are strikethrough of two lengths.
  lemma TurnMatches(runs: seq<Delimiter>, states: seq<State>, k: nat, i: nat)
    requires AllFresh(runs) && Trace(runs, states) && k + 1 < |states|
    requires Trying(states[k]) && i < states[k].current && Nearest(states[k], i)
    ensures var s, t := states[k], states[k + 1];
      var o, c := s.stack[i], Closer(s);
      && o < c < |runs| && runs[c].closes && Legal(runs[o], runs[c])
      && t.matches == s.matches
                      + (if runs[c].mark != '~' then
                           [Match(o, c, if s.runs[o].count >= 2 && s.runs[c].count >= 2 then Strong else Em)]
                         else if runs[o].length == runs[c].length then [Match(o, c, Del)]
                         else [])
      && Clears(s, t, o, c)
  {
    var s := states[k];
    TraceTo(runs, states, k);
    TraceInvariant(runs, NoGaps(|runs|), states[..k + 1]);
    assert Turn(states, k);
    StepTurned(s);
    TurnMatchesAt(runs, s, states[k + 1], i);
  }

  lemma TurnMatchesAt(runs: seq<Delimiter>, s: State, t: State, i: nat)
    requires Trying(s) && Orderly(s) && Originals(s.runs, runs) && i < s.current && Nearest(s, i) && Turned(s, t)
    ensures var o, c := s.stack[i], Closer(s);
      && o < c < |runs| && runs[c].closes && Legal(runs[o], runs[c])
      && t.matches == s.matches
                      + (if runs[c].mark != '~' then
                           [Match(o, c, if s.runs[o].count >= 2 && s.runs[c].count >= 2 then Strong else Em)]
                         else if runs[o].length == runs[c].length then [Match(o, c, Del)]
                         else [])
      && Clears(s, t, o, c)
  {
    var o, c := s.stack[i], Closer(s);
    assert s.runs[o].Original() == runs[o] && s.runs[c].Original() == runs[c];
    assert o in s.stack && c in s.stack;
    assert Joins(s, t, o, c) && Clears(s, t, o, c);
    assert s.matches + [] == s.matches;
  }

  lemma {:induction false} TraceTo(runs: seq<Delimiter>, states: seq<State>, k: nat)
    requires Trace(runs, states) && k < |states|
    ensures Trace(runs, states[..k + 1])
    decreases |states|
  {
    if k + 1 < |states| {
      TracePrefix(runs, states);
      TraceTo(runs, states[..|states| - 1], k);
      assert states[..|states| - 1][..k + 1] == states[..k + 1];
    } else {
      assert states[..k + 1] == states;
    }
  }

  ghost predicate Ends(runs: seq<Delimiter>, states: seq<State>, s: State) {
    Trace(runs, states) && Shape(s) && states[|states| - 1] == s
  }

  // One turn more of a trace.
  lemma Grow(runs: seq<Delimiter>, states: seq<State>, s: State) returns (more: seq<State>, t: State)
    requires Ends(runs, states, s) && s.current < |s.stack|
    ensures Ends(runs, more, t) && Run(s) == Run(t)
    ensures || Unused(t.runs) + |t.stack| < Unused(s.runs) + |s.stack|
            || (t.runs == s.runs && t.stack == s.stack && t.current == s.current + 1)
  {
    StepProgress(s);
    t := Step(s);
    more := states + [t];
    TraceMore(runs, states, t);
  }

  // Matching is the last state of such a trace, at which nothing is left to try.
  lemma {:induction false} RunTraced(runs: seq<Delimiter>, states: seq<State>, s: State) returns (all: seq<State>, end: State)
    requires Ends(runs, states, s)
    ensures Ends(runs, all, end) && end == Run(s) && end.current == |end.stack|
    decreases Unused(s.runs) + |s.stack|, |s.stack| - s.current
  {
    if s.current == |s.stack| {
      all, end := states, s;
    } else {
      var more, t := Grow(runs, states, s);
      all, end := RunTraced(runs, more, t);
    }
  }

  lemma TraceMore(runs: seq<Delimiter>, states: seq<State>, next: State)
    requires Trace(runs, states)
    requires var s := states[|states| - 1]; Shape(s) && s.current < |s.stack| && next == Step(s)
    ensures Trace(runs, states + [next])
  {
    var more, last := states + [next], |states| - 1;
    assert more[0] == states[0];
    forall k | 0 <= k < |more| - 1 ensures Turn(more, k) {
      assert more[k] == states[k];
      if k < last {
        assert more[k + 1] == states[k + 1] && Turn(states, k);
      } else {
        assert more[k + 1] == next;
      }
    }
  }

  lemma MatchedTraced(runs: seq<Delimiter>) returns (states: seq<State>)
    requires AllFresh(runs)
    ensures Trace(runs, states) && states[|states| - 1] == Matched(runs)
    ensures Matched(runs).current == |Matched(runs).stack|
  {
    var start := [Initial(runs)];
    var end;
    states, end := RunTraced(runs, start, Initial(runs));
  }

  // A turn leaves two runs of strikethrough of different lengths, and what is between them, literal.
  ghost predicate Refuses(s: State, o: nat, c: nat) {
    && Trying(s) && c == Closer(s)
    && exists i :: 0 <= i < s.current && Nearest(s, i) && o == s.stack[i]
         && o < |s.runs| && Element(s.runs[o], s.runs[c]).None?
  }

  ghost predicate RefusesRun(s: State, x: nat) {
    exists o: nat, c: nat :: Refuses(s, o, c) && o <= x <= c
  }

  ghost predicate Refused(states: seq<State>, x: nat) {
    exists k :: 0 <= k < |states| - 1 && RefusesRun(states[k], x)
  }

  // A match is around the run.
  ghost predicate Enclosed(matches: seq<Match>, x: nat) {
    exists m :: m in matches && m.opener < x < m.closer
  }

  // A run that can only close is done once it was tried.
  ghost predicate Final(run: Delimiter) {
    run.closes && !run.opens
  }

  // Of the runs with characters left, exactly those leave the stack that a match is around, that are within
  // refused strikethrough, or that can only close and were tried.
  ghost predicate Accounted(states: seq<State>, s: State) {
    && Shape(s)
    && (forall i :: 0 <= i < s.current ==> !Final(s.runs[s.stack[i]]))
    && (forall x :: 0 <= x < |s.runs| && s.runs[x].count >= 1 && x !in s.stack ==>
          Final(s.runs[x]) || Enclosed(s.matches, x) || Refused(states, x))
    && (forall x :: x in s.stack ==> !Refused(states, x))
  }

  // A turn refuses what earlier ones did, and what it does itself.
  lemma RefusedMore(states: seq<State>, x: nat)
    requires |states| > 1
    ensures var last := |states| - 1;
      Refused(states, x) <==> Refused(states[..last], x) || RefusesRun(states[last - 1], x)
  {
    var last := |states| - 1;
    var before := states[..last];
    assert forall k :: 0 <= k < last ==> before[k] == states[k];
    if Refused(states, x) {
      var k :| 0 <= k < last && RefusesRun(states[k], x);
      assert k < last - 1 ==> RefusesRun(before[k], x);
    }
    if Refused(before, x) {
      var k :| 0 <= k < last - 1 && RefusesRun(before[k], x);
      assert RefusesRun(states[k], x);
    }
  }

  // A match that is made: what it takes off the stack it is around, or uses up, unless it is refused.
  lemma JoinsLeave(s: State, t: State, o: nat, c: nat, x: nat)
    requires Shape(s) && o < c < |s.runs| && s.runs[o].mark == s.runs[c].mark
    requires Joins(s, t, o, c) && Clears(s, t, o, c)
    requires x in s.stack && x !in t.stack && x < |t.runs| && t.runs[x].count >= 1
    ensures Enclosed(t.matches, x) || (Element(s.runs[o], s.runs[c]).None? && o <= x <= c)
  {
    match Element(s.runs[o], s.runs[c])
    case None =>
    case Some(tag) =>
      var m := Match(o, c, tag);
      assert m in t.matches;
  }

  lemma JoinsKeep(s: State, t: State, o: nat, c: nat)
    requires o < c < |s.runs| && Joins(s, t, o, c)
    ensures |t.runs| == |s.runs|
    ensures forall x :: 0 <= x < |s.runs| ==>
              && t.runs[x].count <= s.runs[x].count && t.runs[x].opens == s.runs[x].opens
              && t.runs[x].closes == s.runs[x].closes
    ensures forall m :: m in s.matches ==> m in t.matches
  {
  }

  lemma AccountedJoin(states: seq<State>, s: State, t: State, i: nat)
    requires |states| > 1 && states[|states| - 2] == s && states[|states| - 1] == t
    requires Accounted(states[..|states| - 1], s) && Trying(s) && i < s.current && Nearest(s, i) && Turned(s, t)
    ensures Accounted(states, t)
  {
    var o, c, last := s.stack[i], Closer(s), |states| - 1;
    assert Joins(s, t, o, c) && Clears(s, t, o, c);
    JoinsKeep(s, t, o, c);
    forall k | 0 <= k < t.current ensures !Final(t.runs[t.stack[k]]) {
      JoinFinal(s, t, o, c, k);
    }
    forall x | 0 <= x < |t.runs| && t.runs[x].count >= 1 && x !in t.stack
      ensures Final(t.runs[x]) || Enclosed(t.matches, x) || Refused(states, x)
    {
      JoinLeft(states, s, t, i, x);
    }
    forall x | x in t.stack ensures !Refused(states, x) {
      RefusedMore(states, x);
      RefusesOnly(s, i);
    }
  }

  lemma JoinFinal(s: State, t: State, o: nat, c: nat, k: nat)
    requires Trying(s) && c == Closer(s) && o < c < |s.runs| && Joins(s, t, o, c) && Clears(s, t, o, c)
    requires forall i :: 0 <= i < s.current ==> !Final(s.runs[s.stack[i]])
    requires k < t.current
    ensures k < |t.stack| && t.stack[k] < |t.runs| && !Final(t.runs[t.stack[k]])
  {
    JoinsKeep(s, t, o, c);
    var x := t.stack[k];
    assert x in t.stack && x in s.stack && x < c;
    var n :| 0 <= n < |s.stack| && s.stack[n] == x;
    assert n < s.current;
  }

  lemma JoinLeft(states: seq<State>, s: State, t: State, i: nat, x: nat)
    requires |states| > 1 && states[|states| - 2] == s && Accounted(states[..|states| - 1], s)
    requires Trying(s) && i < s.current && Nearest(s, i)
    requires Joins(s, t, s.stack[i], Closer(s)) && Clears(s, t, s.stack[i], Closer(s))
    requires x < |t.runs| && t.runs[x].count >= 1 && x !in t.stack
    ensures Final(t.runs[x]) || Enclosed(t.matches, x) || Refused(states, x)
  {
    var o, c := s.stack[i], Closer(s);
    JoinsKeep(s, t, o, c);
    RefusedMore(states, x);
    if x in s.stack {
      JoinsLeave(s, t, o, c, x);
      if Element(s.runs[o], s.runs[c]).None? && o <= x <= c {
        assert Refuses(s, o, c);
      }
    } else if Enclosed(s.matches, x) {
      var m :| m in s.matches && m.opener < x < m.closer;
      assert m in t.matches;
    }
  }

  // A turn refuses at most its own pair, and only strikethrough.
  lemma RefusesOnly(s: State, i: nat)
    requires Trying(s) && i < s.current && Nearest(s, i)
    ensures forall o: nat, c: nat :: Refuses(s, o, c) ==> o == s.stack[i] && c == Closer(s) && s.runs[c].mark == '~'
  {
    forall o: nat, c: nat | Refuses(s, o, c) ensures o == s.stack[i] && c == Closer(s) && s.runs[c].mark == '~' {
      var n :| 0 <= n < s.current && Nearest(s, n) && o == s.stack[n]
        && o < |s.runs| && Element(s.runs[o], s.runs[c]).None?;
      assert n == i;
    }
  }

  lemma AccountedPass(states: seq<State>, s: State, t: State)
    requires |states| > 1 && states[|states| - 2] == s && states[|states| - 1] == t
    requires Accounted(states[..|states| - 1], s) && Shape(s) && s.current < |s.stack|
    requires !Trying(s) || forall i :: 0 <= i < s.current ==> !Nearest(s, i)
    requires Turned(s, t) && t == Step(s) && Shape(t)
    ensures Accounted(states, t)
  {
    var last := |states| - 1;
    forall x: nat ensures Refused(states, x) <==> Refused(states[..last], x) {
      RefusedMore(states, x);
      RefusesNone(s, x);
    }
    PassFinal(s, t);
  }

  lemma RefusesNone(s: State, x: nat)
    requires !Trying(s) || forall i :: 0 <= i < s.current ==> !Nearest(s, i)
    ensures !RefusesRun(s, x)
  {
  }

  // What is passed can open, or cannot close.
  lemma PassFinal(s: State, t: State)
    requires Shape(s) && s.current < |s.stack| && t == Step(s) && Shape(t)
    requires !Trying(s) || forall i :: 0 <= i < s.current ==> !Nearest(s, i)
    requires forall i :: 0 <= i < s.current ==> !Final(s.runs[s.stack[i]])
    ensures t.runs == s.runs && t.matches == s.matches
    ensures forall k :: 0 <= k < t.current ==> !Final(t.runs[t.stack[k]])
    ensures forall x :: x in t.stack ==> x in s.stack
    ensures forall x :: x in s.stack && x !in t.stack ==> Final(s.runs[x])
  {
    var c := Closer(s);
    if s.runs[c].closes {
      OpenerNearest(s);
      assert t == Unmatched(s);
      UnmatchedTurned(s);
      forall k | 0 <= k < t.current ensures !Final(t.runs[t.stack[k]]) {
        assert t.stack[k] == s.stack[k];
      }
    }
  }

  lemma {:induction false} TraceAccounted(runs: seq<Delimiter>, states: seq<State>)
    requires AllFresh(runs) && Trace(runs, states)
    ensures Accounted(states, states[|states| - 1])
    decreases |states|
  {
    var last := |states| - 1;
    TraceInvariant(runs, NoGaps(|runs|), states);
    if last == 0 {
      forall x | 0 <= x < |runs| ensures x in states[0].stack {
        assert Indices(|runs|)[x] == x;
      }
    } else {
      var s, t := states[last - 1], states[last];
      TracePrefix(runs, states);
      TraceAccounted(runs, states[..last]);
      assert Turn(states, last - 1);
      StepTurned(s);
      if Trying(s) && exists i :: 0 <= i < s.current && Nearest(s, i) {
        var i :| 0 <= i < s.current && Nearest(s, i);
        AccountedJoin(states, s, t, i);
      } else {
        AccountedPass(states, s, t);
      }
    }
  }

  // When nothing is left to try, a run with characters left has left the stack exactly if it can only close, a
  // match is around it, or it is within refused strikethrough.
  lemma LeavesUnused(runs: seq<Delimiter>, states: seq<State>, x: nat)
    requires AllFresh(runs) && Trace(runs, states)
    requires var s := states[|states| - 1]; s.current == |s.stack| && x < |s.runs| && s.runs[x].count >= 1
    ensures var s := states[|states| - 1];
      && x < |runs|
      && (x in s.stack <==> !Final(runs[x]) && !Enclosed(s.matches, x) && !Refused(states, x))
  {
    var s := states[|states| - 1];
    TraceInvariant(runs, NoGaps(|runs|), states);
    TraceAccounted(runs, states);
    assert s.runs[x].Original() == runs[x];
    EnclosedLeaves(s, x);
  }

  lemma EnclosedLeaves(s: State, x: nat)
    requires Orderly(s)
    ensures Enclosed(s.matches, x) ==> x !in s.stack
  {
    if Enclosed(s.matches, x) {
      var m :| m in s.matches && m.opener < x < m.closer;
      assert Settled(s.stack, m);
    }
  }
}
