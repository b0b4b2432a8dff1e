/** Matching runs in place, as the renderer does: it updates the runs and edits the stack. */
module EmphasisInPlace {
  import opened Options
  import opened Tags
  import opened E = Emphasis
  import opened EmphasisLaws

  // A run of the content, whose count, starts, and ends matching updates.
  class Run {
    const mark: char
    const length: nat
    const opens: bool
    const closes: bool
    var count: nat
    var starts: seq<Tag>
    var ends: seq<Tag>

    constructor (mark: char, length: nat, opens: bool, closes: bool)
      ensures Value() == Delimiter(mark, length, opens, closes, length, [], [])
    {
      this.mark, this.length, this.opens, this.closes := mark, length, opens, closes;
      count, starts, ends := length, [], [];
    }

    function Value(): Delimiter
      reads this
    {
      Delimiter(mark, length, opens, closes, count, starts, ends)
    }
  }

  ghost predicate Distinct(runs: seq<Run>) {
    forall i, j :: 0 <= i < j < |runs| ==> runs[i] != runs[j]
  }

  function Values(runs: seq<Run>): (values: seq<Delimiter>)
    reads runs
    ensures |values| == |runs|
    ensures forall i :: 0 <= i < |runs| ==> values[i] == runs[i].Value()
  {
    seq(|runs|, i requires 0 <= i < |runs| reads runs => runs[i].Value())
  }

  method FindOpener(runs: seq<Run>, stack: seq<nat>, current: nat, bottom: nat)
      returns (found: Option<nat>)
    requires current < |stack|
    requires forall i :: 0 <= i < |stack| ==> stack[i] < |runs|
    ensures found == Opener(Values(runs), stack, runs[stack[current]].Value(), current, bottom)
  {
    var closer := runs[stack[current]];
    var index := current;
    while index > 0
      invariant index <= current
      invariant Opener(Values(runs), stack, closer.Value(), index, bottom)
                == Opener(Values(runs), stack, closer.Value(), current, bottom)
    {
      index := index - 1;
      if stack[index] < bottom {
        return None;
      }
      var opener := runs[stack[index]];
      if opener.opens && opener.mark == closer.mark
         && (!(closer.opens || opener.closes)
             || closer.length % 3 == 0
             || (opener.length + closer.length) % 3 != 0) {
        return Some(index);
      }
    }
    return None;
  }

  // Records a match of two runs that uses some characters of both.
  method Pair(runs: seq<Run>, o: nat, c: nat, used: nat, tag: Tag)
    requires Distinct(runs) && o < c < |runs| && used <= runs[o].count && used <= runs[c].count
    modifies runs[o], runs[c]
    ensures Values(runs) == Use(old(Values(runs)), o, c, used, tag)
  {
    var opener, closer := runs[o], runs[c];
    opener.count, closer.count := opener.count - used, closer.count - used;
    opener.starts := opener.starts + [tag];
    closer.ends := closer.ends + [tag];
  }

  // Matches the run at current with the one before it on the stack.
  method MatchStrikethrough(runs: seq<Run>, before: seq<nat>, at: nat, ghost j: State)
      returns (stack: seq<nat>, current: nat, ghost matches: seq<Match>)
    requires Distinct(runs) && Shape(j) && 1 <= at < |before|
    requires j.runs == Values(runs) && j.stack == before && j.current == at
    modifies runs
    ensures State(Values(runs), stack, j.bottoms, current, matches) == Struck(j)
  {
    var o, c := before[at - 1], before[at];
    matches := j.matches;
    if runs[o].count == runs[c].count {
      Pair(runs, o, c, runs[c].count, Del);
      matches := matches + [Match(o, c, Del)];
    }
    stack := before[..at - 1] + before[at + 1..];
    current := at - 1;
  }

  method MatchEmphasis(runs: seq<Run>, before: seq<nat>, at: nat, ghost j: State)
      returns (stack: seq<nat>, current: nat, ghost matches: seq<Match>)
    requires Distinct(runs) && Shape(j) && 1 <= at < |before|
    requires j.runs == Values(runs) && j.stack == before && j.current == at
    modifies runs
    ensures State(Values(runs), stack, j.bottoms, current, matches) == Pruned(Paired(j))
  {
    var o, c := before[at - 1], before[at];
    var used := if runs[o].count >= 2 && runs[c].count >= 2 then 2 else 1;
    var tag := if used == 2 then Strong else Em;
    Pair(runs, o, c, used, tag);
    matches := j.matches + [Match(o, c, tag)];
    ghost var p := State(Values(runs), before, j.bottoms, at, matches);
    assert p == Paired(j);
    stack, current := Prune(runs, before, at, p);
  }

  // Drops the runs of a match from the stack once they are used up.
  method Prune(runs: seq<Run>, before: seq<nat>, at: nat, ghost p: State) returns (stack: seq<nat>, current: nat)
    requires 1 <= at < |before| && before[at - 1] < |runs| && before[at] < |runs|
    requires p.runs == Values(runs) && p.stack == before && p.current == at
    ensures p.(stack := stack, current := current) == Pruned(p)
  {
    var o, c := before[at - 1], before[at];
    stack, current := before, at;
    if runs[o].count == 0 {
      stack := stack[..current - 1] + stack[current..];
      current := current - 1;
    }
    assert p.(stack := stack, current := current) == OpenerPruned(p);
    if runs[c].count == 0 {
      stack := stack[..current] + stack[current + 1..];
    }
  }

  // Moves on from a closer without an opener, and drops it unless it can open.
  method Skip(runs: seq<Run>, before: seq<nat>, bounds: map<(char, nat), nat>, at: nat, ghost s: State)
      returns (stack: seq<nat>, bottoms: map<(char, nat), nat>, current: nat)
    requires Shape(s) && at < |before| && s == State(Values(runs), before, bounds, at, s.matches)
    ensures s.(stack := stack, bottoms := bottoms, current := current) == Unmatched(s)
  {
    var closer := runs[before[at]];
    stack, current := before, at;
    bottoms := bounds[(closer.mark, closer.length % 3) := stack[current]];
    if closer.opens {
      current := current + 1;
    } else {
      stack := stack[..current] + stack[current + 1..];
    }
  }

  // Tries to match the run at current, or leaves it.
  method Turn(runs: seq<Run>, before: seq<nat>, bounds: map<(char, nat), nat>, at: nat, ghost s: State)
      returns (stack: seq<nat>, bottoms: map<(char, nat), nat>, current: nat, ghost matches: seq<Match>)
    requires Distinct(runs) && Shape(s) && at < |before|
    requires s == State(Values(runs), before, bounds, at, s.matches)
    modifies runs
    ensures State(Values(runs), stack, bottoms, current, matches) == Step(s)
  {
    stack, bottoms, current, matches := before, bounds, at, s.matches;
    var closer := runs[stack[current]];
    if !closer.closes {
      current := current + 1;
      return;
    }
    var key := (closer.mark, closer.length % 3);
    var found := FindOpener(runs, stack, current, if key in bottoms then bottoms[key] else 0);
    if found.None? {
      stack, bottoms, current := Skip(runs, stack, bottoms, current, s);
      return;
    }
    stack := stack[..found.value + 1] + stack[current..];
    current := found.value + 1;
    if closer.mark == '~' {
      stack, current, matches := MatchStrikethrough(runs, stack, current, Joined(s, found.value));
    } else {
      stack, current, matches := MatchEmphasis(runs, stack, current, Joined(s, found.value));
    }
  }

  method Emphasize(runs: seq<Run>)
    requires Distinct(runs) && AllFresh(Values(runs))
    modifies runs
    ensures Values(runs) == Matched(old(Values(runs))).runs
  {
    ghost var goal := Matched(Values(runs));
    var stack := Indices(|runs|);
    var bottoms: map<(char, nat), nat> := map[];
    var current: nat := 0;
    ghost var matches: seq<Match> := [];
    while current < |stack|
      invariant Shape(State(Values(runs), stack, bottoms, current, matches))
      invariant E.Run(State(Values(runs), stack, bottoms, current, matches)) == goal
      decreases Unused(Values(runs)) + |stack|, |stack| - current
    {
      ghost var s := State(Values(runs), stack, bottoms, current, matches);
      StepProgress(s);
      stack, bottoms, current, matches := Turn(runs, stack, bottoms, current, s);
    }
  }
}
