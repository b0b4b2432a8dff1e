/** Matching the delimiter runs of emphasis and strikethrough, as section 6.4 and 6.5 of the GitHub
    Flavored Markdown spec describe and cmark-gfm's process_emphasis does. */
module Emphasis {
  import opened Options
  import opened Tags

  // A run: first what the scanner says of it, then what matching makes of it: how many of its characters
  // are still free, and the tags of the matches that it opened and closed, in the order of matching.
  datatype Delimiter = Delimiter(
    mark: char, length: nat, opens: bool, closes: bool,
    count: nat, starts: seq<Tag>, ends: seq<Tag>)
  {
    // A run as the scanner makes it, before any match.
    predicate Fresh() {
      length >= 1 && count == length && starts == [] && ends == []
    }

    function Original(): Delimiter {
      this.(count := length, starts := [], ends := [])
    }
  }

  // The run at opener starts an element that the run at closer ends.
  datatype Match = Match(opener: nat, closer: nat, tag: Tag)

  // The runs, the indices of those that may still match, the lower bounds of failed searches, the
  // position in the stack of the next closer to try, and the matches so far, in order.
  datatype State = State(
    runs: seq<Delimiter>, stack: seq<nat>, bottoms: map<(char, nat), nat>, current: nat,
    matches: seq<Match>)

  // Whether one run can close another, by the rule of three.
  predicate Legal(opener: Delimiter, closer: Delimiter) {
    && opener.opens
    && opener.mark == closer.mark
    && (!(closer.opens || opener.closes)
        || closer.length % 3 == 0
        || (opener.length + closer.length) % 3 != 0)
  }

  ghost predicate Increasing(stack: seq<nat>) {
    forall i, j :: 0 <= i < j < |stack| ==> stack[i] < stack[j]
  }

  // The stack holds, in order, runs with characters to use.
  ghost predicate Shape(s: State) {
    && s.current <= |s.stack|
    && Increasing(s.stack)
    && (forall i :: 0 <= i < |s.stack| ==> s.stack[i] < |s.runs| && s.runs[s.stack[i]].count >= 1)
  }

  // The nearest position below `from` whose run is at or above bottom and that the closer closes.
  function Opener(runs: seq<Delimiter>, stack: seq<nat>, closer: Delimiter, from: nat, bottom: nat)
      : (found: Option<nat>)
    requires from <= |stack|
    requires forall i :: 0 <= i < |stack| ==> stack[i] < |runs|
    ensures found.Some? ==>
              && found.value < from
              && bottom <= stack[found.value]
              && Legal(runs[stack[found.value]], closer)
    ensures Increasing(stack) ==>
              forall i :: (if found.Some? then found.value else -1) < i < from && bottom <= stack[i] ==>
                            !Legal(runs[stack[i]], closer)
  {
    if from == 0 || stack[from - 1] < bottom then None
    else if Legal(runs[stack[from - 1]], closer) then Some(from - 1)
    else Opener(runs, stack, closer, from - 1, bottom)
  }

  function Key(closer: Delimiter): (char, nat) {
    (closer.mark, closer.length % 3)
  }

  function Bottom(bottoms: map<(char, nat), nat>, key: (char, nat)): nat {
    if key in bottoms then bottoms[key] else 0
  }

  // Python's `del stack[from:to]`.
  function Without(stack: seq<nat>, from: nat, to: nat): (rest: seq<nat>)
    requires from <= to <= |stack|
    ensures |rest| == |stack| - (to - from)
    ensures forall i :: 0 <= i < |rest| ==> rest[i] == if i < from then stack[i] else stack[i + to - from]
  {
    stack[..from] + stack[to..]
  }

  lemma WithoutIncreasing(stack: seq<nat>, from: nat, to: nat)
    requires from <= to <= |stack| && Increasing(stack)
    ensures Increasing(Without(stack, from, to))
  {
  }

  // Records a match that uses some characters of both runs.
  function Use(runs: seq<Delimiter>, o: nat, c: nat, used: nat, tag: Tag): seq<Delimiter>
    requires o < c < |runs| && runs[o].count >= used && runs[c].count >= used
  {
    runs[o := runs[o].(count := runs[o].count - used, starts := runs[o].starts + [tag])]
        [c := runs[c].(count := runs[c].count - used, ends := runs[c].ends + [tag])]
  }

  // One turn of the loop for a closer without an opener.
  function Unmatched(s: State): State
    requires Shape(s) && s.current < |s.stack|
  {
    var closer := s.runs[s.stack[s.current]];
    var noted := s.(bottoms := s.bottoms[Key(closer) := s.stack[s.current]]);
    if closer.opens then noted.(current := s.current + 1)
    else noted.(stack := Without(s.stack, s.current, s.current + 1))
  }

  // The state whose stack no longer holds the runs between the closer and its opener.
  function Joined(s: State, found: nat): (r: State)
    requires Shape(s) && found < s.current < |s.stack|
    ensures Shape(r) && r.current == found + 1 < |r.stack|
    ensures r.stack[found] == s.stack[found] && r.stack[found + 1] == s.stack[s.current]
  {
    WithoutIncreasing(s.stack, found + 1, s.current);
    s.(stack := Without(s.stack, found + 1, s.current), current := found + 1)
  }

  // Strikethrough uses up both runs when they are as long, and else leaves them literal.
  function Struck(s: State): State
    requires Shape(s) && 1 <= s.current < |s.stack|
  {
    var o, c := s.stack[s.current - 1], s.stack[s.current];
    var used := s.runs[c].count;
    var next := if s.runs[o].count == used
      then s.(runs := Use(s.runs, o, c, used, Del), matches := s.matches + [Match(o, c, Del)])
      else s;
    next.(stack := Without(s.stack, s.current - 1, s.current + 1), current := s.current - 1)
  }

  // Emphasis uses one character of both runs, or two if both have them.
  function Paired(s: State): (r: State)
    requires Shape(s) && 1 <= s.current < |s.stack|
    ensures |r.runs| == |s.runs|
    ensures forall i :: 0 <= i < |s.runs| && i != s.stack[s.current - 1] && i != s.stack[s.current] ==>
                          r.runs[i] == s.runs[i]
  {
    var o, c := s.stack[s.current - 1], s.stack[s.current];
    var used := if s.runs[o].count >= 2 && s.runs[c].count >= 2 then 2 else 1;
    var tag := if used == 2 then Strong else Em;
    s.(runs := Use(s.runs, o, c, used, tag), matches := s.matches + [Match(o, c, tag)])
  }

  // Drops the opener of a match from the stack once it is used up,
  function OpenerPruned(s: State): (r: State)
    requires 1 <= s.current < |s.stack| && s.stack[s.current - 1] < |s.runs|
    ensures r.runs == s.runs && r.matches == s.matches && r.bottoms == s.bottoms
    ensures r.current < |r.stack| && r.stack[r.current] == s.stack[s.current]
  {
    if s.runs[s.stack[s.current - 1]].count == 0
    then s.(stack := Without(s.stack, s.current - 1, s.current), current := s.current - 1) else s
  }

  // and its closer.
  function CloserPruned(s: State): (r: State)
    requires s.current < |s.stack| && s.stack[s.current] < |s.runs|
    ensures r.runs == s.runs && r.matches == s.matches && r.bottoms == s.bottoms && r.current == s.current
  {
    if s.runs[s.stack[s.current]].count == 0
    then s.(stack := Without(s.stack, s.current, s.current + 1)) else s
  }

  function Pruned(s: State): (r: State)
    requires 1 <= s.current < |s.stack|
    requires s.stack[s.current - 1] < |s.runs| && s.stack[s.current] < |s.runs|
    ensures r.runs == s.runs && r.matches == s.matches && r.bottoms == s.bottoms
  {
    CloserPruned(OpenerPruned(s))
  }

  // One turn of the loop.
  function Step(s: State): State
    requires Shape(s) && s.current < |s.stack|
  {
    var closer := s.runs[s.stack[s.current]];
    if !closer.closes then s.(current := s.current + 1)
    else match Opener(s.runs, s.stack, closer, s.current, Bottom(s.bottoms, Key(closer)))
      case None => Unmatched(s)
      case Some(found) =>
        if closer.mark == '~' then Struck(Joined(s, found)) else Pruned(Paired(Joined(s, found)))
  }

  ghost function Unused(runs: seq<Delimiter>): nat {
    if runs == [] then 0 else Unused(runs[..|runs| - 1]) + runs[|runs| - 1].count
  }

  lemma {:induction false} UnusedUpdate(runs: seq<Delimiter>, i: nat, d: Delimiter)
    requires i < |runs|
    ensures Unused(runs[i := d]) == Unused(runs) - runs[i].count + d.count
  {
    var last := |runs| - 1;
    if i == last {
      assert runs[i := d][..last] == runs[..last];
    } else {
      assert runs[i := d][..last] == runs[..last][i := d];
      UnusedUpdate(runs[..last], i, d);
    }
  }

  lemma UnusedUse(runs: seq<Delimiter>, o: nat, c: nat, used: nat, tag: Tag)
    requires o < c < |runs| && runs[o].count >= used && runs[c].count >= used
    ensures Unused(Use(runs, o, c, used, tag)) == Unused(runs) - 2 * used
  {
    var d := runs[o].(count := runs[o].count - used, starts := runs[o].starts + [tag]);
    UnusedUpdate(runs, o, d);
    UnusedUpdate(runs[o := d], c,
      runs[c].(count := runs[c].count - used, ends := runs[c].ends + [tag]));
  }

  lemma StruckProgress(s: State)
    requires Shape(s) && 1 <= s.current < |s.stack|
    ensures Shape(Struck(s))
    ensures Unused(Struck(s).runs) + |Struck(s).stack| < Unused(s.runs) + |s.stack|
  {
    var o, c := s.stack[s.current - 1], s.stack[s.current];
    WithoutIncreasing(s.stack, s.current - 1, s.current + 1);
    if s.runs[o].count == s.runs[c].count {
      UnusedUse(s.runs, o, c, s.runs[c].count, Del);
    }
  }

  lemma PairedProgress(s: State)
    requires Shape(s) && 1 <= s.current < |s.stack|
    ensures Unused(Paired(s).runs) < Unused(s.runs)
  {
    var o, c := s.stack[s.current - 1], s.stack[s.current];
    var used := if s.runs[o].count >= 2 && s.runs[c].count >= 2 then 2 else 1;
    UnusedUse(s.runs, o, c, used, if used == 2 then Strong else Em);
  }

  // A stack whose runs have characters to use, but for some below the current one, and it.
  ghost predicate Loose(s: State, below: nat) {
    && s.current < |s.stack| && below <= s.current && Increasing(s.stack)
    && (forall i :: 0 <= i < |s.stack| ==> s.stack[i] < |s.runs|)
    && (forall i :: 0 <= i < |s.stack| && !(s.current - below <= i <= s.current) ==> s.runs[s.stack[i]].count >= 1)
  }

  lemma PairedLoose(s: State)
    requires Shape(s) && 1 <= s.current < |s.stack|
    ensures Loose(Paired(s), 1)
  {
  }

  lemma OpenerPrunedLoose(s: State)
    requires s.current >= 1 && Loose(s, 1)
    ensures Loose(OpenerPruned(s), 0) && |OpenerPruned(s).stack| <= |s.stack|
  {
    WithoutIncreasing(s.stack, s.current - 1, s.current);
  }

  lemma CloserPrunedShape(s: State)
    requires Loose(s, 0)
    ensures Shape(CloserPruned(s)) && |CloserPruned(s).stack| <= |s.stack|
  {
  }

  lemma PrunedShape(s: State)
    requires Shape(s) && 1 <= s.current < |s.stack|
    ensures Shape(Pruned(Paired(s))) && |Pruned(Paired(s)).stack| <= |s.stack|
  {
    PairedLoose(s);
    OpenerPrunedLoose(Paired(s));
    CloserPrunedShape(OpenerPruned(Paired(s)));
  }

  lemma UnmatchedShape(s: State)
    requires Shape(s) && s.current < |s.stack|
    ensures Shape(Unmatched(s))
  {
    WithoutIncreasing(s.stack, s.current, s.current + 1);
  }

  lemma StepProgress(s: State)
    requires Shape(s) && s.current < |s.stack|
    ensures Shape(Step(s))
    ensures var t := Step(s);
            || Unused(t.runs) + |t.stack| < Unused(s.runs) + |s.stack|
            || (t.runs == s.runs && t.stack == s.stack && t.current == s.current + 1)
  {
    var closer := s.runs[s.stack[s.current]];
    if closer.closes {
      match Opener(s.runs, s.stack, closer, s.current, Bottom(s.bottoms, Key(closer)))
      case None => UnmatchedShape(s);
      case Some(found) =>
        var j := Joined(s, found);
        if closer.mark == '~' {
          StruckProgress(j);
        } else {
          PairedProgress(j);
          PrunedShape(j);
        }
    }
  }

  function Run(s: State): State
    requires Shape(s)
    decreases Unused(s.runs) + |s.stack|, |s.stack| - s.current
  {
    if s.current == |s.stack| then s else StepProgress(s); Run(Step(s))
  }
}
