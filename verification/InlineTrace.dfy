/** How the scan keeps track of the marks of a text: its stack of brackets holds those that are open. */
module InlineTrace {
  import opened Options
  import opened InlineItems
  import opened InlineMarks

  // The marks so far, and those of the brackets on the stack.
  datatype Trace = Trace(marks: seq<Mark>, stack: seq<nat>)

  // A bracket on the stack is one that is open under as many as are above it, is active unless a link was formed
  // after it, and knows what was found before it.
  ghost predicate Tracks(t: Trace, found: seq<Item>, openers: seq<Opener>, i: nat)
    requires i < |openers| == |t.stack|
  {
    var j, n, o := t.stack[i], |t.marks|, openers[i];
    && StillOpen(t.marks, j, n) && Since(t.marks, j, n) == |openers| - 1 - i
    && o.at == Bracket(t.marks[j]) && o.image == t.marks[j].what.image
    && (o.active <==> o.image || !LinkBetween(t.marks, j, n))
    && Listed(t.marks, j) <= found && o.before == |Listed(t.marks, j)|
  }

  ghost predicate Traced(
    text: string, lexis: Lexis, t: Trace, found: seq<Item>, openers: seq<Opener>, index: nat)
  {
    && Marked(text, lexis, t.marks) && Reached(t.marks) == index
    && found == Listed(t.marks, |t.marks|) && Stacks(t, found, openers)
  }

  ghost predicate Stacks(t: Trace, found: seq<Item>, openers: seq<Opener>) {
    && |t.stack| == |openers| == Balance(t.marks, 0, |t.marks|)
    && (forall i {:trigger Tracks(t, found, openers, i)} :: 0 <= i < |openers| ==> Tracks(t, found, openers, i))
    && (forall i, j :: 0 <= i < j < |t.stack| ==> t.stack[i] < t.stack[j])
  }

  lemma ItemSame(a: seq<Mark>, b: seq<Mark>, k: nat)
    requires a <= b && k < |a|
    ensures ItemOf(a, k) == ItemOf(b, k) && a[k] == b[k]
  {
  }

  lemma {:induction false} ListedSame(a: seq<Mark>, b: seq<Mark>, n: nat)
    requires a <= b && n <= |a|
    ensures Listed(a, n) == Listed(b, n)
  {
    if n > 0 {
      ListedSame(a, b, Kept(a[n - 1], n - 1));
      ItemSame(a, b, n - 1);
    }
  }

  // One mark more that is right.
  lemma MarkedMore(text: string, lexis: Lexis, marks: seq<Mark>, m: Mark)
    requires Marked(text, lexis, marks) && Right(text, lexis, marks + [m], |marks|)
    ensures Marked(text, lexis, marks + [m]) && Reached(marks + [m]) == m.end
  {
    var more := marks + [m];
    forall k | 0 <= k < |more| ensures Right(text, lexis, more, k) {
      if k < |marks| {
        assert Right(text, lexis, marks, k);
        RightSame(text, lexis, marks, more, k);
      }
    }
  }

  // What a mark adds to the balance.
  function Weight(m: Mark): int {
    match m.what case Opening(_) => 1 case Closing(_, _) => -1 case _ => 0
  }

  lemma SinceMore(marks: seq<Mark>, m: Mark, j: nat)
    requires j < |marks|
    ensures var more, n := marks + [m], |marks|;
      && Since(more, j, n) == Since(marks, j, n) && Since(more, j, n + 1) == Since(marks, j, n) + Weight(m)
      && (StillOpen(more, j, n + 1) <==> StillOpen(marks, j, n) && Since(marks, j, n) + Weight(m) >= 0)
      && (LinkBetween(more, j, n + 1) <==> LinkBetween(marks, j, n) || (m.what.Closing? && m.what.kind == Some(Link)))
  {
    var more, n := marks + [m], |marks|;
    InnermostSame(marks, more, j, n);
    BalanceSame(marks, more, j + 1, n);
    LinkSame(marks, more, j, n);
    assert more[n] == m;
    if LinkBetween(more, j, n + 1) {
      var l :| j < l < n + 1 && more[l].what.Closing? && more[l].what.kind == Some(Link);
      assert l < n ==> LinkBetween(more, j, n);
    }
  }

  // A bracket that stays on the stack.
  lemma TracksStill(
    t: Trace, found: seq<Item>, openers: seq<Opener>, m: Mark, next: Trace, more: seq<Item>, rest: seq<Opener>, i: nat)
    requires i < |openers| == |t.stack| && Tracks(t, found, openers, i)
    requires i < |rest| == |next.stack| && next.marks == t.marks + [m] && next.stack[i] == t.stack[i]
    requires |rest| == |openers| + Weight(m)
    requires rest[i] == openers[i].(active := openers[i].active && (openers[i].image || !(m.what.Closing? && m.what.kind == Some(Link))))
    requires Listed(t.marks, t.stack[i]) <= more
    ensures Tracks(next, more, rest, i)
  {
    var j := t.stack[i];
    SinceMore(t.marks, m, j);
    ListedSame(t.marks, next.marks, j);
    assert next.marks[j] == t.marks[j];
  }

  // What a mark lists.
  lemma ListedMore(marks: seq<Mark>, m: Mark)
    ensures var more, n := marks + [m], |marks|;
      Listed(more, n + 1) == Listed(marks, Kept(m, n)) + Added(ItemOf(more, n))
  {
    var more, n := marks + [m], |marks|;
    assert more[n] == m;
    ListedSame(marks, more, Kept(m, n));
  }

  lemma BalanceMore(marks: seq<Mark>, m: Mark)
    ensures Balance(marks + [m], 0, |marks| + 1) == Balance(marks, 0, |marks|) + Weight(m)
  {
    BalanceSame(marks, marks + [m], 0, |marks|);
  }

  // A part that is no bracket leaves the stack, and adds its item.
  lemma Passes(
    text: string, lexis: Lexis, t: Trace, found: seq<Item>, openers: seq<Opener>, index: nat, m: Mark, more: seq<Item>)
    requires Traced(text, lexis, t, found, openers, index) && !m.what.Opening? && !m.what.Closing?
    requires Right(text, lexis, t.marks + [m], |t.marks|)
    requires more == found + Added(ItemOf(t.marks + [m], |t.marks|))
    ensures Traced(text, lexis, t.(marks := t.marks + [m]), more, openers, m.end)
  {
    var next := t.(marks := t.marks + [m]);
    MarkedMore(text, lexis, t.marks, m);
    ListedMore(t.marks, m);
    BalanceMore(t.marks, m);
    forall i | 0 <= i < |openers| ensures Tracks(next, more, openers, i) {
      assert Tracks(t, found, openers, i);
      TracksStill(t, found, openers, m, next, more, openers, i);
    }
  }

  // An opening bracket goes on the stack.
  lemma Pushes(
    text: string, lexis: Lexis, t: Trace, found: seq<Item>, openers: seq<Opener>, index: nat, m: Mark, o: Opener)
    requires Traced(text, lexis, t, found, openers, index) && m.what.Opening?
    requires Right(text, lexis, t.marks + [m], |t.marks|)
    requires o == Opener(Bracket(m), m.what.image, true, |found|)
    ensures Traced(text, lexis, Trace(t.marks + [m], t.stack + [|t.marks|]), found, openers + [o], m.end)
  {
    MarkedMore(text, lexis, t.marks, m);
    ListedMore(t.marks, m);
    PushStacks(t, found, openers, m, o);
  }

  lemma PushStacks(t: Trace, found: seq<Item>, openers: seq<Opener>, m: Mark, o: Opener)
    requires Stacks(t, found, openers) && found == Listed(t.marks, |t.marks|) && m.what.Opening?
    requires o == Opener(Bracket(m), m.what.image, true, |found|)
    ensures Stacks(Trace(t.marks + [m], t.stack + [|t.marks|]), found, openers + [o])
  {
    var next, rest := Trace(t.marks + [m], t.stack + [|t.marks|]), openers + [o];
    BalanceMore(t.marks, m);
    forall i | 0 <= i < |rest| ensures Tracks(next, found, rest, i) {
      if i < |openers| {
        assert Tracks(t, found, openers, i);
        TracksStill(t, found, openers, m, next, found, rest, i);
      } else {
        TracksNew(t, found, next, rest, m);
      }
    }
    forall i | 0 <= i < |t.stack| ensures t.stack[i] < |t.marks| {
      assert Tracks(t, found, openers, i);
    }
  }

  lemma TracksNew(t: Trace, found: seq<Item>, next: Trace, rest: seq<Opener>, m: Mark)
    requires found == Listed(t.marks, |t.marks|) && m.what.Opening? && next == Trace(t.marks + [m], t.stack + [|t.marks|])
    requires |rest| == |next.stack| && rest[|rest| - 1] == Opener(Bracket(m), m.what.image, true, |found|)
    ensures Tracks(next, found, rest, |rest| - 1)
  {
    var n := |t.marks|;
    assert next.marks[n] == m;
    ListedSame(t.marks, next.marks, n);
  }

  // The bracket on top is the last open one.
  lemma TopInnermost(text: string, lexis: Lexis, t: Trace, found: seq<Item>, openers: seq<Opener>, index: nat)
    requires Traced(text, lexis, t, found, openers, index) && openers != []
    ensures Innermost(t.marks, t.stack[|t.stack| - 1], |t.marks|)
  {
    assert Tracks(t, found, openers, |openers| - 1);
  }

  // A closing bracket takes it off, and a link deactivates what is left.
  lemma Pops(
    text: string, lexis: Lexis, t: Trace, found: seq<Item>, openers: seq<Opener>, index: nat, m: Mark,
    more: seq<Item>, rest: seq<Opener>)
    requires Traced(text, lexis, t, found, openers, index) && openers != []
    requires Right(text, lexis, t.marks + [m], |t.marks|) && m.what.Closing? && m.what.opener == t.stack[|t.stack| - 1]
    requires rest == if m.what.kind == Some(Link) then Deactivated(openers[..|openers| - 1]) else openers[..|openers| - 1]
    requires openers[|openers| - 1].before <= |found|
    requires forall i :: 0 <= i < |openers| - 1 ==> openers[i].before <= openers[|openers| - 1].before
    requires more == (if IsImage(m) then found[..openers[|openers| - 1].before] else found)
                     + Added(ItemOf(t.marks + [m], |t.marks|))
    ensures Traced(text, lexis, Trace(t.marks + [m], t.stack[..|t.stack| - 1]), more, rest, m.end)
  {
    PopKeeps(t, found, openers, m);
    MarkedMore(text, lexis, t.marks, m);
    ListedMore(t.marks, m);
    PopStacks(t, found, openers, m, more, rest);
  }

  lemma PopKeeps(t: Trace, found: seq<Item>, openers: seq<Opener>, m: Mark)
    requires Stacks(t, found, openers) && openers != [] && found == Listed(t.marks, |t.marks|)
    requires m.what.Closing? && m.what.opener == t.stack[|t.stack| - 1] && openers[|openers| - 1].before <= |found|
    ensures Listed(t.marks, Kept(m, |t.marks|)) == if IsImage(m) then found[..openers[|openers| - 1].before] else found
  {
    assert Tracks(t, found, openers, |openers| - 1);
  }

  lemma PopStacks(t: Trace, found: seq<Item>, openers: seq<Opener>, m: Mark, more: seq<Item>, rest: seq<Opener>)
    requires Stacks(t, found, openers) && openers != [] && m.what.Closing?
    requires rest == if m.what.kind == Some(Link) then Deactivated(openers[..|openers| - 1]) else openers[..|openers| - 1]
    requires openers[|openers| - 1].before <= |found|
    requires forall i :: 0 <= i < |openers| - 1 ==> openers[i].before <= openers[|openers| - 1].before
    requires (if IsImage(m) then found[..openers[|openers| - 1].before] else found) <= more
    ensures Stacks(Trace(t.marks + [m], t.stack[..|t.stack| - 1]), more, rest)
  {
    var next := Trace(t.marks + [m], t.stack[..|t.stack| - 1]);
    BalanceMore(t.marks, m);
    forall i | 0 <= i < |rest| ensures Tracks(next, more, rest, i) {
      BelowTop(t, found, openers, i, m, more);
      TracksStill(t, found, openers, m, next, more, rest, i);
    }
  }

  // What was found before a lower bracket was found before the one on top.
  lemma BelowTop(t: Trace, found: seq<Item>, openers: seq<Opener>, i: nat, m: Mark, more: seq<Item>)
    requires Stacks(t, found, openers) && i < |openers| - 1
    requires openers[i].before <= openers[|openers| - 1].before <= |found|
    requires (if IsImage(m) then found[..openers[|openers| - 1].before] else found) <= more
    ensures Tracks(t, found, openers, i) && t.stack[i] <= |t.marks| && Listed(t.marks, t.stack[i]) <= more
  {
    assert Tracks(t, found, openers, i) && Tracks(t, found, openers, |openers| - 1);
  }

  // The next mark is right if it is what the text says, where brackets are open exactly if some are on the stack;
  lemma ReadingRight(text: string, lexis: Lexis, t: Trace, found: seq<Item>, openers: seq<Opener>, index: nat, m: Mark)
    requires Traced(text, lexis, t, found, openers, index) && index < |text|
    requires text[index] != '`' && (text[index] == ']' ==> openers == [])
    requires m == Reading(text, lexis, index, openers == []) && m.end <= |text| && index < m.end
    ensures Right(text, lexis, t.marks + [m], |t.marks|)
  {
    BalanceSame(t.marks, t.marks + [m], 0, |t.marks|);
  }

  // or backticks up to the next run of as many;
  lemma TicksRight(text: string, lexis: Lexis, t: Trace, found: seq<Item>, openers: seq<Opener>, index: nat, m: Mark)
    requires Traced(text, lexis, t, found, openers, index) && index < |text| && text[index] == '`'
    requires TicksEnd(text, index) > index && m == TicksMark(text, index)
    ensures Right(text, lexis, t.marks + [m], |t.marks|)
  {
    TicksAre(text, index);
  }

  function TicksMark(text: string, index: nat): (m: Mark)
    requires index < |text| && TicksEnd(text, index) > index
    ensures index == m.start < m.end <= |text|
  {
    var run := TicksEnd(text, index);
    match ClosingTicks(text, run, run - index)
    case Some(at) => Mark(index, at + run - index, Span(at))
    case None => Mark(index, run, Ticks)
  }

  lemma TicksAre(text: string, index: nat)
    requires index < |text| && TicksEnd(text, index) > index
    ensures RightTicks(text, TicksMark(text, index))
  {
    var run := TicksEnd(text, index);
    var ticks := run - index;
    ClosingFirst(text, run, ticks);
    assert RunFrom(text, index, run);
    match ClosingTicks(text, run, ticks)
    case Some(at) => assert FirstRun(text, run, ticks, at);
    case None => assert !HasRun(text, run, ticks);
  }

  lemma {:induction false} ClosingFirst(text: string, from: nat, ticks: nat)
    requires from <= |text| && ticks > 0
    requires from == |text| || text[from] != '`' || from == 0 || text[from - 1] != '`'
    ensures match ClosingTicks(text, from, ticks)
            case Some(at) => FirstRun(text, from, ticks, at)
            case None => forall i :: i >= from ==> !MaxRun(text, i, ticks)
    decreases |text| - from
  {
    if from < |text| {
      if text[from] != '`' {
        ClosingFirst(text, from + 1, ticks);
      } else {
        var end := TicksEnd(text, from);
        assert end > from;
        if end - from != ticks {
          forall i | from <= i < end ensures !MaxRun(text, i, ticks) {
            if i > from {
              assert text[i - 1] == '`';
            }
          }
          ClosingFirst(text, end, ticks);
        }
      }
    }
  }

  // or what the bracket on top and this one are.
  lemma PairRight(text: string, lexis: Lexis, t: Trace, found: seq<Item>, openers: seq<Opener>, index: nat, m: Mark)
    requires Traced(text, lexis, t, found, openers, index) && openers != [] && index < |text| && text[index] == ']'
    requires index < m.end <= |text|
    requires var o := openers[|openers| - 1];
             var link := if o.active then lexis.linkEnd(o.at, index) else None;
             m == match link
                  case Some(end) => Mark(index, end, Closing(t.stack[|t.stack| - 1], Some(if o.image then Image else Link)))
                  case None => Mark(index, index + 1, Closing(t.stack[|t.stack| - 1],
                                                              if !o.image && lexis.cites(o.at, index) then Some(Footnote) else None))
    ensures Right(text, lexis, t.marks + [m], |t.marks|)
    ensures ItemOf(t.marks + [m], |t.marks|) ==
            match m.what.kind case None => None case Some(kind) => Some(Item(kind, openers[|openers| - 1].at, index, m.end))
  {
    var more, n, j := t.marks + [m], |t.marks|, t.stack[|t.stack| - 1];
    assert Tracks(t, found, openers, |openers| - 1);
    BalanceSame(t.marks, more, 0, n);
    InnermostSame(t.marks, more, j, n);
    LinkSame(t.marks, more, j, n);
    assert more[j] == t.marks[j] && more[n] == m;
    assert m == PairMark(lexis, more, j, n);
  }
}
