/** Why the tags that matching leaves on the runs nest when they are rendered. */
module EmphasisNesting {
  import opened Options
  import opened Tags
  import opened Emphasis

  function Closings(ends: seq<Tag>): seq<Token> {
    seq(|ends|, i requires 0 <= i < |ends| => Close(ends[i]))
  }

  // Elements start outermost first, in the reverse of the order of their matches.
  function Openings(starts: seq<Tag>): seq<Token> {
    seq(|starts|, i requires 0 <= i < |starts| => Open(starts[|starts| - 1 - i]))
  }

  function Literal(run: Delimiter): string {
    seq(run.count, i => run.mark)
  }

  function Rendered(run: Delimiter): seq<Token> {
    Closings(run.ends) + [Text(Literal(run))] + Openings(run.starts)
  }

  // What renders from the gap before run a to the gap before run b; the gap after the last run is
  // that before a run that is not there.
  function Between(gaps: seq<seq<Token>>, runs: seq<Delimiter>, a: nat, b: nat): seq<Token>
    requires |gaps| == |runs| + 1 && a <= b <= |runs|
    decreases b - a
  {
    if a == b then gaps[a] else gaps[a] + Rendered(runs[a]) + Between(gaps, runs, a + 1, b)
  }

  lemma {:induction false} BetweenSplit(
      gaps: seq<seq<Token>>, runs: seq<Delimiter>, a: nat, b: nat, c: nat)
    requires |gaps| == |runs| + 1 && a <= b < c <= |runs|
    ensures Between(gaps, runs, a, c)
            == Between(gaps, runs, a, b) + Rendered(runs[b]) + Between(gaps, runs, b + 1, c)
    decreases b - a
  {
    if a < b {
      BetweenSplit(gaps, runs, a + 1, b, c);
    }
  }

  lemma {:induction false} BetweenFrame(
      gaps: seq<seq<Token>>, runs: seq<Delimiter>, other: seq<Delimiter>, a: nat, b: nat)
    requires |gaps| == |runs| + 1 == |other| + 1 && a <= b <= |runs|
    requires forall i :: a <= i < b ==> runs[i] == other[i]
    ensures Between(gaps, runs, a, b) == Between(gaps, other, a, b)
    decreases b - a
  {
    if a < b {
      BetweenFrame(gaps, runs, other, a + 1, b);
    }
  }

  // What renders after the text of run i and before that of run j, where -1 and the number of the
  // runs stand for the ends of the content.
  function Segment(gaps: seq<seq<Token>>, runs: seq<Delimiter>, i: int, j: int): seq<Token>
    requires |gaps| == |runs| + 1 && -1 <= i < j <= |runs|
  {
    (if i < 0 then [] else Openings(runs[i].starts))
    + Between(gaps, runs, i + 1, j)
    + (if j == |runs| then [] else Closings(runs[j].ends))
  }

  lemma Regroup(a: seq<Token>, x: seq<Token>, e: seq<Token>, t: seq<Token>, p: seq<Token>,
                y: seq<Token>, z: seq<Token>)
    ensures a + (x + (e + t + p) + y) + z == (a + x + e) + t + (p + y + z)
  {
  }

  lemma SegmentSplit(gaps: seq<seq<Token>>, runs: seq<Delimiter>, i: int, j: int, k: int)
    requires |gaps| == |runs| + 1 && -1 <= i < j < k <= |runs|
    ensures Segment(gaps, runs, i, k)
            == Segment(gaps, runs, i, j) + [Text(Literal(runs[j]))] + Segment(gaps, runs, j, k)
  {
    BetweenSplit(gaps, runs, i + 1, j, k);
    Regroup(
      if i < 0 then [] else Openings(runs[i].starts), Between(gaps, runs, i + 1, j),
      Closings(runs[j].ends), [Text(Literal(runs[j]))], Openings(runs[j].starts),
      Between(gaps, runs, j + 1, k), if k == |runs| then [] else Closings(runs[k].ends));
  }

  // The k-th place of the stack between sentinels for the ends of the content.
  function Bound(stack: seq<nat>, size: nat, k: nat): int
    requires k <= |stack| + 1
  {
    if k == 0 then -1 else if k == |stack| + 1 then size else stack[k - 1]
  }

  ghost predicate Within(stack: seq<nat>, size: nat) {
    Increasing(stack) && forall i :: 0 <= i < |stack| ==> stack[i] < size
  }

  // The tags between two runs nest. The quantifier keeps proofs from looking into the segment.
  ghost predicate Spans(gaps: seq<seq<Token>>, runs: seq<Delimiter>, i: int, j: int)
    requires |gaps| == |runs| + 1 && -1 <= i < j <= |runs|
  {
    forall tags {:trigger Nested(tags)} :: tags == Segment(gaps, runs, i, j) ==> Nested(tags)
  }

  // The tags between each two neighbours of the stack nest.
  ghost predicate Nests(gaps: seq<seq<Token>>, runs: seq<Delimiter>, stack: seq<nat>)
    requires |gaps| == |runs| + 1 && Within(stack, |runs|)
  {
    forall k {:trigger NestsAt(gaps, runs, stack, k)} :: 0 <= k <= |stack| ==> NestsAt(gaps, runs, stack, k)
  }

  ghost predicate NestsAt(gaps: seq<seq<Token>>, runs: seq<Delimiter>, stack: seq<nat>, k: nat)
    requires |gaps| == |runs| + 1 && Within(stack, |runs|) && k <= |stack|
  {
    Spans(gaps, runs, Bound(stack, |runs|, k), Bound(stack, |runs|, k + 1))
  }

  lemma SegmentsJoin(gaps: seq<seq<Token>>, runs: seq<Delimiter>, i: int, j: int, k: int)
    requires |gaps| == |runs| + 1 && -1 <= i < j < k <= |runs|
    requires Spans(gaps, runs, i, j) && Spans(gaps, runs, j, k)
    ensures Spans(gaps, runs, i, k)
  {
    SegmentSplit(gaps, runs, i, j, k);
    NestedText(Literal(runs[j]));
    NestedConcat(Segment(gaps, runs, i, j), [Text(Literal(runs[j]))]);
    NestedConcat(Segment(gaps, runs, i, j) + [Text(Literal(runs[j]))], Segment(gaps, runs, j, k));
  }

  // So do those between any two places of it.
  lemma {:induction false} NestsAcross(
      gaps: seq<seq<Token>>, runs: seq<Delimiter>, stack: seq<nat>, p: nat, q: nat, i: int, k: int)
    requires |gaps| == |runs| + 1 && Within(stack, |runs|) && Nests(gaps, runs, stack)
    requires p < q <= |stack| + 1 && i == Bound(stack, |runs|, p) && k == Bound(stack, |runs|, q)
    ensures Spans(gaps, runs, i, k)
    decreases q - p
  {
    var j := Bound(stack, |runs|, p + 1);
    NestsNext(gaps, runs, stack, p, i, j);
    if p + 1 < q {
      NestsAcross(gaps, runs, stack, p + 1, q, j, k);
      SegmentsJoin(gaps, runs, i, j, k);
    }
  }

  lemma NestsNext(gaps: seq<seq<Token>>, runs: seq<Delimiter>, stack: seq<nat>, p: nat, i: int, j: int)
    requires |gaps| == |runs| + 1 && Within(stack, |runs|) && Nests(gaps, runs, stack) && p <= |stack|
    requires i == Bound(stack, |runs|, p) && j == Bound(stack, |runs|, p + 1)
    ensures Spans(gaps, runs, i, j)
  {
    assert NestsAt(gaps, runs, stack, p);
  }

  lemma NestsWithout(
      gaps: seq<seq<Token>>, runs: seq<Delimiter>, stack: seq<nat>, from: nat, to: nat)
    requires |gaps| == |runs| + 1 && Within(stack, |runs|) && Nests(gaps, runs, stack)
    requires from <= to <= |stack|
    ensures Within(Without(stack, from, to), |runs|) && Nests(gaps, runs, Without(stack, from, to))
  {
    WithoutIncreasing(stack, from, to);
    var n, rest := |runs|, Without(stack, from, to);
    forall k | 0 <= k <= |rest| ensures NestsAt(gaps, runs, rest, k) {
      var p := if k <= from then k else k + to - from;
      var q := if k + 1 <= from then k + 1 else k + 1 + to - from;
      assert Bound(rest, n, k) == Bound(stack, n, p) && Bound(rest, n, k + 1) == Bound(stack, n, q);
      NestsAcross(gaps, runs, stack, p, q, Bound(stack, n, p), Bound(stack, n, q));
    }
  }

  lemma SegmentUse(gaps: seq<seq<Token>>, runs: seq<Delimiter>, o: nat, c: nat, used: nat, tag: Tag)
    requires |gaps| == |runs| + 1 && o < c < |runs| && runs[o].count >= used && runs[c].count >= used
    ensures Segment(gaps, Use(runs, o, c, used, tag), o, c)
            == [Open(tag)] + Segment(gaps, runs, o, c) + [Close(tag)]
  {
    var after := Use(runs, o, c, used, tag);
    BetweenFrame(gaps, runs, after, o + 1, c);
    assert Openings(after[o].starts) == [Open(tag)] + Openings(runs[o].starts);
    assert Closings(after[c].ends) == Closings(runs[c].ends) + [Close(tag)];
  }

  // A match leaves what renders elsewhere as it was.
  lemma SegmentFrame(gaps: seq<seq<Token>>, runs: seq<Delimiter>, o: nat, c: nat, used: nat, tag: Tag,
                     i: int, j: int)
    requires |gaps| == |runs| + 1 && o < c < |runs| && runs[o].count >= used && runs[c].count >= used
    requires -1 <= i < j <= |runs| && (j <= o || c <= i)
    ensures Segment(gaps, Use(runs, o, c, used, tag), i, j) == Segment(gaps, runs, i, j)
  {
    BetweenFrame(gaps, runs, Use(runs, o, c, used, tag), i + 1, j);
  }

  // A match of two neighbours of the stack wraps the tags between them.
  lemma NestsUse(
      gaps: seq<seq<Token>>, runs: seq<Delimiter>, stack: seq<nat>, f: nat, used: nat, tag: Tag)
    requires |gaps| == |runs| + 1 && Within(stack, |runs|) && Nests(gaps, runs, stack)
    requires f + 1 < |stack| && runs[stack[f]].count >= used && runs[stack[f + 1]].count >= used
    ensures Nests(gaps, Use(runs, stack[f], stack[f + 1], used, tag), stack)
  {
    var n, o, c := |runs|, stack[f], stack[f + 1];
    var after := Use(runs, o, c, used, tag);
    forall k | 0 <= k <= |stack| ensures NestsAt(gaps, after, stack, k) {
      assert NestsAt(gaps, runs, stack, k);
      var i, j := Bound(stack, n, k), Bound(stack, n, k + 1);
      if k == f + 1 {
        SegmentUse(gaps, runs, o, c, used, tag);
        NestedWrap(tag, Segment(gaps, runs, i, j));
      } else {
        SegmentFrame(gaps, runs, o, c, used, tag, i, j);
      }
    }
  }

  ghost predicate StateNests(gaps: seq<seq<Token>>, s: State)
    requires |gaps| == |s.runs| + 1 && Shape(s)
  {
    Nests(gaps, s.runs, s.stack)
  }

  lemma StruckNests(gaps: seq<seq<Token>>, s: State)
    requires Shape(s) && 1 <= s.current < |s.stack| && |gaps| == |s.runs| + 1
    requires StateNests(gaps, s)
    ensures |Struck(s).runs| == |s.runs| && Shape(Struck(s)) && StateNests(gaps, Struck(s))
  {
    StruckProgress(s);
    var o, c := s.stack[s.current - 1], s.stack[s.current];
    var used := s.runs[c].count;
    if s.runs[o].count == used {
      NestsUse(gaps, s.runs, s.stack, s.current - 1, used, Del);
      NestsWithout(gaps, Use(s.runs, o, c, used, Del), s.stack, s.current - 1, s.current + 1);
    } else {
      NestsWithout(gaps, s.runs, s.stack, s.current - 1, s.current + 1);
    }
  }

  lemma PairedNests(gaps: seq<seq<Token>>, s: State)
    requires Shape(s) && 1 <= s.current < |s.stack| && |gaps| == |s.runs| + 1
    requires StateNests(gaps, s)
    ensures Nests(gaps, Paired(s).runs, s.stack)
  {
    var f, o, c := s.current - 1, s.stack[s.current - 1], s.stack[s.current];
    var used := if s.runs[o].count >= 2 && s.runs[c].count >= 2 then 2 else 1;
    var tag := if used == 2 then Strong else Em;
    assert Paired(s).runs == Use(s.runs, s.stack[f], s.stack[f + 1], used, tag);
    NestsUse(gaps, s.runs, s.stack, f, used, tag);
  }

  lemma PrunedNests(gaps: seq<seq<Token>>, s: State)
    requires 1 <= s.current < |s.stack| && |gaps| == |s.runs| + 1
    requires Within(s.stack, |s.runs|) && Nests(gaps, s.runs, s.stack)
    ensures Within(Pruned(s).stack, |s.runs|) && Nests(gaps, s.runs, Pruned(s).stack)
  {
    OpenerPrunedNests(gaps, s);
    CloserPrunedNests(gaps, OpenerPruned(s));
  }

  lemma OpenerPrunedNests(gaps: seq<seq<Token>>, s: State)
    requires 1 <= s.current < |s.stack| && |gaps| == |s.runs| + 1
    requires Within(s.stack, |s.runs|) && Nests(gaps, s.runs, s.stack)
    ensures Within(OpenerPruned(s).stack, |s.runs|) && Nests(gaps, s.runs, OpenerPruned(s).stack)
  {
    NestsWithout(gaps, s.runs, s.stack, s.current - 1, s.current);
  }

  lemma CloserPrunedNests(gaps: seq<seq<Token>>, s: State)
    requires s.current < |s.stack| && |gaps| == |s.runs| + 1
    requires Within(s.stack, |s.runs|) && Nests(gaps, s.runs, s.stack)
    ensures Within(CloserPruned(s).stack, |s.runs|) && Nests(gaps, s.runs, CloserPruned(s).stack)
  {
    NestsWithout(gaps, s.runs, s.stack, s.current, s.current + 1);
  }

  lemma EmphasisNests(gaps: seq<seq<Token>>, s: State)
    requires Shape(s) && 1 <= s.current < |s.stack| && |gaps| == |s.runs| + 1
    requires StateNests(gaps, s)
    ensures var t := Pruned(Paired(s)); |t.runs| == |s.runs| && Shape(t) && StateNests(gaps, t)
  {
    PrunedShape(s);
    PairedNests(gaps, s);
    PrunedNests(gaps, Paired(s));
  }

  lemma JoinedNests(gaps: seq<seq<Token>>, s: State, found: nat)
    requires Shape(s) && found < s.current < |s.stack| && |gaps| == |s.runs| + 1
    requires StateNests(gaps, s)
    ensures StateNests(gaps, Joined(s, found))
  {
    NestsWithout(gaps, s.runs, s.stack, found + 1, s.current);
  }

  lemma UnmatchedNests(gaps: seq<seq<Token>>, s: State)
    requires Shape(s) && s.current < |s.stack| && |gaps| == |s.runs| + 1
    requires StateNests(gaps, s)
    ensures var t := Unmatched(s); |t.runs| == |s.runs| && Shape(t) && StateNests(gaps, t)
  {
    UnmatchedShape(s);
    if s.runs[s.stack[s.current]].opens {
      assert Unmatched(s).stack == s.stack;
    } else {
      NestsWithout(gaps, s.runs, s.stack, s.current, s.current + 1);
      assert Unmatched(s).stack == Without(s.stack, s.current, s.current + 1);
    }
  }

  // A turn of the loop keeps the tags nested.
  lemma StepNests(gaps: seq<seq<Token>>, s: State)
    requires Shape(s) && s.current < |s.stack| && |gaps| == |s.runs| + 1
    requires StateNests(gaps, s)
    ensures |Step(s).runs| == |s.runs| && Shape(Step(s)) && StateNests(gaps, Step(s))
  {
    var closer := s.runs[s.stack[s.current]];
    if closer.closes {
      match Opener(s.runs, s.stack, closer, s.current, Bottom(s.bottoms, Key(closer)))
      case None => UnmatchedNests(gaps, s);
      case Some(found) =>
        JoinedNests(gaps, s, found);
        if closer.mark == '~' {
          StruckNests(gaps, Joined(s, found));
        } else {
          EmphasisNests(gaps, Joined(s, found));
        }
    }
  }
}
