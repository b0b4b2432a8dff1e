/** What a comparison says of every entry: each of either commit is unchanged or is in exactly one change,
    and one that no change flags is still there. */
module ComparisonLaws {
  import opened Options
  import opened ComparisonEntries
  import opened Comparison

  // What comparing ensures.
  ghost predicate Outcome(s: Sides, changes: seq<Change>) {
    && s.Valid() && AllJustified(s, changes)
    && BaseOf(changes) == BaseOf(s.Common()) + multiset(s.Gone())
    && HeadOf(changes) == HeadOf(s.Common()) + multiset(s.New())
  }

  // The entry is the same in both commits, in the same file.
  predicate Unchanged(s: Sides, k: Key) {
    k in s.base && k in s.head && Same(s.base[k], s.head[k]) && s.base[k].path == s.head[k].path
  }

  lemma {:induction false} BaseConcat(a: seq<Change>, b: seq<Change>)
    ensures BaseOf(a + b) == BaseOf(a) + BaseOf(b) && HeadOf(a + b) == HeadOf(a) + HeadOf(b)
  {
    if b == [] {
      assert a + b == a;
    } else {
      assert (a + b)[..|a + b| - 1] == a + b[..|b| - 1];
      BaseConcat(a, b[..|b| - 1]);
    }
  }

  ghost predicate Distinct(keys: seq<Key>) {
    forall i, j :: 0 <= i < j < |keys| ==> keys[i] != keys[j]
  }

  // A key's changes and entries hold its own entry once, unless it is unchanged.
  lemma BaseAt(s: Sides, k: Key)
    ensures BaseOf(s.CommonAt(k)) + multiset(s.GoneAt(k))
            == if k in s.base && !Unchanged(s, k) then multiset{s.base[k]} else multiset{}
  {
  }

  lemma HeadAt(s: Sides, k: Key)
    ensures HeadOf(s.CommonAt(k)) + multiset(s.NewAt(k))
            == if k in s.head && !Unchanged(s, k) then multiset{s.head[k]} else multiset{}
  {
  }

  lemma {:induction false} OnceFrom(s: Sides, rest: seq<Key>, k: Key)
    requires s.Valid() && Distinct(rest)
    ensures k in s.base ==>
              BaseOf(s.CommonFrom(rest))[s.base[k]] + multiset(s.GoneFrom(rest))[s.base[k]]
              == if k in rest && !Unchanged(s, k) then 1 else 0
    ensures k in s.head ==>
              HeadOf(s.CommonFrom(rest))[s.head[k]] + multiset(s.NewFrom(rest))[s.head[k]]
              == if k in rest && !Unchanged(s, k) then 1 else 0
  {
    if rest != [] {
      var first, more := rest[0], rest[1..];
      assert rest == [first] + more;
      assert first !in more;
      OnceFrom(s, more, k);
      BaseAt(s, first);
      HeadAt(s, first);
      BaseConcat(s.CommonAt(first), s.CommonFrom(more));
      OnceStep(s, first, more, k);
    }
  }

  lemma OnceStep(s: Sides, first: Key, more: seq<Key>, k: Key)
    requires s.Valid()
    ensures k in s.base ==>
              (BaseOf(s.CommonAt(first)) + multiset(s.GoneAt(first)))[s.base[k]]
              == if k == first && !Unchanged(s, k) then 1 else 0
    ensures k in s.head ==>
              (HeadOf(s.CommonAt(first)) + multiset(s.NewAt(first)))[s.head[k]]
              == if k == first && !Unchanged(s, k) then 1 else 0
  {
    BaseAt(s, first);
    HeadAt(s, first);
    assert k in s.base && first in s.base ==> (s.base[first] == s.base[k] <==> first == k);
    assert k in s.head && first in s.head ==> (s.head[first] == s.head[k] <==> first == k);
  }

  // Each entry of either commit is unchanged or in exactly one change.
  lemma EachOnce(s: Sides, changes: seq<Change>, k: Key)
    requires Outcome(s, changes)
    ensures k in s.base ==> BaseOf(changes)[s.base[k]] == if Unchanged(s, k) then 0 else 1
    ensures k in s.head ==> HeadOf(changes)[s.head[k]] == if Unchanged(s, k) then 0 else 1
  {
    OnceFrom(s, s.keys, k);
  }

  lemma {:induction false} Mentioned(changes: seq<Change>, e: Entry) returns (i: nat)
    requires BaseOf(changes)[e] > 0
    ensures i < |changes| && changes[i].base == Some(e)
  {
    i := |changes| - 1;
    if changes[i].base != Some(e) {
      i := Mentioned(changes[..i], e);
    }
  }

  // How an entry survives: under its key, with its content and conditions or, if it may grow, more of
  // its content; or as a new entry of its text and conditions, which no other change speaks of.
  ghost predicate Survives(s: Sides, changes: seq<Change>, was: Entry) {
    || (was.key in s.head && (Same(was, s.head[was.key]) || Grew(was, s.head[was.key])))
    || exists i :: 0 <= i < |changes| && Relocates(s, changes, i, was)
  }

  ghost predicate Relocates(s: Sides, changes: seq<Change>, i: nat, was: Entry)
    requires i < |changes|
  {
    && changes[i].base == Some(was) && changes[i].head.Some? && IsNew(s, changes[i].head.value)
    && changes[i].head.value.moved == was.moved && changes[i].head.value.conditions == was.conditions
    && HeadOf(changes)[changes[i].head.value] == 1
  }

  // An entry that no change flags survives.
  lemma NoSilentLoss(s: Sides, changes: seq<Change>, k: Key)
    requires Outcome(s, changes) && k in s.base
    requires forall i :: 0 <= i < |changes| && changes[i].base == Some(s.base[k]) ==> !changes[i].Flags()
    ensures Survives(s, changes, s.base[k])
  {
    var was := s.base[k];
    EachOnce(s, changes, k);
    if !Unchanged(s, k) {
      var i := Mentioned(changes, was);
      assert Justified(s, changes[i]) && was.key == k;
      if k !in s.head {
        var now := changes[i].head.value;
        EachOnce(s, changes, now.key);
        assert Relocates(s, changes, i, was);
      }
    }
  }

  function Count(changes: seq<Change>, action: Action): nat {
    if changes == [] then 0
    else Count(changes[..|changes| - 1], action) + if changes[|changes| - 1].action == action then 1 else 0
  }

  lemma {:induction false} CountSizes(s: Sides, changes: seq<Change>)
    requires AllJustified(s, changes)
    ensures |BaseOf(changes)| + Count(changes, Added) == |changes| == |HeadOf(changes)| + Count(changes, Removed)
  {
    if changes != [] {
      CountSizes(s, changes[..|changes| - 1]);
      assert Justified(s, changes[|changes| - 1]);
    }
  }

  // How many of some keys a map has, and how many are unchanged.
  function Present(rest: seq<Key>, entries: map<Key, Entry>): nat {
    if rest == [] then 0 else (if rest[0] in entries then 1 else 0) + Present(rest[1..], entries)
  }

  function Still(s: Sides, rest: seq<Key>): nat {
    if rest == [] then 0 else (if Unchanged(s, rest[0]) then 1 else 0) + Still(s, rest[1..])
  }

  lemma {:induction false} PresentSize(rest: seq<Key>, entries: map<Key, Entry>)
    requires Distinct(rest)
    ensures Present(rest, entries) == |set k | k in entries && k in rest|
  {
    var there := set k | k in entries && k in rest;
    if rest != [] {
      var first, more := rest[0], rest[1..];
      PresentSize(more, entries);
      assert rest == [first] + more && first !in more;
      assert there == (set k | k in entries && k in more) + (if first in entries then {first} else {});
    }
  }

  lemma {:induction false} SizesFrom(s: Sides, rest: seq<Key>)
    requires s.Valid()
    ensures |BaseOf(s.CommonFrom(rest))| + |s.GoneFrom(rest)| + Still(s, rest) == Present(rest, s.base)
    ensures |HeadOf(s.CommonFrom(rest))| + |s.NewFrom(rest)| + Still(s, rest) == Present(rest, s.head)
  {
    if rest != [] {
      var first, more := rest[0], rest[1..];
      SizesFrom(s, more);
      SizesAt(s, first);
      BaseConcat(s.CommonAt(first), s.CommonFrom(more));
    }
  }

  lemma SizesAt(s: Sides, k: Key)
    requires s.Valid()
    ensures |BaseOf(s.CommonAt(k))| + |s.GoneAt(k)| + (if Unchanged(s, k) then 1 else 0) == if k in s.base then 1 else 0
    ensures |HeadOf(s.CommonAt(k))| + |s.NewAt(k)| + (if Unchanged(s, k) then 1 else 0) == if k in s.head then 1 else 0
  {
  }

  // The entries of the base and those added are as many as those of the head and those removed.
  lemma Conserves(s: Sides, changes: seq<Change>)
    requires Outcome(s, changes)
    ensures |s.base| + Count(changes, Added) == |s.head| + Count(changes, Removed)
  {
    CountSizes(s, changes);
    SizesFrom(s, s.keys);
    AllPresent(s);
    assert |BaseOf(changes)| == |BaseOf(s.Common())| + |s.Gone()|;
    assert |HeadOf(changes)| == |HeadOf(s.Common())| + |s.New()|;
  }

  lemma AllPresent(s: Sides)
    requires s.Valid()
    ensures Present(s.keys, s.base) == |s.base| && Present(s.keys, s.head) == |s.head|
  {
    PresentSize(s.keys, s.base);
    PresentSize(s.keys, s.head);
    assert (set k | k in s.base && k in s.keys) == s.base.Keys;
    assert (set k | k in s.head && k in s.keys) == s.head.Keys;
  }
}
