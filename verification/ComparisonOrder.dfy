/** In what order entries that are gone are paired with new ones, and with which: what each change of a
    comparison follows from, and that nothing else does. */
module ComparisonOrder {
  import opened Options
  import opened ComparisonEntries

  // The entries gone that wait, in order, and the new ones that are left.
  datatype Board = Board(waiting: seq<Entry>, rest: seq<Entry>)

  // No entry is there twice.
  ghost predicate Unique(entries: seq<Entry>) {
    forall i, j :: 0 <= i < j < |entries| ==> entries[i] != entries[j]
  }

  function Remove(entries: seq<Entry>, e: Entry): seq<Entry> {
    if entries == [] then []
    else if entries[0] == e then entries[1..]
    else [entries[0]] + Remove(entries[1..], e)
  }

  lemma {:induction false} RemoveAt(entries: seq<Entry>, at: nat)
    requires Unique(entries) && at < |entries|
    ensures Remove(entries, entries[at]) == Without(entries, at) && Unique(Without(entries, at))
  {
    RemoveIs(entries, entries[at], at);
    UniqueWithout(entries, at);
  }

  lemma {:induction false} RemoveIs(entries: seq<Entry>, e: Entry, at: nat)
    requires at < |entries| && entries[at] == e && forall i :: 0 <= i < at ==> entries[i] != e
    ensures Remove(entries, e) == Without(entries, at)
  {
    if at > 0 {
      assert forall i :: 0 <= i < |entries| - 1 ==> entries[1..][i] == entries[i + 1];
      RemoveIs(entries[1..], e, at - 1);
      assert Without(entries, at) == [entries[0]] + Without(entries[1..], at - 1);
    }
  }

  lemma UniqueWithout(entries: seq<Entry>, at: nat)
    requires Unique(entries) && at < |entries|
    ensures Unique(Without(entries, at))
  {
    assert forall i :: 0 <= i < |entries| - 1 ==> Without(entries, at)[i] == entries[if i < at then i else i + 1];
  }

  lemma {:induction false} RemoveMembers(entries: seq<Entry>, e: Entry, x: Entry)
    ensures x in Remove(entries, e) ==> x in entries
    ensures x in entries && x != e ==> x in Remove(entries, e)
  {
    if entries != [] && entries[0] != e {
      RemoveMembers(entries[1..], e, x);
    }
  }

  // A change takes the entries that it speaks of.
  function After(b: Board, c: Change): Board {
    Board(match c.base case None => b.waiting case Some(was) => Remove(b.waiting, was),
          match c.head case None => b.rest case Some(now) => Remove(b.rest, now))
  }

  // Some new entry that is left holds the text of one that is gone, or has its kind and name.
  predicate Offers(b: Board, was: Entry, byText: bool) {
    exists j :: 0 <= j < |b.rest| && Candidate(b.rest[j], was, byText)
  }

  // The first of those most like it.
  predicate Likest(rest: seq<Entry>, was: Entry, j: nat, byText: bool) {
    && j < |rest| && Candidate(rest[j], was, byText)
    && forall i :: 0 <= i < |rest| && Candidate(rest[i], was, byText) ==>
         if i < j then Unlike(rest[j], was) < Unlike(rest[i], was) else Unlike(rest[j], was) <= Unlike(rest[i], was)
  }

  // The first of the most similar ones that it may have been renamed to.
  predicate Similarest(rest: seq<Entry>, was: Entry, j: nat, similarity: (Entry, Entry) -> real) {
    && j < |rest| && Renamable(rest[j], was, similarity)
    && forall i :: 0 <= i < |rest| && Renamable(rest[i], was, similarity) ==>
         if i < j then similarity(was, rest[i]) < similarity(was, rest[j])
         else similarity(was, rest[i]) <= similarity(was, rest[j])
  }

  predicate Renames(b: Board, was: Entry, similarity: (Entry, Entry) -> real) {
    exists j :: 0 <= j < |b.rest| && Renamable(b.rest[j], was, similarity)
  }

  // The first entry gone whose text a new one holds.
  predicate FirstText(b: Board, i: nat) {
    i < |b.waiting| && Offers(b, b.waiting[i], true) && forall k :: 0 <= k < i ==> !Offers(b, b.waiting[k], true)
  }

  predicate AnyText(b: Board) {
    exists i :: 0 <= i < |b.waiting| && Offers(b, b.waiting[i], true)
  }

  // A text moves first: the first entry gone whose text a new one holds goes to the likest of those.
  ghost predicate NextText(b: Board, c: Change) {
    exists i: nat, j: nat ::
      && FirstText(b, i) && Likest(b.rest, b.waiting[i], j, true)
      && c == Change(if b.rest[j].conditions == b.waiting[i].conditions then Relocated else Modified,
                     Some(b.waiting[i]), Some(b.rest[j]))
  }

  // When no text can, the first entry gone goes to the likest of its kind and name, if it is named and there is
  // one; or else to the most similar that it may have been renamed to; or else is removed.
  ghost predicate NextOther(b: Board, c: Change, similarity: (Entry, Entry) -> real)
    requires b.waiting != []
  {
    var was := b.waiting[0];
    if was.name != "" && Offers(b, was, false) then
      exists j: nat :: Likest(b.rest, was, j, false) && c == Change(Modified, Some(was), Some(b.rest[j]))
    else if Renames(b, was, similarity) then
      exists j: nat :: Similarest(b.rest, was, j, similarity) && c == Change(Modified, Some(was), Some(b.rest[j]))
    else c == Change(Removed, Some(was), None)
  }

  // The next change: of a text, of another entry gone, or the first new entry that is left, in this order.
  ghost predicate Next(b: Board, c: Change, similarity: (Entry, Entry) -> real) {
    if AnyText(b) then NextText(b, c)
    else if b.waiting != [] then NextOther(b, c, similarity)
    else b.rest != [] && c == Change(Added, None, Some(b.rest[0]))
  }

  // What some changes leave,
  function Left(start: Board, changes: seq<Change>): Board {
    if changes == [] then start else After(Left(start, changes[..|changes| - 1]), changes[|changes| - 1])
  }

  // each of which is the next.
  ghost predicate Follows(start: Board, changes: seq<Change>, similarity: (Entry, Entry) -> real) {
    forall k {:trigger NextAt(start, changes, k, similarity)} :: 0 <= k < |changes| ==>
      NextAt(start, changes, k, similarity)
  }

  ghost predicate NextAt(start: Board, changes: seq<Change>, k: nat, similarity: (Entry, Entry) -> real)
    requires k < |changes|
  {
    Next(Left(start, changes[..k]), changes[k], similarity)
  }

  lemma FollowsMore(start: Board, changes: seq<Change>, c: Change, similarity: (Entry, Entry) -> real)
    requires Follows(start, changes, similarity) && Next(Left(start, changes), c, similarity)
    ensures Follows(start, changes + [c], similarity)
    ensures Left(start, changes + [c]) == After(Left(start, changes), c)
  {
    var more := changes + [c];
    assert more[..|changes|] == changes;
    forall k | 0 <= k < |more| ensures NextAt(start, more, k, similarity) {
      assert more[..k] == changes[..k] || k == |changes|;
      if k < |changes| {
        assert NextAt(start, changes, k, similarity);
      }
    }
  }

  // There is one next change,
  lemma NextUnique(b: Board, c: Change, d: Change, similarity: (Entry, Entry) -> real)
    requires Next(b, c, similarity) && Next(b, d, similarity)
    ensures c == d
  {
    if AnyText(b) {
      TextUnique(b, c, d);
    } else if b.waiting != [] {
      OtherUnique(b, c, d, similarity);
    }
  }

  lemma TextUnique(b: Board, c: Change, d: Change)
    requires NextText(b, c) && NextText(b, d)
    ensures c == d
  {
    var i: nat, j: nat :|
      && FirstText(b, i) && Likest(b.rest, b.waiting[i], j, true)
      && c == Change(if b.rest[j].conditions == b.waiting[i].conditions then Relocated else Modified,
                     Some(b.waiting[i]), Some(b.rest[j]));
    var k: nat, l: nat :|
      && FirstText(b, k) && Likest(b.rest, b.waiting[k], l, true)
      && d == Change(if b.rest[l].conditions == b.waiting[k].conditions then Relocated else Modified,
                     Some(b.waiting[k]), Some(b.rest[l]));
    assert i == k;
    LikestUnique(b.rest, b.waiting[i], j, l, true);
  }

  lemma LikestUnique(rest: seq<Entry>, was: Entry, j: nat, l: nat, byText: bool)
    requires Likest(rest, was, j, byText) && Likest(rest, was, l, byText)
    ensures j == l
  {
  }

  lemma OtherUnique(b: Board, c: Change, d: Change, similarity: (Entry, Entry) -> real)
    requires b.waiting != [] && NextOther(b, c, similarity) && NextOther(b, d, similarity)
    ensures c == d
  {
    var was := b.waiting[0];
    if was.name != "" && Offers(b, was, false) {
      var j: nat :| Likest(b.rest, was, j, false) && c == Change(Modified, Some(was), Some(b.rest[j]));
      var l: nat :| Likest(b.rest, was, l, false) && d == Change(Modified, Some(was), Some(b.rest[l]));
      LikestUnique(b.rest, was, j, l, false);
    } else if Renames(b, was, similarity) {
      var j: nat :| Similarest(b.rest, was, j, similarity) && c == Change(Modified, Some(was), Some(b.rest[j]));
      var l: nat :| Similarest(b.rest, was, l, similarity) && d == Change(Modified, Some(was), Some(b.rest[l]));
      SimilarestUnique(b.rest, was, j, l, similarity);
    }
  }

  lemma SimilarestUnique(rest: seq<Entry>, was: Entry, j: nat, l: nat, similarity: (Entry, Entry) -> real)
    requires Similarest(rest, was, j, similarity) && Similarest(rest, was, l, similarity)
    ensures j == l
  {
  }

  // and so one list of changes that leaves nothing.
  lemma {:induction false} FollowsUnique(
    start: Board, a: seq<Change>, b: seq<Change>, n: nat, similarity: (Entry, Entry) -> real)
    requires Follows(start, a, similarity) && Follows(start, b, similarity)
    requires Left(start, a) == Left(start, b) == Board([], [])
    requires n <= |a| && n <= |b| && a[..n] == b[..n]
    ensures a == b
    decreases |a| - n
  {
    if n < |a| && n < |b| {
      assert NextAt(start, a, n, similarity) && NextAt(start, b, n, similarity);
      NextUnique(Left(start, a[..n]), a[n], b[n], similarity);
      assert a[..n + 1] == a[..n] + [a[n]] && b[..n + 1] == b[..n] + [b[n]];
      FollowsUnique(start, a, b, n + 1, similarity);
    } else if n < |a| {
      assert b[..n] == b && NextAt(start, a, n, similarity);
      NothingNext(a[n], similarity);
    } else if n < |b| {
      assert a[..n] == a && NextAt(start, b, n, similarity);
      NothingNext(b[n], similarity);
    } else {
      assert a[..n] == a && b[..n] == b;
    }
  }

  lemma NothingNext(c: Change, similarity: (Entry, Entry) -> real)
    ensures !Next(Board([], []), c, similarity)
  {
  }

  // A pair of a gone and a new entry is of one text; or else of one kind and name, or renamed.
  lemma PairMeans(start: Board, changes: seq<Change>, k: nat, similarity: (Entry, Entry) -> real)
    requires Follows(start, changes, similarity) && k < |changes| && changes[k].base.Some? && changes[k].head.Some?
    ensures var was, now := changes[k].base.value, changes[k].head.value;
            if was.moved == now.moved
            then changes[k].action == if now.conditions == was.conditions then Relocated else Modified
            else
              && changes[k].action == Modified
              && ((was.name != "" && now.loose == was.loose) || Renamable(now, was, similarity))
  {
    var b := Left(start, changes[..k]);
    assert NextAt(start, changes, k, similarity);
    if !AnyText(b) && b.waiting != [] {
      assert !Offers(b, b.waiting[0], true);
    }
  }

  // What changes leave, they left before.
  lemma {:induction false} LeftShrinks(start: Board, changes: seq<Change>, i: nat, j: nat, x: Entry)
    requires i <= j <= |changes|
    ensures x in Left(start, changes[..j]).rest ==> x in Left(start, changes[..i]).rest
    ensures x in Left(start, changes[..j]).waiting ==> x in Left(start, changes[..i]).waiting
    decreases j
  {
    if i < j {
      LeftShrinks(start, changes, i, j - 1, x);
      assert changes[..j][..j - 1] == changes[..j - 1];
      var b, c := Left(start, changes[..j - 1]), changes[j - 1];
      if c.base.Some? {
        RemoveMembers(b.waiting, c.base.value, x);
      }
      if c.head.Some? {
        RemoveMembers(b.rest, c.head.value, x);
      }
    }
  }

  // An entry is removed only if none that is added has its text or, if it is named, its kind and name, or may be
  // it under another name.
  lemma RemovedMeans(start: Board, changes: seq<Change>, k: nat, l: nat, similarity: (Entry, Entry) -> real)
    requires Follows(start, changes, similarity) && k < |changes| && l < |changes|
    requires changes[k].action == Removed && changes[l].action == Added
    ensures changes[k].base.Some? && changes[l].head.Some?
    ensures var was, now := changes[k].base.value, changes[l].head.value;
            && now.moved != was.moved && (was.name != "" ==> now.loose != was.loose)
            && !Renamable(now, was, similarity)
  {
    var b, d := Left(start, changes[..k]), Left(start, changes[..l]);
    assert NextAt(start, changes, k, similarity) && NextAt(start, changes, l, similarity);
    assert !AnyText(b) && b.waiting != [] && d.waiting == [] && d.rest != [];
    var was, now := b.waiting[0], d.rest[0];
    if l <= k {
      LeftShrinks(start, changes, l, k, was);
    } else {
      LeftShrinks(start, changes, k, l, now);
      var j :| 0 <= j < |b.rest| && b.rest[j] == now;
      assert !Offers(b, was, true);
      assert !Candidate(b.rest[j], was, true);
    }
  }
}
