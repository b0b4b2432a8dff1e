/** Why rendering inline content reaches each of its items once, from left to right: it walks the
    items by where they start, skips those that start before it or end after it, and recurs into links. */
module InlineRender {
  import opened InlineItems

  // The items of a text by where they start.
  function ByStart(found: seq<Item>): seq<Item> {
    if found == [] then [] else Insert(ByStart(found[..|found| - 1]), found[|found| - 1])
  }

  function Insert(items: seq<Item>, x: Item): seq<Item> {
    if items == [] || x.start < items[0].start then [x] + items
    else [items[0]] + Insert(items[1..], x)
  }

  // Of two items by where they start, the first ends before the second begins, or holds it.
  ghost predicate Before(x: Item, y: Item) {
    x.start < y.start && (x.end <= y.Begin() || Holds(x, y))
  }

  ghost predicate Sorted(items: seq<Item>) {
    && (forall i :: 0 <= i < |items| ==> Formed(items[i]) && (items[i].kind == Link ==> items[i].close < items[i].end))
    && (forall i, j :: 0 <= i < j < |items| ==> Before(items[i], items[j]))
  }

  lemma {:induction false} InsertSorted(items: seq<Item>, x: Item)
    requires Sorted(items) && Formed(x) && (x.kind == Link ==> x.close < x.end)
    requires forall y :: y in items ==> Before(x, y) || Before(y, x)
    ensures Sorted(Insert(items, x))
    ensures forall y :: y in Insert(items, x) <==> y in items || y == x
  {
    if items == [] || x.start < items[0].start {
      assert forall i :: 0 <= i < |items| ==> items[i] in items;
    } else {
      var rest := Insert(items[1..], x);
      InsertSorted(items[1..], x);
      assert items[0] in items;
      forall i | 0 <= i < |rest| ensures Before(items[0], rest[i]) {
        assert rest[i] in rest;
        if rest[i] != x {
          var k :| 0 <= k < |items[1..]| && items[1..][k] == rest[i];
        }
      }
    }
  }

  lemma {:induction false} ByStartSorted(found: seq<Item>)
    requires Laminar(found)
    requires forall i :: 0 <= i < |found| && found[i].kind == Link ==> found[i].close < found[i].end
    ensures Sorted(ByStart(found))
    ensures forall x :: x in ByStart(found) <==> x in found
  {
    if found != [] {
      var last := |found| - 1;
      ByStartSorted(found[..last]);
      forall y | y in ByStart(found[..last]) ensures Before(found[last], y) || Before(y, found[last]) {
        var i :| 0 <= i < last && found[..last][i] == y;
        assert found[i].end <= found[last].Begin() || Holds(found[last], found[i]);
      }
      InsertSorted(ByStart(found[..last]), found[last]);
    }
  }

  // The items that rendering reaches between two offsets, in order.
  function Visit(items: seq<Item>, k: nat, index: nat, end: nat): seq<Item>
    requires Sorted(items) && k <= |items|
    decreases if index <= end then end - index else 0, |items| - k
  {
    if k == |items| then []
    else
      var x := items[k];
      if x.start < index || x.end > end then Visit(items, k + 1, index, end)
      else
        [x]
        + (if x.kind == Link then Visit(items, 0, x.start + 1, x.close) else [])
        + Visit(items, k + 1, x.end, end)
  }

  // An item renders unless it is in the label of a citation, which renders as its number.
  predicate Shown(items: seq<Item>, x: Item) {
    forall y :: y in items ==> !(y.kind == Footnote && Inside(x, y))
  }

  predicate In(x: Item, lo: nat, hi: nat) {
    lo <= x.start && x.end <= hi
  }

  function Listed(items: seq<Item>, k: nat, lo: nat, hi: nat): seq<Item>
    requires k <= |items|
    decreases |items| - k
  {
    if k == |items| then []
    else Head(items, k, lo, hi) + Listed(items, k + 1, lo, hi)
  }

  lemma {:induction false} ListedNone(items: seq<Item>, k: nat, lo: nat, hi: nat)
    requires Sorted(items) && k <= |items|
    requires k < |items| ==> hi <= items[k].start
    ensures Listed(items, k, lo, hi) == []
    decreases |items| - k
  {
    if k < |items| {
      if k + 1 < |items| {
        assert Before(items[k], items[k + 1]);
      }
      ListedNone(items, k + 1, lo, hi);
    }
  }

  lemma {:induction false} ListedFrom(items: seq<Item>, k: nat, stop: nat, lo: nat, hi: nat)
    requires Sorted(items) && k <= stop <= |items|
    requires forall i :: k <= i < stop ==> items[i].start < lo
    ensures Listed(items, k, lo, hi) == Listed(items, stop, lo, hi)
    decreases stop - k
  {
    if k < stop {
      ListedFrom(items, k + 1, stop, lo, hi);
    }
  }

  function Head(items: seq<Item>, k: nat, lo: nat, hi: nat): seq<Item>
    requires k < |items|
  {
    if In(items[k], lo, hi) && Shown(items, items[k]) then [items[k]] else []
  }

  // An item after one that renders is after its end,
  lemma HeadAfter(items: seq<Item>, x: Item, k: nat, lo: nat, hi: nat)
    requires k < |items| && Formed(x) && Before(x, items[k]) && In(x, lo, hi) && x.end <= items[k].Begin()
    ensures Head(items, k, lo, hi) == Head(items, k, x.end, hi)
  {
  }

  // or in its text, which renders only if it is a link.
  lemma HeadInside(items: seq<Item>, x: Item, k: nat, lo: nat, hi: nat)
    requires k < |items| && x in items && Formed(x) && Formed(items[k])
    requires Before(x, items[k]) && In(x, lo, hi) && Holds(x, items[k])
    ensures Head(items, k, x.end, hi) == []
    ensures Head(items, k, lo, hi) == if x.kind == Link then Head(items, k, x.start + 1, x.close) else []
  {
  }

  // What an item that renders holds between two offsets.
  function Text(items: seq<Item>, x: Item, k: nat): seq<Item>
    requires k <= |items|
  {
    if x.kind == Link then Listed(items, k, x.start + 1, x.close) else []
  }

  lemma TextAfter(items: seq<Item>, x: Item, k: nat)
    requires Sorted(items) && k < |items| && Formed(x) && x.end <= items[k].start
    ensures Text(items, x, k) == [] && Text(items, x, k + 1) == []
  {
    ListedNone(items, k, x.start + 1, x.close);
    assert x.kind == Link ==>
      Listed(items, k, x.start + 1, x.close)
      == Head(items, k, x.start + 1, x.close) + Listed(items, k + 1, x.start + 1, x.close);
  }

  lemma SplitAfter(items: seq<Item>, x: Item, k: nat, lo: nat, hi: nat)
    requires k < |items|
    requires Head(items, k, lo, hi) == Head(items, k, x.end, hi)
    requires Text(items, x, k) == [] && Text(items, x, k + 1) == []
    requires Listed(items, k + 1, lo, hi) == Text(items, x, k + 1) + Listed(items, k + 1, x.end, hi)
    ensures Listed(items, k, lo, hi) == Text(items, x, k) + Listed(items, k, x.end, hi)
  {
    var rest := Listed(items, k + 1, x.end, hi);
    assert [] + rest == rest;
  }

  lemma SplitInside(items: seq<Item>, x: Item, k: nat, lo: nat, hi: nat)
    requires k < |items| && Head(items, k, x.end, hi) == []
    requires Head(items, k, lo, hi) == if x.kind == Link then Head(items, k, x.start + 1, x.close) else []
    requires Listed(items, k + 1, lo, hi) == Text(items, x, k + 1) + Listed(items, k + 1, x.end, hi)
    ensures Listed(items, k, lo, hi) == Text(items, x, k) + Listed(items, k, x.end, hi)
  {
  }

  // What follows an item that renders is in its text, if it is a link, or after it.
  lemma {:induction false} ListedSplit(items: seq<Item>, at: nat, k: nat, lo: nat, hi: nat)
    requires Sorted(items) && at < k <= |items| && In(items[at], lo, hi)
    ensures Listed(items, k, lo, hi) == Text(items, items[at], k) + Listed(items, k, items[at].end, hi)
    decreases |items| - k
  {
    if k < |items| {
      var x, y := items[at], items[k];
      assert Before(x, y) && x in items && Formed(y);
      ListedSplit(items, at, k + 1, lo, hi);
      if x.end <= y.Begin() {
        HeadAfter(items, x, k, lo, hi);
        TextAfter(items, x, k);
        SplitAfter(items, x, k, lo, hi);
      } else {
        HeadInside(items, x, k, lo, hi);
        SplitInside(items, x, k, lo, hi);
      }
    }
  }

  // An item's citation is between the offsets with it.
  ghost predicate Closed(items: seq<Item>, lo: nat, hi: nat) {
    forall x, y :: x in items && y in items && In(x, lo, hi) && y.kind == Footnote && Inside(x, y) ==>
      In(y, lo, hi)
  }

  ghost predicate Passed(items: seq<Item>, k: nat, lo: nat, hi: nat)
    requires k <= |items|
  {
    forall i :: 0 <= i < k ==> !In(items[i], lo, hi)
  }

  lemma ReachedShown(items: seq<Item>, k: nat, lo: nat, hi: nat)
    requires Sorted(items) && k < |items| && In(items[k], lo, hi)
    requires Closed(items, lo, hi) && Passed(items, k, lo, hi)
    ensures Shown(items, items[k])
  {
  }

  lemma ClosedAfter(items: seq<Item>, k: nat, lo: nat, hi: nat)
    requires Sorted(items) && k < |items| && In(items[k], lo, hi)
    requires Closed(items, lo, hi) && Passed(items, k, lo, hi)
    ensures Closed(items, items[k].end, hi)
  {
  }

  lemma ClosedText(items: seq<Item>, k: nat)
    requires Sorted(items) && k < |items| && items[k].kind == Link && Shown(items, items[k])
    ensures Closed(items, items[k].start + 1, items[k].close)
  {
  }

  lemma VisitStep(items: seq<Item>, k: nat, index: nat, end: nat)
    requires Sorted(items) && k < |items| && In(items[k], index, end) && Shown(items, items[k])
    requires items[k].kind == Link ==>
               Visit(items, 0, items[k].start + 1, items[k].close) == Text(items, items[k], k + 1)
    requires Visit(items, k + 1, items[k].end, end) == Listed(items, k + 1, items[k].end, end)
    ensures Visit(items, k, index, end) == Listed(items, k, index, end)
  {
    var x := items[k];
    ListedSplit(items, k, k + 1, index, end);
    var text, rest := Text(items, x, k + 1), Listed(items, k + 1, x.end, end);
    assert Listed(items, k, index, end) == [x] + (text + rest);
    assert [x] + (text + rest) == [x] + text + rest;
  }

  lemma VisitSkip(items: seq<Item>, k: nat, index: nat, end: nat)
    requires Sorted(items) && k < |items| && !In(items[k], index, end)
    requires Visit(items, k + 1, index, end) == Listed(items, k + 1, index, end)
    ensures Visit(items, k, index, end) == Listed(items, k, index, end)
  {
  }

  // What an item that is reached leaves to visit: its text, if it is a link, and what is after it.
  lemma Reached(items: seq<Item>, k: nat, index: nat, end: nat)
    requires Sorted(items) && k < |items| && In(items[k], index, end)
    requires Closed(items, index, end) && Passed(items, k, index, end)
    ensures var x := items[k];
            && Shown(items, x) && index < x.end <= end && Closed(items, x.end, end) && Passed(items, k + 1, x.end, end)
            && (x.kind == Link ==> Closed(items, x.start + 1, x.close) && x.close < x.end)
  {
    assert Formed(items[k]);
    ReachedShown(items, k, index, end);
    ClosedAfter(items, k, index, end);
    PassedAfter(items, k, end);
    if items[k].kind == Link {
      ClosedText(items, k);
    }
  }

  lemma {:induction false} VisitListed(items: seq<Item>, k: nat, index: nat, end: nat)
    requires Sorted(items) && k <= |items|
    requires Closed(items, index, end) && Passed(items, k, index, end)
    ensures Visit(items, k, index, end) == Listed(items, k, index, end)
    decreases if index <= end then end - index else 0, |items| - k
  {
    if k < |items| {
      var x := items[k];
      if !In(x, index, end) {
        VisitListed(items, k + 1, index, end);
        VisitSkip(items, k, index, end);
      } else {
        Reached(items, k, index, end);
        VisitListed(items, k + 1, x.end, end);
        if x.kind == Link {
          VisitListed(items, 0, x.start + 1, x.close);
          TextFrom(items, k);
        }
        VisitStep(items, k, index, end);
      }
    }
  }

  lemma TextFrom(items: seq<Item>, k: nat)
    requires Sorted(items) && k < |items| && items[k].kind == Link
    ensures Listed(items, 0, items[k].start + 1, items[k].close) == Text(items, items[k], k + 1)
  {
    PassedAfter(items, k, 0);
    ListedFrom(items, 0, k + 1, items[k].start + 1, items[k].close);
  }

  lemma PassedAfter(items: seq<Item>, k: nat, hi: nat)
    requires Sorted(items) && k < |items|
    ensures Passed(items, k + 1, items[k].end, hi)
    ensures forall i :: 0 <= i < k + 1 ==> items[i].start < items[k].start + 1
  {
  }

  // Rendering the whole of a text reaches exactly the items outside citations, by where they start.
  lemma RenderReachesAll(found: seq<Item>, size: nat)
    requires Laminar(found)
    requires forall i :: 0 <= i < |found| ==>
               found[i].end <= size && (found[i].kind == Link ==> found[i].close < found[i].end)
    ensures Sorted(ByStart(found))
    ensures Visit(ByStart(found), 0, 0, size) == Listed(ByStart(found), 0, 0, size)
    ensures forall x :: x in Visit(ByStart(found), 0, 0, size) <==> x in found && Shown(found, x)
  {
    ByStartSorted(found);
    var items := ByStart(found);
    assert forall x :: x in items ==> In(x, 0, size);
    VisitListed(items, 0, 0, size);
    forall x ensures x in Listed(items, 0, 0, size) <==> x in found && Shown(found, x) {
      ListedMembers(items, 0, 0, size, x);
      assert Shown(items, x) <==> Shown(found, x);
    }
  }

  lemma {:induction false} ListedMembers(items: seq<Item>, k: nat, lo: nat, hi: nat, x: Item)
    requires k <= |items|
    ensures x in Listed(items, k, lo, hi) <==> x in items[k..] && In(x, lo, hi) && Shown(items, x)
    decreases |items| - k
  {
    if k < |items| {
      ListedMembers(items, k + 1, lo, hi, x);
      assert items[k..] == [items[k]] + items[k + 1..];
    }
  }
}
