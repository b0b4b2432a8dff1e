/** Comparing lists of entries, of which those under one key stand for the last of them. */
module ComparisonLists {
  import opened Options
  import opened ComparisonEntries
  import opened Comparison
  import opened ComparisonLaws

  // The last entry of each key.
  function ByKey(entries: seq<Entry>): map<Key, Entry> {
    if entries == [] then map[]
    else
      var last := entries[|entries| - 1];
      ByKey(entries[..|entries| - 1])[last.key := last]
  }

  ghost predicate Ordered(keys: seq<Key>, base: seq<Entry>, head: seq<Entry>) {
    Distinct(keys) && forall k :: k in keys <==> k in ByKey(base) || k in ByKey(head)
  }

  function Listed(base: seq<Entry>, head: seq<Entry>, keys: seq<Key>): Sides {
    Sides(ByKey(base), ByKey(head), keys)
  }

  lemma {:induction false} ByKeyKeys(entries: seq<Entry>)
    ensures forall k :: k in ByKey(entries) ==> ByKey(entries)[k].key == k && ByKey(entries)[k] in entries
    ensures forall e :: e in entries ==> e.key in ByKey(entries)
  {
    if entries != [] {
      var rest, last := entries[..|entries| - 1], entries[|entries| - 1];
      ByKeyKeys(rest);
      assert entries == rest + [last];
    }
  }

  lemma ListedValid(base: seq<Entry>, head: seq<Entry>, keys: seq<Key>)
    requires Ordered(keys, base, head)
    ensures Listed(base, head, keys).Valid()
  {
    ByKeyKeys(base);
    ByKeyKeys(head);
  }

  // Takes the entries of a list by key.
  method Index(entries: seq<Entry>) returns (found: map<Key, Entry>)
    ensures found == ByKey(entries)
  {
    found := map[];
    for i := 0 to |entries|
      invariant found == ByKey(entries[..i])
    {
      assert entries[..i + 1][..i] == entries[..i];
      found := found[entries[i].key := entries[i]];
    }
    assert entries[..|entries|] == entries;
  }

  // Compares two lists, whose keys are given in order.
  method CompareLists(base: seq<Entry>, head: seq<Entry>, keys: seq<Key>, similarity: (Entry, Entry) -> real)
      returns (changes: seq<Change>)
    requires Ordered(keys, base, head)
    ensures Outcome(Listed(base, head, keys), changes) && MovesLeast(Listed(base, head, keys), changes)
    ensures Comparison.Ordered(Listed(base, head, keys), changes, [], [], similarity)
  {
    ListedValid(base, head, keys);
    var before := Index(base);
    var after := Index(head);
    changes := Compare(Sides(before, after, keys), similarity);
  }

  // The entry stands for its key.
  predicate Stands(entries: seq<Entry>, e: Entry) {
    e.key in ByKey(entries) && ByKey(entries)[e.key] == e
  }

  // No two entries have one key.
  ghost predicate Apart(entries: seq<Entry>) {
    forall i, j :: 0 <= i < j < |entries| ==> entries[i].key != entries[j].key
  }

  // How many entries a later one hides.
  function Hidden(entries: seq<Entry>): int {
    |entries| - |ByKey(entries)|
  }

  // One more is apart from the others if its key is new.
  lemma ApartMore(entries: seq<Entry>, last: Entry)
    ensures Apart(entries + [last]) <==> Apart(entries) && last.key !in ByKey(entries)
  {
    var more, n := entries + [last], |entries|;
    ByKeyKeys(entries);
    assert forall i :: 0 <= i < n ==> more[i] == entries[i] && entries[i] in entries;
    if last.key in ByKey(entries) {
      var i :| 0 <= i < n && entries[i] == ByKey(entries)[last.key];
      assert more[i].key == more[n].key;
    }
  }

  lemma ByKeyMore(entries: seq<Entry>, last: Entry)
    ensures ByKey(entries + [last]) == ByKey(entries)[last.key := last]
    ensures |ByKey(entries + [last])| == |ByKey(entries)| + if last.key in ByKey(entries) then 0 else 1
  {
    var found := ByKey(entries);
    assert (entries + [last])[..|entries|] == entries;
    var more := found[last.key := last];
    assert more.Keys == found.Keys + {last.key};
    if last.key in found {
      assert more.Keys == found.Keys;
    }
  }

  lemma {:induction false} HiddenNone(entries: seq<Entry>)
    ensures Hidden(entries) >= 0
    ensures Hidden(entries) == 0 <==> Apart(entries)
  {
    if entries != [] {
      var rest, last := entries[..|entries| - 1], entries[|entries| - 1];
      assert entries == rest + [last];
      HiddenNone(rest);
      ApartMore(rest, last);
      ByKeyMore(rest, last);
    }
  }

  // The entries of some keys,
  function EntryAt(k: Key, entries: map<Key, Entry>): multiset<Entry> {
    if k in entries then multiset{entries[k]} else multiset{}
  }

  function EntriesOf(rest: seq<Key>, entries: map<Key, Entry>): multiset<Entry> {
    if rest == [] then multiset{} else EntryAt(rest[0], entries) + EntriesOf(rest[1..], entries)
  }

  // and those that are unchanged.
  function StillAt(s: Sides, k: Key, entries: map<Key, Entry>): multiset<Entry> {
    if Unchanged(s, k) then EntryAt(k, entries) else multiset{}
  }

  function StillOf(s: Sides, rest: seq<Key>, entries: map<Key, Entry>): multiset<Entry> {
    if rest == [] then multiset{} else StillAt(s, rest[0], entries) + StillOf(s, rest[1..], entries)
  }

  lemma Regroup(a: multiset<Entry>, b: multiset<Entry>, c: multiset<Entry>,
                x: multiset<Entry>, y: multiset<Entry>, z: multiset<Entry>)
    ensures (a + x) + (b + y) + (c + z) == (a + b + c) + (x + y + z)
  {
  }

  lemma BaseEntryAt(s: Sides, k: Key)
    ensures BaseOf(s.CommonAt(k)) + multiset(s.GoneAt(k)) + StillAt(s, k, s.base) == EntryAt(k, s.base)
  {
    BaseAt(s, k);
  }

  lemma BaseStep(s: Sides, rest: seq<Key>)
    requires rest != []
    ensures BaseOf(s.CommonFrom(rest)) == BaseOf(s.CommonAt(rest[0])) + BaseOf(s.CommonFrom(rest[1..]))
    ensures multiset(s.GoneFrom(rest)) == multiset(s.GoneAt(rest[0])) + multiset(s.GoneFrom(rest[1..]))
  {
    BaseConcat(s.CommonAt(rest[0]), s.CommonFrom(rest[1..]));
  }

  lemma {:induction false} BaseFrom(s: Sides, rest: seq<Key>)
    ensures BaseOf(s.CommonFrom(rest)) + multiset(s.GoneFrom(rest)) + StillOf(s, rest, s.base) == EntriesOf(rest, s.base)
  {
    if rest != [] {
      var first, more := rest[0], rest[1..];
      BaseFrom(s, more);
      BaseEntryAt(s, first);
      BaseStep(s, rest);
      Regroup(BaseOf(s.CommonAt(first)), multiset(s.GoneAt(first)), StillAt(s, first, s.base),
              BaseOf(s.CommonFrom(more)), multiset(s.GoneFrom(more)), StillOf(s, more, s.base));
    }
  }

  lemma HeadEntryAt(s: Sides, k: Key)
    ensures HeadOf(s.CommonAt(k)) + multiset(s.NewAt(k)) + StillAt(s, k, s.head) == EntryAt(k, s.head)
  {
    HeadAt(s, k);
  }

  lemma HeadStep(s: Sides, rest: seq<Key>)
    requires rest != []
    ensures HeadOf(s.CommonFrom(rest)) == HeadOf(s.CommonAt(rest[0])) + HeadOf(s.CommonFrom(rest[1..]))
    ensures multiset(s.NewFrom(rest)) == multiset(s.NewAt(rest[0])) + multiset(s.NewFrom(rest[1..]))
  {
    BaseConcat(s.CommonAt(rest[0]), s.CommonFrom(rest[1..]));
  }

  lemma {:induction false} HeadFrom(s: Sides, rest: seq<Key>)
    ensures HeadOf(s.CommonFrom(rest)) + multiset(s.NewFrom(rest)) + StillOf(s, rest, s.head) == EntriesOf(rest, s.head)
  {
    if rest != [] {
      var first, more := rest[0], rest[1..];
      HeadFrom(s, more);
      HeadEntryAt(s, first);
      HeadStep(s, rest);
      Regroup(HeadOf(s.CommonAt(first)), multiset(s.NewAt(first)), StillAt(s, first, s.head),
              HeadOf(s.CommonFrom(more)), multiset(s.NewFrom(more)), StillOf(s, more, s.head));
    }
  }

  // Of each key there is the one entry.
  lemma {:induction false} EntriesOnce(rest: seq<Key>, entries: map<Key, Entry>, e: Entry)
    requires Distinct(rest) && forall k :: k in entries ==> entries[k].key == k
    ensures EntriesOf(rest, entries)[e] == if e.key in rest && e.key in entries && entries[e.key] == e then 1 else 0
  {
    if rest != [] {
      assert rest == [rest[0]] + rest[1..] && rest[0] !in rest[1..];
      EntriesOnce(rest[1..], entries, e);
    }
  }

  lemma {:induction false} EntriesSize(rest: seq<Key>, entries: map<Key, Entry>)
    ensures |EntriesOf(rest, entries)| == Present(rest, entries)
  {
    if rest != [] {
      EntriesSize(rest[1..], entries);
    }
  }

  lemma {:induction false} ApartOnce(entries: seq<Entry>, e: Entry)
    requires Apart(entries)
    ensures multiset(entries)[e] == if Stands(entries, e) then 1 else 0
  {
    if entries != [] {
      var n := |entries| - 1;
      var rest, last := entries[..n], entries[n];
      assert entries == rest + [last];
      ApartOnce(rest, e);
      ByKeyKeys(rest);
      assert last.key !in ByKey(rest);
    }
  }

  // The entries that are compared are those of the list exactly if no two have one key.
  lemma AllCompared(keys: seq<Key>, entries: seq<Entry>)
    requires Distinct(keys) && forall k :: k in ByKey(entries) ==> k in keys
    ensures EntriesOf(keys, ByKey(entries)) == multiset(entries) <==> Apart(entries)
  {
    var found := ByKey(entries);
    ByKeyKeys(entries);
    HiddenNone(entries);
    EntriesSize(keys, found);
    PresentSize(keys, found);
    assert (set k | k in found && k in keys) == found.Keys;
    if Apart(entries) {
      forall e ensures EntriesOf(keys, found)[e] == multiset(entries)[e] {
        EntriesOnce(keys, found, e);
        ApartOnce(entries, e);
      }
    } else {
      assert |EntriesOf(keys, found)| < |multiset(entries)|;
    }
  }

  // The entries of either list are those that are unchanged and those that one change speaks of exactly if no
  // two of the list have one key.
  lemma EachListedOnce(base: seq<Entry>, head: seq<Entry>, keys: seq<Key>, changes: seq<Change>)
    requires Ordered(keys, base, head) && Outcome(Listed(base, head, keys), changes)
    ensures var s := Listed(base, head, keys);
            && (multiset(base) == BaseOf(changes) + StillOf(s, keys, s.base) <==> Apart(base))
            && (multiset(head) == HeadOf(changes) + StillOf(s, keys, s.head) <==> Apart(head))
  {
    BaseFrom(Listed(base, head, keys), keys);
    HeadFrom(Listed(base, head, keys), keys);
    AllCompared(keys, base);
    AllCompared(keys, head);
  }

  // An entry that a later one of its key hides is in no change.
  lemma HiddenUnseen(base: seq<Entry>, head: seq<Entry>, keys: seq<Key>, changes: seq<Change>, e: Entry)
    requires Ordered(keys, base, head) && Outcome(Listed(base, head, keys), changes)
    ensures !Stands(base, e) ==> BaseOf(changes)[e] == 0
    ensures !Stands(head, e) ==> HeadOf(changes)[e] == 0
  {
    ByKeyKeys(base);
    ByKeyKeys(head);
    BaseFrom(Listed(base, head, keys), keys);
    HeadFrom(Listed(base, head, keys), keys);
    EntriesOnce(keys, ByKey(base), e);
    EntriesOnce(keys, ByKey(head), e);
  }

  // The lists and what was added and removed balance exactly if as many are hidden in either, as where none is.
  lemma ListsConserve(base: seq<Entry>, head: seq<Entry>, keys: seq<Key>, changes: seq<Change>)
    requires Ordered(keys, base, head) && Outcome(Listed(base, head, keys), changes)
    ensures |base| + Count(changes, Added) == |head| + Count(changes, Removed) <==> Hidden(base) == Hidden(head)
    ensures Apart(base) && Apart(head) ==> Hidden(base) == Hidden(head) == 0
  {
    Conserves(Listed(base, head, keys), changes);
    HiddenNone(base);
    HiddenNone(head);
  }

  // Of two entries of one key in the base, the first may be gone from the head without a change.
  lemma HiddenLost(x: Entry, y: Entry, changes: seq<Change>)
    requires x.key == y.key && x != y && Outcome(Listed([x, y], [y], [y.key]), changes)
    ensures changes == [] && !Apart([x, y]) && !Stands([x, y], x)
  {
    LastStands(x, y);
    NothingSaid(Listed([x, y], [y], [y.key]), y.key, changes);
    assert [x, y][0].key == [x, y][1].key;
  }

  lemma LastStands(x: Entry, y: Entry)
    requires x.key == y.key
    ensures ByKey([x, y]) == map[y.key := y] == ByKey([y])
  {
    ByKeyMore([x], y);
    ByKeyMore([], x);
    ByKeyMore([], y);
    assert [x] + [y] == [x, y] && [] + [x] == [x] && [] + [y] == [y];
  }

  // Nothing is said of one entry that is unchanged.
  lemma NothingSaid(s: Sides, k: Key, changes: seq<Change>)
    requires Outcome(s, changes) && s.keys == [k] && Unchanged(s, k)
    ensures changes == []
  {
    assert s.keys[1..] == [];
    assert s.CommonAt(k) == [] && s.GoneAt(k) == [] && s.NewAt(k) == [];
    if changes != [] {
      NoneSpoken(s, changes);
    }
  }

  // A change speaks of an entry.
  lemma NoneSpoken(s: Sides, changes: seq<Change>)
    requires AllJustified(s, changes) && changes != []
    ensures |BaseOf(changes)| + |HeadOf(changes)| > 0
  {
    assert Justified(s, changes[|changes| - 1]);
  }
}
