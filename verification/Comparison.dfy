/** Comparing the test entries of two commits: what changed, moved, grew, went, or came. */
module Comparison {
  import opened Options
  import opened ComparisonEntries
  import opened ComparisonOrder

  // The entries of two commits by key, and the keys of both in order.
  datatype Sides = Sides(base: map<Key, Entry>, head: map<Key, Entry>, keys: seq<Key>)
  {
    ghost predicate Valid() {
      && (forall k :: k in base ==> base[k].key == k)
      && (forall k :: k in head ==> head[k].key == k)
      && (forall k :: k in keys <==> k in base || k in head)
      && (forall i, j :: 0 <= i < j < |keys| ==> keys[i] != keys[j])
    }

    // The entries of one commit only, in order.
    function Gone(): seq<Entry> {
      GoneFrom(keys)
    }

    function GoneFrom(rest: seq<Key>): seq<Entry> {
      if rest == [] then []
      else GoneAt(rest[0]) + GoneFrom(rest[1..])
    }

    function GoneAt(k: Key): seq<Entry> {
      if k in base && k !in head then [base[k]] else []
    }

    function New(): seq<Entry> {
      NewFrom(keys)
    }

    function NewFrom(rest: seq<Key>): seq<Entry> {
      if rest == [] then []
      else NewAt(rest[0]) + NewFrom(rest[1..])
    }

    function NewAt(k: Key): seq<Entry> {
      if k in head && k !in base then [head[k]] else []
    }

    // The changes of the entries of both, in order.
    function Common(): seq<Change> {
      CommonFrom(keys)
    }

    function CommonFrom(rest: seq<Key>): seq<Change> {
      if rest == [] then []
      else CommonAt(rest[0]) + CommonFrom(rest[1..])
    }

    function CommonAt(k: Key): seq<Change> {
      if k in base && k in head && Changed(base[k], head[k]).Some? then [Changed(base[k], head[k]).value]
      else []
    }
  }

  // The entries that changes speak of, with how often they do.
  function BaseOf(changes: seq<Change>): multiset<Entry> {
    if changes == [] then multiset{}
    else BaseOf(changes[..|changes| - 1])
         + match changes[|changes| - 1].base case None => multiset{} case Some(entry) => multiset{entry}
  }

  function HeadOf(changes: seq<Change>): multiset<Entry> {
    if changes == [] then multiset{}
    else HeadOf(changes[..|changes| - 1])
         + match changes[|changes| - 1].head case None => multiset{} case Some(entry) => multiset{entry}
  }

  // How many entries hold a text, and how many changes move it from one to another.
  function Holding(entries: seq<Entry>, text: string): nat {
    if entries == [] then 0
    else Holding(entries[..|entries| - 1], text) + if entries[|entries| - 1].moved == text then 1 else 0
  }

  predicate Moves(change: Change, text: string) {
    && change.base.Some? && change.head.Some? && change.base.value.key != change.head.value.key
    && change.base.value.moved == text == change.head.value.moved
  }

  function Moved(changes: seq<Change>, text: string): nat {
    if changes == [] then 0
    else Moved(changes[..|changes| - 1], text) + if Moves(changes[|changes| - 1], text) then 1 else 0
  }

  lemma Append(changes: seq<Change>, change: Change)
    ensures BaseOf(changes + [change])
            == BaseOf(changes) + match change.base case None => multiset{} case Some(entry) => multiset{entry}
    ensures HeadOf(changes + [change])
            == HeadOf(changes) + match change.head case None => multiset{} case Some(entry) => multiset{entry}
    ensures forall text :: Moved(changes + [change], text) == Moved(changes, text) + if Moves(change, text) then 1 else 0
  {
  }

  lemma HoldingMore(entries: seq<Entry>, entry: Entry)
    ensures forall text :: Holding(entries + [entry], text) == Holding(entries, text) + if entry.moved == text then 1 else 0
  {
  }

  lemma {:induction false} HoldingConcat(a: seq<Entry>, b: seq<Entry>, text: string)
    ensures Holding(a + b, text) == Holding(a, text) + Holding(b, text)
  {
    if b == [] {
      assert a + b == a;
    } else {
      assert (a + b)[..|a + b| - 1] == a + b[..|b| - 1];
      HoldingConcat(a, b[..|b| - 1], text);
    }
  }

  lemma WithoutKeeps(entries: seq<Entry>, at: nat)
    requires at < |entries|
    ensures multiset(Without(entries, at)) + multiset{entries[at]} == multiset(entries)
    ensures forall text :: Holding(entries, text)
                           == Holding(Without(entries, at), text) + if entries[at].moved == text then 1 else 0
  {
    assert entries == entries[..at] + ([entries[at]] + entries[at + 1..]);
    forall text ensures Holding(entries, text)
                        == Holding(Without(entries, at), text) + if entries[at].moved == text then 1 else 0
    {
      HoldingConcat(entries[..at], [entries[at]] + entries[at + 1..], text);
      HoldingConcat([entries[at]], entries[at + 1..], text);
      HoldingConcat(entries[..at], entries[at + 1..], text);
      assert [entries[at]][..0] == [];
    }
  }

  lemma {:induction false} NoneHolding(entries: seq<Entry>, text: string)
    requires forall i :: 0 <= i < |entries| ==> entries[i].moved != text
    ensures Holding(entries, text) == 0
  {
    if entries != [] {
      NoneHolding(entries[..|entries| - 1], text);
    }
  }

  lemma {:induction false} SomeHolding(entries: seq<Entry>, at: nat)
    requires at < |entries|
    ensures Holding(entries, entries[at].moved) > 0
  {
    if at < |entries| - 1 {
      SomeHolding(entries[..|entries| - 1], at);
    }
  }

  // What makes each change one.
  ghost predicate Justified(s: Sides, c: Change) {
    match c
    case Change(action, Some(was), Some(now)) =>
      && was.key in s.base && s.base[was.key] == was && now.key in s.head && s.head[now.key] == now
      && if was.key == now.key then Changed(was, now) == Some(c)
         else && was.key !in s.head && now.key !in s.base
              && (action == Relocated || action == Modified)
              && (action == Relocated <==> was.moved == now.moved && was.conditions == now.conditions)
    case Change(action, Some(was), None) =>
      action == Removed && was.key in s.base && s.base[was.key] == was && was.key !in s.head
    case Change(action, None, Some(now)) =>
      action == Added && now.key in s.head && s.head[now.key] == now && now.key !in s.base
    case _ => false
  }

  ghost predicate IsGone(s: Sides, e: Entry) {
    e.key in s.base && s.base[e.key] == e && e.key !in s.head
  }

  ghost predicate IsNew(s: Sides, e: Entry) {
    e.key in s.head && s.head[e.key] == e && e.key !in s.base
  }

  lemma {:induction false} Members(s: Sides, rest: seq<Key>)
    requires s.Valid()
    ensures forall i :: 0 <= i < |s.GoneFrom(rest)| ==> IsGone(s, s.GoneFrom(rest)[i])
    ensures forall i :: 0 <= i < |s.NewFrom(rest)| ==> IsNew(s, s.NewFrom(rest)[i])
    ensures forall i :: 0 <= i < |s.CommonFrom(rest)| ==> Justified(s, s.CommonFrom(rest)[i])
  {
    if rest != [] {
      Members(s, rest[1..]);
    }
  }

  lemma {:induction false} CommonMovesNone(s: Sides, changes: seq<Change>, text: string)
    requires s.Valid()
    requires forall i :: 0 <= i < |changes| ==>
               && changes[i].base.Some? && changes[i].head.Some?
               && changes[i].base.value.key == changes[i].head.value.key
    ensures Moved(changes, text) == 0
  {
    if changes != [] {
      CommonMovesNone(s, changes[..|changes| - 1], text);
    }
  }

  lemma {:induction false} CommonPairs(s: Sides, rest: seq<Key>)
    requires s.Valid()
    ensures forall i :: 0 <= i < |s.CommonFrom(rest)| ==>
              && s.CommonFrom(rest)[i].base.Some? && s.CommonFrom(rest)[i].head.Some?
              && s.CommonFrom(rest)[i].base.value.key == s.CommonFrom(rest)[i].head.value.key
  {
    if rest != [] {
      CommonPairs(s, rest[1..]);
    }
  }

  // The first of the candidates most like an entry.
  method Take(unmatched: seq<Entry>, was: Entry, byText: bool) returns (at: Option<nat>)
    ensures at.None? <==> forall i :: 0 <= i < |unmatched| ==> !Candidate(unmatched[i], was, byText)
    ensures at.Some? ==>
              && at.value < |unmatched| && Candidate(unmatched[at.value], was, byText)
              && forall i :: 0 <= i < |unmatched| && Candidate(unmatched[i], was, byText) ==>
                   if i < at.value then Unlike(unmatched[at.value], was) < Unlike(unmatched[i], was)
                   else Unlike(unmatched[at.value], was) <= Unlike(unmatched[i], was)
  {
    at := None;
    for n := 0 to |unmatched|
      invariant at.None? <==> forall i :: 0 <= i < n ==> !Candidate(unmatched[i], was, byText)
      invariant at.Some? ==>
                  && at.value < n && Candidate(unmatched[at.value], was, byText)
                  && forall i :: 0 <= i < n && Candidate(unmatched[i], was, byText) ==>
                       if i < at.value then Unlike(unmatched[at.value], was) < Unlike(unmatched[i], was)
                       else Unlike(unmatched[at.value], was) <= Unlike(unmatched[i], was)
    {
      if Candidate(unmatched[n], was, byText)
         && (at.None? || Unlike(unmatched[n], was) < Unlike(unmatched[at.value], was)) {
        at := Some(n);
      }
    }
  }

  // Among the new entries that may be a renamed one, the earliest of greatest similarity.
  method Renamed(unmatched: seq<Entry>, was: Entry, similarity: (Entry, Entry) -> real)
      returns (at: Option<nat>)
    ensures at.None? <==> forall i :: 0 <= i < |unmatched| ==> !Renamable(unmatched[i], was, similarity)
    ensures at.Some? ==>
              && at.value < |unmatched| && Renamable(unmatched[at.value], was, similarity)
              && forall i :: 0 <= i < |unmatched| && Renamable(unmatched[i], was, similarity) ==>
                   if i < at.value then similarity(was, unmatched[i]) < similarity(was, unmatched[at.value])
                   else similarity(was, unmatched[i]) <= similarity(was, unmatched[at.value])
  {
    at := None;
    for n := 0 to |unmatched|
      invariant at.None? <==> forall i :: 0 <= i < n ==> !Renamable(unmatched[i], was, similarity)
      invariant at.Some? ==>
                  && at.value < n && Renamable(unmatched[at.value], was, similarity)
                  && forall i :: 0 <= i < n && Renamable(unmatched[i], was, similarity) ==>
                       if i < at.value then similarity(was, unmatched[i]) < similarity(was, unmatched[at.value])
                       else similarity(was, unmatched[i]) <= similarity(was, unmatched[at.value])
    {
      if Renamable(unmatched[n], was, similarity)
         && (at.None? || similarity(was, unmatched[n]) > similarity(was, unmatched[at.value])) {
        at := Some(n);
      }
    }
  }

  ghost predicate AllJustified(s: Sides, changes: seq<Change>) {
    forall i :: 0 <= i < |changes| ==> Justified(s, changes[i])
  }

  ghost predicate AllGone(s: Sides, entries: seq<Entry>) {
    forall i :: 0 <= i < |entries| ==> IsGone(s, entries[i])
  }

  ghost predicate AllNew(s: Sides, entries: seq<Entry>) {
    forall i :: 0 <= i < |entries| ==> IsNew(s, entries[i])
  }

  lemma WithoutGone(s: Sides, entries: seq<Entry>, at: nat)
    requires AllGone(s, entries) && at < |entries|
    ensures IsGone(s, entries[at]) && AllGone(s, Without(entries, at))
  {
  }

  lemma WithoutNew(s: Sides, entries: seq<Entry>, at: nat)
    requires AllNew(s, entries) && at < |entries|
    ensures IsNew(s, entries[at]) && AllNew(s, Without(entries, at))
  {
  }

  lemma Shift(said: multiset<Entry>, waiting: multiset<Entry>, rest: multiset<Entry>, e: Entry, all: multiset<Entry>)
    requires said + waiting == all && rest + multiset{e} == waiting
    ensures said + multiset{e} + rest == all
  {
  }

  // The changes so far, the entries gone that wait for a match, and the new ones without.
  ghost predicate Tally(s: Sides, changes: seq<Change>, waiting: seq<Entry>, unmatched: seq<Entry>) {
    && AllJustified(s, changes) && AllGone(s, waiting) && AllNew(s, unmatched)
    && BaseOf(changes) + multiset(waiting) == BaseOf(s.Common()) + multiset(s.Gone())
    && HeadOf(changes) + multiset(unmatched) == HeadOf(s.Common()) + multiset(s.New())
  }

  // Every match so far moves a text.
  ghost predicate Moving(s: Sides, changes: seq<Change>, waiting: seq<Entry>, unmatched: seq<Entry>) {
    forall text ::
      && Moved(changes, text) + Holding(waiting, text) == Holding(s.Gone(), text)
      && Moved(changes, text) + Holding(unmatched, text) == Holding(s.New(), text)
  }

  // No text is both gone and new.
  ghost predicate Parted(waiting: seq<Entry>, unmatched: seq<Entry>) {
    forall text :: Holding(waiting, text) == 0 || Holding(unmatched, text) == 0
  }

  lemma TallyStart(s: Sides)
    requires s.Valid()
    ensures Tally(s, s.Common(), s.Gone(), s.New()) && Moving(s, s.Common(), s.Gone(), s.New())
  {
    Members(s, s.keys);
    CommonPairs(s, s.keys);
    forall text ensures Moved(s.Common(), text) == 0 {
      CommonMovesNone(s, s.Common(), text);
    }
  }

  // A gone entry that waits is matched with a new one.
  lemma TallyMatch(s: Sides, changes: seq<Change>, waiting: seq<Entry>, unmatched: seq<Entry>,
                   i: nat, at: nat, action: Action)
    requires Tally(s, changes, waiting, unmatched) && i < |waiting| && at < |unmatched|
    requires action == Relocated || action == Modified
    requires var was, now := waiting[i], unmatched[at];
             action == Relocated <==> was.moved == now.moved && was.conditions == now.conditions
    ensures var c := Change(action, Some(waiting[i]), Some(unmatched[at]));
            Tally(s, changes + [c], Without(waiting, i), Without(unmatched, at))
  {
    var was, now := waiting[i], unmatched[at];
    WithoutGone(s, waiting, i);
    WithoutNew(s, unmatched, at);
    MatchJustified(s, changes, was, now, action);
    Append(changes, Change(action, Some(was), Some(now)));
    WithoutKeeps(waiting, i);
    WithoutKeeps(unmatched, at);
    Shift(BaseOf(changes), multiset(waiting), multiset(Without(waiting, i)), was,
          BaseOf(s.Common()) + multiset(s.Gone()));
    Shift(HeadOf(changes), multiset(unmatched), multiset(Without(unmatched, at)), now,
          HeadOf(s.Common()) + multiset(s.New()));
  }

  lemma MatchJustified(s: Sides, changes: seq<Change>, was: Entry, now: Entry, action: Action)
    requires AllJustified(s, changes) && IsGone(s, was) && IsNew(s, now)
    requires action == Relocated || action == Modified
    requires action == Relocated <==> was.moved == now.moved && was.conditions == now.conditions
    ensures AllJustified(s, changes + [Change(action, Some(was), Some(now))])
  {
  }

  lemma MovingMatch(s: Sides, changes: seq<Change>, waiting: seq<Entry>, unmatched: seq<Entry>,
                    i: nat, at: nat, action: Action)
    requires Moving(s, changes, waiting, unmatched) && i < |waiting| && at < |unmatched|
    requires waiting[i].moved == unmatched[at].moved && waiting[i].key != unmatched[at].key
    ensures var c := Change(action, Some(waiting[i]), Some(unmatched[at]));
            Moving(s, changes + [c], Without(waiting, i), Without(unmatched, at))
  {
    Append(changes, Change(action, Some(waiting[i]), Some(unmatched[at])));
    WithoutKeeps(waiting, i);
    WithoutKeeps(unmatched, at);
  }

  // The entries of both commits.
  method CompareCommon(s: Sides) returns (changes: seq<Change>)
    ensures changes == s.Common()
  {
    changes := [];
    for n := 0 to |s.keys|
      invariant changes + s.CommonFrom(s.keys[n..]) == s.Common()
    {
      var key := s.keys[n];
      CommonStep(s, n);
      Associate(changes, s.CommonAt(key), s.CommonFrom(s.keys[n + 1..]));
      if key in s.base && key in s.head {
        var change := Changed(s.base[key], s.head[key]);
        if change.Some? {
          changes := changes + [change.value];
        }
      }
    }
  }

  lemma Associate(a: seq<Change>, b: seq<Change>, c: seq<Change>)
    ensures a + (b + c) == a + b + c
    ensures a + [] == a
  {
  }

  lemma CommonStep(s: Sides, n: nat)
    requires n < |s.keys|
    ensures s.CommonFrom(s.keys[n..]) == s.CommonAt(s.keys[n]) + s.CommonFrom(s.keys[n + 1..])
  {
  }

  // Of the entries gone, those before n are left, and those from it on are still to match.
  ghost predicate Matching(s: Sides, changes: seq<Change>, gone: seq<Entry>, n: nat, unmatched: seq<Entry>) {
    && n <= |gone|
    && Tally(s, changes, gone, unmatched) && Moving(s, changes, gone, unmatched)
    && Parted(gone[..n], unmatched)
  }

  lemma PartedStill(left: seq<Entry>, unmatched: seq<Entry>, i: nat)
    requires Parted(left, unmatched) && i < |unmatched|
    ensures Parted(left, Without(unmatched, i))
  {
    WithoutKeeps(unmatched, i);
  }

  lemma MatchingMatch(s: Sides, changes: seq<Change>, gone: seq<Entry>, n: nat, unmatched: seq<Entry>,
                      i: nat, action: Action)
    requires Matching(s, changes, gone, n, unmatched) && n < |gone| && i < |unmatched|
    requires gone[n].moved == unmatched[i].moved
    requires action == if unmatched[i].conditions == gone[n].conditions then Relocated else Modified
    ensures var c := Change(action, Some(gone[n]), Some(unmatched[i]));
            Matching(s, changes + [c], Without(gone, n), n, Without(unmatched, i))
  {
    WithoutGone(s, gone, n);
    WithoutNew(s, unmatched, i);
    TallyMatch(s, changes, gone, unmatched, n, i, action);
    MovingMatch(s, changes, gone, unmatched, n, i, action);
    PartedStill(gone[..n], unmatched, i);
    assert Without(gone, n)[..n] == gone[..n];
  }

  lemma MatchingLeave(s: Sides, changes: seq<Change>, gone: seq<Entry>, n: nat, unmatched: seq<Entry>)
    requires Matching(s, changes, gone, n, unmatched) && n < |gone|
    requires forall i :: 0 <= i < |unmatched| ==> unmatched[i].moved != gone[n].moved
    ensures Matching(s, changes, gone, n + 1, unmatched)
  {
    LeaveParted(gone[..n], unmatched, gone[n]);
    assert gone[..n] + [gone[n]] == gone[..n + 1];
  }

  // The changes after those of common entries are the next ones, in order, and leave what waits and the rest.
  ghost predicate Ordered(
    s: Sides, changes: seq<Change>, waiting: seq<Entry>, rest: seq<Entry>, similarity: (Entry, Entry) -> real)
  {
    var n := |s.Common()|;
    && n <= |changes| && changes[..n] == s.Common() && Unique(waiting) && Unique(rest)
    && Follows(Board(s.Gone(), s.New()), changes[n..], similarity)
    && Left(Board(s.Gone(), s.New()), changes[n..]) == Board(waiting, rest)
  }

  lemma OrderedMore(
    s: Sides, changes: seq<Change>, waiting: seq<Entry>, rest: seq<Entry>, c: Change, b: Board,
    similarity: (Entry, Entry) -> real)
    requires Ordered(s, changes, waiting, rest, similarity) && Next(Board(waiting, rest), c, similarity)
    requires b == After(Board(waiting, rest), c) && Unique(b.waiting) && Unique(b.rest)
    ensures Ordered(s, changes + [c], b.waiting, b.rest, similarity)
  {
    var n := |s.Common()|;
    assert (changes + [c])[n..] == changes[n..] + [c] && (changes + [c])[..n] == changes[..n];
    FollowsMore(Board(s.Gone(), s.New()), changes[n..], c, similarity);
  }

  lemma OrderedStart(s: Sides, similarity: (Entry, Entry) -> real)
    requires s.Valid()
    ensures Ordered(s, s.Common(), s.Gone(), s.New(), similarity)
  {
    var n := |s.Common()|;
    assert s.Common()[..n] == s.Common() && s.Common()[n..] == [];
    KeysUnique(s, s.keys);
  }

  lemma {:induction false} KeysUnique(s: Sides, rest: seq<Key>)
    requires s.Valid() && forall i, j :: 0 <= i < j < |rest| ==> rest[i] != rest[j]
    ensures Unique(s.GoneFrom(rest)) && Unique(s.NewFrom(rest))
    ensures forall e :: e in s.GoneFrom(rest) || e in s.NewFrom(rest) ==> e.key in rest
  {
    if rest != [] {
      assert rest == [rest[0]] + rest[1..] && rest[0] !in rest[1..];
      KeysUnique(s, rest[1..]);
      Members(s, rest[1..]);
    }
  }

  // The one at n is the first whose text a new entry holds, if those before it are parted from them.
  lemma TextNext(waiting: seq<Entry>, rest: seq<Entry>, n: nat, j: nat, similarity: (Entry, Entry) -> real)
    requires n < |waiting| && Parted(waiting[..n], rest) && Likest(rest, waiting[n], j, true)
    ensures var c := Change(if rest[j].conditions == waiting[n].conditions then Relocated else Modified,
                            Some(waiting[n]), Some(rest[j]));
            Next(Board(waiting, rest), c, similarity)
  {
    var b := Board(waiting, rest);
    assert Offers(b, waiting[n], true);
    forall k | 0 <= k < n ensures !Offers(b, waiting[k], true) {
      assert waiting[..n][k] == waiting[k];
      PartedOffers(waiting[..n], b, k);
    }
    assert FirstText(b, n);
  }

  lemma PartedOffers(left: seq<Entry>, b: Board, k: nat)
    requires Parted(left, b.rest) && k < |left|
    ensures !Offers(b, left[k], true)
  {
    forall j | 0 <= j < |b.rest| ensures !Candidate(b.rest[j], left[k], true) {
      PartedApart(left, b.rest, k, j);
    }
  }

  lemma PartedNoText(waiting: seq<Entry>, rest: seq<Entry>)
    requires Parted(waiting, rest)
    ensures !AnyText(Board(waiting, rest))
  {
    forall i | 0 <= i < |waiting| ensures !Offers(Board(waiting, rest), waiting[i], true) {
      PartedOffers(waiting, Board(waiting, rest), i);
    }
  }

  lemma OrderedPair(
    s: Sides, changes: seq<Change>, waiting: seq<Entry>, rest: seq<Entry>, i: nat, j: nat, action: Action,
    similarity: (Entry, Entry) -> real)
    requires Ordered(s, changes, waiting, rest, similarity) && i < |waiting| && j < |rest|
    requires Next(Board(waiting, rest), Change(action, Some(waiting[i]), Some(rest[j])), similarity)
    ensures Ordered(s, changes + [Change(action, Some(waiting[i]), Some(rest[j]))], Without(waiting, i), Without(rest, j), similarity)
  {
    RemoveAt(waiting, i);
    RemoveAt(rest, j);
    OrderedMore(s, changes, waiting, rest, Change(action, Some(waiting[i]), Some(rest[j])),
                Board(Without(waiting, i), Without(rest, j)), similarity);
  }

  lemma OrderedRemoved(
    s: Sides, changes: seq<Change>, waiting: seq<Entry>, rest: seq<Entry>, similarity: (Entry, Entry) -> real)
    requires Ordered(s, changes, waiting, rest, similarity) && waiting != []
    requires Next(Board(waiting, rest), Change(Removed, Some(waiting[0]), None), similarity)
    ensures Ordered(s, changes + [Change(Removed, Some(waiting[0]), None)], waiting[1..], rest, similarity)
  {
    RemoveAt(waiting, 0);
    assert Without(waiting, 0) == waiting[1..];
    OrderedMore(s, changes, waiting, rest, Change(Removed, Some(waiting[0]), None), Board(waiting[1..], rest), similarity);
  }

  lemma OrderedAdded(s: Sides, changes: seq<Change>, rest: seq<Entry>, similarity: (Entry, Entry) -> real)
    requires Ordered(s, changes, [], rest, similarity) && rest != []
    ensures Ordered(s, changes + [Change(Added, None, Some(rest[0]))], [], rest[1..], similarity)
  {
    RemoveAt(rest, 0);
    assert Without(rest, 0) == rest[1..];
    OrderedMore(s, changes, [], rest, Change(Added, None, Some(rest[0])), Board([], rest[1..]), similarity);
  }

  // One turn for an entry that is gone: a new one of its text matches it, or it is left.
  method MatchText(s: Sides, before: seq<Change>, waiting: seq<Entry>, at: nat, rest: seq<Entry>,
                   ghost similarity: (Entry, Entry) -> real)
      returns (changes: seq<Change>, gone: seq<Entry>, n: nat, unmatched: seq<Entry>)
    requires Matching(s, before, waiting, at, rest) && at < |waiting|
    requires Ordered(s, before, waiting, rest, similarity)
    ensures Matching(s, changes, gone, n, unmatched) && |gone| - n < |waiting| - at
    ensures Ordered(s, changes, gone, unmatched, similarity)
  {
    var was := waiting[at];
    var taken := Take(rest, was, true);
    changes, gone, n, unmatched := before, waiting, at, rest;
    if taken.None? {
      MatchingLeave(s, before, waiting, at, rest);
      n := at + 1;
    } else {
      var now := rest[taken.value];
      var action := if now.conditions == was.conditions then Relocated else Modified;
      MatchingMatch(s, before, waiting, at, rest, taken.value, action);
      TextNext(waiting, rest, at, taken.value, similarity);
      OrderedPair(s, before, waiting, rest, at, taken.value, action, similarity);
      changes := before + [Change(action, Some(was), Some(now))];
      gone := Without(waiting, at);
      unmatched := Without(rest, taken.value);
    }
  }

  // Matches the entries gone with new ones of the same text.
  method MatchTexts(s: Sides, ghost similarity: (Entry, Entry) -> real)
      returns (changes: seq<Change>, left: seq<Entry>, unmatched: seq<Entry>)
    requires s.Valid()
    ensures Ordered(s, changes, left, unmatched, similarity)
    ensures Tally(s, changes, left, unmatched) && Moving(s, changes, left, unmatched)
    ensures Parted(left, unmatched)
  {
    changes := CompareCommon(s);
    left, unmatched := s.Gone(), s.New();
    TallyStart(s);
    OrderedStart(s, similarity);
    var n: nat := 0;
    assert left[..0] == [];
    while n < |left|
      invariant Matching(s, changes, left, n, unmatched) && Ordered(s, changes, left, unmatched, similarity)
      decreases |left| - n
    {
      changes, left, n, unmatched := MatchText(s, changes, left, n, unmatched, similarity);
    }
    assert left[..n] == left;
  }

  lemma LeaveParted(left: seq<Entry>, unmatched: seq<Entry>, was: Entry)
    requires Parted(left, unmatched)
    requires forall i :: 0 <= i < |unmatched| ==> unmatched[i].moved != was.moved
    ensures Parted(left + [was], unmatched)
  {
    NoneHolding(unmatched, was.moved);
    HoldingMore(left, was);
  }

  function Least(a: nat, b: nat): nat {
    if a < b then a else b
  }

  // A match of entries of different texts moves none.
  lemma KeepMoved(changes: seq<Change>, was: Entry, now: Option<Entry>, action: Action)
    requires now.Some? ==> was.moved != now.value.moved
    ensures forall text :: Moved(changes + [Change(action, Some(was), now)], text) == Moved(changes, text)
  {
  }

  lemma TallyRemove(s: Sides, changes: seq<Change>, waiting: seq<Entry>, unmatched: seq<Entry>)
    requires Tally(s, changes, waiting, unmatched) && waiting != []
    ensures Tally(s, changes + [Change(Removed, Some(waiting[0]), None)], waiting[1..], unmatched)
  {
    var c := Change(Removed, Some(waiting[0]), None);
    WithoutGone(s, waiting, 0);
    assert Justified(s, c);
    Append(changes, c);
    WithoutKeeps(waiting, 0);
    assert Without(waiting, 0) == waiting[1..];
    Shift(BaseOf(changes), multiset(waiting), multiset(waiting[1..]), waiting[0],
          BaseOf(s.Common()) + multiset(s.Gone()));
  }

  lemma TallyAdd(s: Sides, changes: seq<Change>, unmatched: seq<Entry>)
    requires Tally(s, changes, [], unmatched) && unmatched != []
    ensures Tally(s, changes + [Change(Added, None, Some(unmatched[0]))], [], unmatched[1..])
    ensures MovesLeast(s, changes) ==> MovesLeast(s, changes + [Change(Added, None, Some(unmatched[0]))])
  {
    var c := Change(Added, None, Some(unmatched[0]));
    WithoutNew(s, unmatched, 0);
    assert Justified(s, c);
    Append(changes, c);
    WithoutKeeps(unmatched, 0);
    assert Without(unmatched, 0) == unmatched[1..];
    Shift(HeadOf(changes), multiset(unmatched), multiset(unmatched[1..]), unmatched[0],
          HeadOf(s.Common()) + multiset(s.New()));
  }

  // A text that waits is none of the unmatched.
  lemma PartedApart(waiting: seq<Entry>, unmatched: seq<Entry>, i: nat, at: nat)
    requires Parted(waiting, unmatched) && i < |waiting| && at < |unmatched|
    ensures waiting[i].moved != unmatched[at].moved
  {
    SomeHolding(waiting, i);
    SomeHolding(unmatched, at);
  }

  lemma PartedWithout(waiting: seq<Entry>, unmatched: seq<Entry>, i: nat, at: Option<nat>)
    requires Parted(waiting, unmatched) && i < |waiting| && (at.Some? ==> at.value < |unmatched|)
    ensures Parted(Without(waiting, i), if at.Some? then Without(unmatched, at.value) else unmatched)
  {
    WithoutKeeps(waiting, i);
    if at.Some? {
      WithoutKeeps(unmatched, at.value);
    }
  }

  // What becomes of the first entry that waits, if no new one holds the text of any.
  ghost predicate Becomes(waiting: seq<Entry>, rest: seq<Entry>, at: Option<nat>, similarity: (Entry, Entry) -> real)
    requires waiting != []
  {
    && (at.Some? ==> at.value < |rest|)
    && Next(Board(waiting, rest),
            if at.Some? then Change(Modified, Some(waiting[0]), Some(rest[at.value]))
            else Change(Removed, Some(waiting[0]), None), similarity)
  }

  method Pick(waiting: seq<Entry>, rest: seq<Entry>, similarity: (Entry, Entry) -> real) returns (at: Option<nat>)
    requires waiting != [] && Parted(waiting, rest)
    ensures Becomes(waiting, rest, at, similarity)
  {
    var was := waiting[0];
    ghost var b := Board(waiting, rest);
    PartedNoText(waiting, rest);
    at := None;
    if was.name != "" {
      at := Take(rest, was, false);
      assert at.Some? <==> Offers(b, was, false);
    }
    if at.None? {
      at := Renamed(rest, was, similarity);
      assert at.Some? <==> Renames(b, was, similarity);
    }
    if at.Some? {
      var c := Change(Modified, Some(was), Some(rest[at.value]));
      assert NextOther(b, c, similarity);
    }
  }

  // One turn for an entry that no new one of its text matches.
  method MatchOne(s: Sides, before: seq<Change>, waiting: seq<Entry>, rest: seq<Entry>,
                  similarity: (Entry, Entry) -> real)
      returns (changes: seq<Change>, unmatched: seq<Entry>)
    requires waiting != [] && Tally(s, before, waiting, rest) && Parted(waiting, rest)
    requires Ordered(s, before, waiting, rest, similarity)
    ensures Ordered(s, changes, waiting[1..], unmatched, similarity)
    ensures Tally(s, changes, waiting[1..], unmatched) && Parted(waiting[1..], unmatched)
    ensures MovesLeast(s, before) ==> MovesLeast(s, changes)
  {
    var was := waiting[0];
    var at := Pick(waiting, rest, similarity);
    assert Without(waiting, 0) == waiting[1..];
    PartedWithout(waiting, rest, 0, at);
    if at.Some? {
      var now := rest[at.value];
      PartedApart(waiting, rest, 0, at.value);
      TallyMatch(s, before, waiting, rest, 0, at.value, Modified);
      KeepMoved(before, was, Some(now), Modified);
      OrderedPair(s, before, waiting, rest, 0, at.value, Modified, similarity);
      changes := before + [Change(Modified, Some(was), Some(now))];
      unmatched := Without(rest, at.value);
    } else {
      TallyRemove(s, before, waiting, rest);
      KeepMoved(before, was, None, Removed);
      OrderedRemoved(s, before, waiting, rest, similarity);
      changes := before + [Change(Removed, Some(was), None)];
      unmatched := rest;
    }
  }

  lemma LeastMoved(s: Sides, changes: seq<Change>, left: seq<Entry>, unmatched: seq<Entry>)
    requires Moving(s, changes, left, unmatched) && Parted(left, unmatched)
    ensures MovesLeast(s, changes)
  {
  }

  // Each text moves as often as it is both gone and new.
  ghost predicate MovesLeast(s: Sides, changes: seq<Change>) {
    forall text :: Moved(changes, text) == Least(Holding(s.Gone(), text), Holding(s.New(), text))
  }

  lemma TallyEnd(s: Sides, changes: seq<Change>)
    requires Tally(s, changes, [], [])
    ensures BaseOf(changes) == BaseOf(s.Common()) + multiset(s.Gone())
    ensures HeadOf(changes) == HeadOf(s.Common()) + multiset(s.New())
  {
  }

  method Compare(s: Sides, similarity: (Entry, Entry) -> real) returns (changes: seq<Change>)
    requires s.Valid()
    ensures AllJustified(s, changes)
    ensures BaseOf(changes) == BaseOf(s.Common()) + multiset(s.Gone())
    ensures HeadOf(changes) == HeadOf(s.Common()) + multiset(s.New())
    ensures MovesLeast(s, changes)
    ensures Ordered(s, changes, [], [], similarity)
  {
    var left, unmatched;
    changes, left, unmatched := MatchTexts(s, similarity);
    LeastMoved(s, changes, left, unmatched);
    while left != []
      invariant Tally(s, changes, left, unmatched) && Parted(left, unmatched) && MovesLeast(s, changes)
      invariant Ordered(s, changes, left, unmatched, similarity)
      decreases |left|
    {
      changes, unmatched := MatchOne(s, changes, left, unmatched, similarity);
      left := left[1..];
    }
    while unmatched != []
      invariant Tally(s, changes, [], unmatched) && MovesLeast(s, changes)
      invariant Ordered(s, changes, [], unmatched, similarity)
      decreases |unmatched|
    {
      TallyAdd(s, changes, unmatched);
      OrderedAdded(s, changes, unmatched, similarity);
      changes := changes + [Change(Added, None, Some(unmatched[0]))];
      unmatched := unmatched[1..];
    }
    TallyEnd(s, changes);
  }
}
