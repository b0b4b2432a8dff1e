/** The ways that a file's module compiles, through every chain of declarations from the root of a target
    whose tests run, collected by recursion that remembers what it found. */
module ModuleConditions {
  import opened Options
  import opened Conditions

  // Declarations by the file that they declare, each with the declaring file and the predicates that it
  // adds. Chains of them start at tested files.
  datatype Graph<N, P> = Graph(tested: set<N>, declared: map<N, seq<(N, set<P>)>>)

  // What lookups have recorded; the entry of a file whose lookup is still going on is None.
  type Memo<N, P> = map<N, Option<set<set<P>>>>

  function Anywhere<P(==)>(): set<set<P>> {
    {{}}
  }

  function Added<P(==)>(ways: set<set<P>>, predicates: set<P>): set<set<P>> {
    set way | way in ways :: way + predicates
  }

  // The memo after looking up a file.
  function Lookup<N(==), P(==)>(g: Graph<N, P>, memo: Memo<N, P>, file: N): (after: Memo<N, P>)
    ensures memo.Keys <= after.Keys && file in after
    decreases g.declared.Keys - memo.Keys, 1
  {
    if file in memo then memo
    else if file in g.tested then memo[file := Some(Anywhere())]
    else if file !in g.declared then memo[file := None]
    else
      // Until the lookup is done, the file counts as unreached, which ends the recursion on a cycle.
      var provisional := memo[file := None];
      assert file in g.declared.Keys - memo.Keys && file !in g.declared.Keys - provisional.Keys;
      var (after, ways) := Gather(g, provisional, file, g.declared[file], {});
      after[file := if ways == {} then None else Some(Reduced(ways))]
  }

  // The memo and the ways after looking up the files that declare one.
  function Gather<N(==), P(==)>(g: Graph<N, P>, memo: Memo<N, P>, file: N, declarations: seq<(N, set<P>)>,
                                ways: set<set<P>>): (r: (Memo<N, P>, set<set<P>>))
    ensures memo.Keys <= r.0.Keys
    decreases g.declared.Keys - memo.Keys, 2, |declarations|
  {
    if declarations == [] then (memo, ways)
    else
      var (parent, predicates) := declarations[0];
      if parent == file then Gather(g, memo, file, declarations[1..], ways)
      else
        var after := Lookup(g, memo, parent);
        var more := match after[parent]
          case None => ways
          case Some(found) => ways + Added(found, predicates);
        Gather(g, after, file, declarations[1..], more)
  }

  // A chain starts at a tested root, and each declaration is of the next file.
  ghost predicate IsChain<N, P>(g: Graph<N, P>, chain: seq<(N, set<P>)>, file: N) {
    if chain == [] then file in g.tested
    else
      var last := chain[|chain| - 1];
      && file in g.declared && last in g.declared[file] && last.0 != file
      && IsChain(g, chain[..|chain| - 1], last.0)
  }

  // The predicates of the declarations of a chain.
  ghost function Needs<N, P>(chain: seq<(N, set<P>)>): set<P> {
    if chain == [] then {} else Needs(chain[..|chain| - 1]) + chain[|chain| - 1].1
  }

  ghost predicate Reached<N(!new), P(!new)>(g: Graph<N, P>, file: N) {
    exists chain :: IsChain(g, chain, file)
  }

  ghost predicate Covers<P>(ways: set<set<P>>, needs: set<P>) {
    exists way :: way in ways && way <= needs
  }

  // A chain needs exactly a way, and passes none of some files.
  ghost predicate Backs<N, P>(g: Graph<N, P>, avoid: set<N>, file: N, way: set<P>, chain: seq<(N, set<P>)>) {
    && IsChain(g, chain, file) && Needs(chain) == way
    && forall k :: 0 <= k < |chain| ==> chain[k].0 !in avoid
  }

  ghost predicate Backed<N(!new), P(!new)>(g: Graph<N, P>, avoid: set<N>, file: N, way: set<P>) {
    exists chain :: Backs(g, avoid, file, way, chain)
  }

  // What is found for a file says nothing that a chain does not need,
  ghost predicate Sound<N(!new), P(!new)>(g: Graph<N, P>, avoid: set<N>, file: N, result: Option<set<set<P>>>) {
    result.Some? ==>
      && result.value != {} && Antichain(result.value)
      && forall way {:trigger Backed(g, avoid, file, way)} :: way in result.value ==> Backed(g, avoid, file, way)
  }

  // and leaves out no chain.
  ghost predicate Whole<N(!new), P(!new)>(g: Graph<N, P>, file: N, result: Option<set<set<P>>>) {
    forall chain :: IsChain(g, chain, file) ==> result.Some? && Covers(result.value, Needs(chain))
  }

  // It is right: the minimal ways of the chains that reach the file, and none exactly if there are none.
  ghost predicate Right<N(!new), P(!new)>(g: Graph<N, P>, file: N, result: Option<set<set<P>>>) {
    Sound(g, {}, file, result) && Whole(g, file, result)
  }

  // So there is but one right answer.
  lemma RightUnique<N(!new), P(!new)>(g: Graph<N, P>, file: N, a: Option<set<set<P>>>, b: Option<set<set<P>>>)
    requires Right(g, file, a) && Right(g, file, b)
    ensures a == b
    ensures a.None? <==> !Reached(g, file)
  {
    RightNone(g, file, a);
    RightNone(g, file, b);
    if a.Some? && b.Some? {
      forall way ensures way in a.value <==> way in b.value {
        if way in a.value {
          RightWithin(g, file, a.value, b.value, way);
        }
        if way in b.value {
          RightWithin(g, file, b.value, a.value, way);
        }
      }
      assert a.value == b.value;
    }
  }

  lemma RightNone<N(!new), P(!new)>(g: Graph<N, P>, file: N, a: Option<set<set<P>>>)
    requires Right(g, file, a)
    ensures a.None? <==> !Reached(g, file)
  {
    if a.Some? {
      var way :| way in a.value;
      assert Backed(g, {}, file, way);
      var chain :| Backs(g, {}, file, way, chain);
      assert IsChain(g, chain, file);
    }
    if Reached(g, file) {
      var chain :| IsChain(g, chain, file);
    }
  }

  lemma RightWithin<N(!new), P(!new)>(g: Graph<N, P>, file: N, a: set<set<P>>, b: set<set<P>>, way: set<P>)
    requires Right(g, file, Some(a)) && Right(g, file, Some(b)) && way in a
    ensures way in b
  {
    assert Backed(g, {}, file, way);
    var other := Below(g, file, way, b);
    assert Backed(g, {}, file, other);
    var third := Below(g, file, other, a);
    assert third <= way && !(third < way);
    assert third == way == other;
  }

  lemma Below<N(!new), P(!new)>(g: Graph<N, P>, file: N, way: set<P>, ways: set<set<P>>) returns (other: set<P>)
    requires Backed(g, {}, file, way) && Whole(g, file, Some(ways))
    ensures other in ways && other <= way
  {
    var chain :| Backs(g, {}, file, way, chain);
    other :| other in ways && other <= Needs(chain);
  }

  ghost predicate AllSound<N(!new), P(!new)>(g: Graph<N, P>, avoid: set<N>, memo: Memo<N, P>) {
    forall k :: k in memo ==> Sound(g, avoid, k, memo[k]) && (memo[k].Some? ==> k !in avoid)
  }

  lemma RootSound<N(!new), P(!new)>(g: Graph<N, P>, avoid: set<N>, file: N)
    requires file in g.tested
    ensures Sound(g, avoid, file, Some(Anywhere())) && Whole(g, file, Some(Anywhere()))
  {
    var none: set<P> := {};
    var chain: seq<(N, set<P>)> := [];
    assert Backs(g, avoid, file, none, chain);
    assert Backed(g, avoid, file, none);
    forall chain | IsChain(g, chain, file) ensures Covers(Anywhere(), Needs(chain)) {
      assert none in Anywhere<P>() && none <= Needs(chain);
    }
  }

  lemma ReducedSound<N(!new), P(!new)>(g: Graph<N, P>, avoid: set<N>, file: N, ways: set<set<P>>)
    requires forall way :: way in ways ==> Backed(g, avoid, file, way)
    ensures Sound(g, avoid, file, if ways == {} then None else Some(Reduced(ways)))
  {
    if ways != {} {
      var way :| way in ways;
      var least := BelowReduced(ways, way);
    }
  }

  // Whatever the graph, a lookup finds only what chains need, and none through a file whose own lookup
  // is not done yet.
  lemma {:induction false} LookupSound<N(!new), P(!new)>(g: Graph<N, P>, avoid: set<N>, memo: Memo<N, P>, file: N)
    requires AllSound(g, avoid, memo) && avoid <= memo.Keys
    ensures AllSound(g, avoid, Lookup(g, memo, file))
    decreases g.declared.Keys - memo.Keys, 1
  {
    if file in memo {
    } else if file in g.tested {
      RootSound(g, avoid, file);
    } else if file in g.declared {
      var provisional := memo[file := None];
      assert file in g.declared.Keys - memo.Keys && file !in g.declared.Keys - provisional.Keys;
      GatherSound(g, avoid, provisional, file, g.declared[file], {});
      var (after, ways) := Gather(g, provisional, file, g.declared[file], {});
      ReducedSound(g, avoid, file, ways);
    }
  }

  lemma {:induction false} GatherSound<N(!new), P(!new)>(
      g: Graph<N, P>, avoid: set<N>, memo: Memo<N, P>, file: N, declarations: seq<(N, set<P>)>, ways: set<set<P>>)
    requires AllSound(g, avoid, memo) && avoid <= memo.Keys
    requires file in g.declared && forall d :: d in declarations ==> d in g.declared[file]
    requires forall way :: way in ways ==> Backed(g, avoid, file, way)
    ensures var (after, found) := Gather(g, memo, file, declarations, ways);
            AllSound(g, avoid, after) && forall way :: way in found ==> Backed(g, avoid, file, way)
    decreases g.declared.Keys - memo.Keys, 2, |declarations|
  {
    if declarations != [] {
      var (parent, predicates) := declarations[0];
      assert declarations[0] in declarations;
      if parent == file {
        GatherSound(g, avoid, memo, file, declarations[1..], ways);
      } else {
        var after := Lookup(g, memo, parent);
        LookupSound(g, avoid, memo, parent);
        var more := match after[parent] case None => ways case Some(found) => ways + Added(found, predicates);
        if after[parent].Some? {
          AddedBacked(g, avoid, file, (parent, predicates), after[parent].value);
        }
        GatherSound(g, avoid, after, file, declarations[1..], more);
      }
    }
  }

  lemma AddedBacked<N(!new), P(!new)>(g: Graph<N, P>, avoid: set<N>, file: N, d: (N, set<P>), found: set<set<P>>)
    requires file in g.declared && d in g.declared[file] && d.0 != file && d.0 !in avoid
    requires forall way :: way in found ==> Backed(g, avoid, d.0, way)
    ensures forall way :: way in Added(found, d.1) ==> Backed(g, avoid, file, way)
  {
    forall way | way in Added(found, d.1) ensures Backed(g, avoid, file, way) {
      var rest :| rest in found && way == rest + d.1;
      var chain :| Backs(g, avoid, d.0, rest, chain);
      var longer := chain + [d];
      assert longer[..|longer| - 1] == chain;
      assert Backs(g, avoid, file, way, longer);
    }
  }

  // A file that a chain reaches and that is no root,
  ghost predicate Live<N(!new), P(!new)>(g: Graph<N, P>, file: N) {
    Reached(g, file) && file !in g.tested
  }

  // that such another declares.
  ghost predicate Edge<N(!new), P(!new)>(g: Graph<N, P>, parent: N, file: N) {
    && Live(g, parent) && Live(g, file) && parent != file && file in g.declared
    && exists d :: d in g.declared[file] && d.0 == parent
  }

  ghost predicate IsPath<N(!new), P(!new)>(g: Graph<N, P>, path: seq<N>) {
    path != [] && forall i :: 0 <= i < |path| - 1 ==> Edge(g, path[i], path[i + 1])
  }

  ghost predicate Leads<N(!new), P(!new)>(g: Graph<N, P>, path: seq<N>, first: N, last: N) {
    |path| > 1 && IsPath(g, path) && path[0] == first && path[|path| - 1] == last
  }

  ghost predicate Above<N(!new), P(!new)>(g: Graph<N, P>, first: N, last: N) {
    exists path :: Leads(g, path, first, last)
  }

  // Such files declare one another in a cycle.
  ghost predicate Cyclic<N(!new), P(!new)>(g: Graph<N, P>) {
    exists file :: Above(g, file, file)
  }

  // Without a cycle, a file ranks above those that declare it.
  ghost predicate Ranked<N(!new), P(!new)>(g: Graph<N, P>, rank: N -> nat) {
    forall parent, file :: Edge(g, parent, file) ==> rank(parent) < rank(file)
  }

  ghost function Height<N(!new), P(!new)>(g: Graph<N, P>, file: N): nat {
    |set first | first in g.declared.Keys && Above(g, first, file)|
  }

  lemma EdgeAbove<N(!new), P(!new)>(g: Graph<N, P>, parent: N, file: N)
    requires Edge(g, parent, file)
    ensures Above(g, parent, file) && parent in g.declared
    ensures forall first :: Above(g, first, parent) ==> Above(g, first, file)
  {
    assert Leads(g, [parent, file], parent, file);
    var chain :| IsChain(g, chain, parent);
    forall first | Above(g, first, parent) ensures Above(g, first, file) {
      var path :| Leads(g, path, first, parent);
      var longer := path + [file];
      forall i | 0 <= i < |longer| - 1 ensures Edge(g, longer[i], longer[i + 1]) {
        assert i < |path| - 1 ==> Edge(g, path[i], path[i + 1]);
      }
      assert Leads(g, longer, first, file);
    }
  }

  lemma HeightRanks<N(!new), P(!new)>(g: Graph<N, P>, rank: N -> nat)
    requires !Cyclic(g) && forall file :: rank(file) == Height(g, file)
    ensures Ranked(g, rank)
  {
    forall parent, file | Edge(g, parent, file) ensures rank(parent) < rank(file) {
      EdgeAbove(g, parent, file);
      var a := set first | first in g.declared.Keys && Above(g, first, parent);
      var b := set first | first in g.declared.Keys && Above(g, first, file);
      assert parent in b && parent !in a;
      SmallerSet(a, b);
    }
  }

  // Looked up to a rank, the memo leaves out no chain.
  ghost predicate WholeTo<N(!new), P(!new)>(g: Graph<N, P>, rank: N -> nat, memo: Memo<N, P>, bound: int) {
    forall k :: k in memo && (Live(g, k) ==> rank(k) <= bound) ==> Whole(g, k, memo[k])
  }

  // A lookup to a rank leaves what is above it.
  ghost predicate Keeps<N(!new), P(!new)>(
      g: Graph<N, P>, rank: N -> nat, memo: Memo<N, P>, after: Memo<N, P>, bound: int) {
    && (forall k :: k in memo && Live(g, k) && rank(k) > bound ==> k in after && after[k] == memo[k])
    && (forall k :: k in after && k !in memo && Live(g, k) ==> rank(k) <= bound)
  }

  lemma {:induction false} LookupWhole<N(!new), P(!new)>(
      g: Graph<N, P>, rank: N -> nat, memo: Memo<N, P>, file: N, bound: int)
    requires Ranked(g, rank) && WholeTo(g, rank, memo, bound) && (Live(g, file) ==> rank(file) <= bound)
    ensures WholeTo(g, rank, Lookup(g, memo, file), bound)
    ensures Keeps(g, rank, memo, Lookup(g, memo, file), bound)
    decreases g.declared.Keys - memo.Keys, 1
  {
    if file in memo {
    } else if file in g.tested {
      RootSound(g, {}, file);
    } else if file in g.declared {
      var provisional := memo[file := None];
      assert file in g.declared.Keys - memo.Keys && file !in g.declared.Keys - provisional.Keys;
      var low := if Live(g, file) then rank(file) - 1 else bound;
      ParentsLow(g, rank, file, low);
      GatherWhole(g, rank, provisional, file, g.declared[file], {}, low);
      var (after, ways) := Gather(g, provisional, file, g.declared[file], {});
      ReducedWhole(g, file, ways);
      LookedUp(g, rank, memo, after, file, low, bound, Lookup(g, memo, file));
    } else {
      assert Whole(g, file, None);
    }
  }

  lemma ParentsLow<N(!new), P(!new)>(g: Graph<N, P>, rank: N -> nat, file: N, low: int)
    requires Ranked(g, rank) && file in g.declared && file !in g.tested
    requires Live(g, file) ==> low == rank(file) - 1
    ensures forall d :: d in g.declared[file] && d.0 != file && Live(g, d.0) ==> rank(d.0) <= low
  {
    forall d | d in g.declared[file] && d.0 != file && Live(g, d.0) ensures rank(d.0) <= low {
      var chain :| IsChain(g, chain, d.0);
      var longer := chain + [d];
      assert longer[..|longer| - 1] == chain;
      assert IsChain(g, longer, file);
      assert Edge(g, d.0, file);
    }
  }

  // The chains through some declarations are covered.
  ghost predicate CoversThrough<N(!new), P(!new)>(
      g: Graph<N, P>, file: N, declarations: seq<(N, set<P>)>, ways: set<set<P>>) {
    forall chain :: IsChain(g, chain, file) && chain != [] && chain[|chain| - 1] in declarations ==>
      Covers(ways, Needs(chain))
  }

  lemma {:induction false} GatherWhole<N(!new), P(!new)>(
      g: Graph<N, P>, rank: N -> nat, memo: Memo<N, P>, file: N, declarations: seq<(N, set<P>)>,
      ways: set<set<P>>, low: int)
    requires Ranked(g, rank) && WholeTo(g, rank, memo, low)
    requires forall d :: d in declarations && d.0 != file && Live(g, d.0) ==> rank(d.0) <= low
    ensures var (after, found) := Gather(g, memo, file, declarations, ways);
            && WholeTo(g, rank, after, low) && Keeps(g, rank, memo, after, low)
            && ways <= found && CoversThrough(g, file, declarations, found)
    decreases g.declared.Keys - memo.Keys, 2, |declarations|
  {
    if declarations != [] {
      var (parent, predicates) := declarations[0];
      assert declarations[0] in declarations;
      assert forall d :: d in declarations ==> d == declarations[0] || d in declarations[1..];
      if parent == file {
        GatherWhole(g, rank, memo, file, declarations[1..], ways, low);
      } else {
        var after := Lookup(g, memo, parent);
        LookupWhole(g, rank, memo, parent, low);
        var more := match after[parent] case None => ways case Some(found) => ways + Added(found, predicates);
        GatherWhole(g, rank, after, file, declarations[1..], more, low);
        var found := Gather(g, after, file, declarations[1..], more).1;
        ThroughFirst(g, file, declarations[0], after[parent], more, found);
      }
    }
  }

  lemma ThroughFirst<N(!new), P(!new)>(
      g: Graph<N, P>, file: N, d: (N, set<P>), result: Option<set<set<P>>>, more: set<set<P>>, found: set<set<P>>)
    requires Whole(g, d.0, result) && more <= found
    requires result.Some? ==> Added(result.value, d.1) <= more
    ensures CoversThrough(g, file, [d], found)
  {
    forall chain | IsChain(g, chain, file) && chain != [] && chain[|chain| - 1] in [d]
      ensures Covers(found, Needs(chain))
    {
      var before := chain[..|chain| - 1];
      assert IsChain(g, before, d.0);
      var way :| way in result.value && way <= Needs(before);
      assert way + d.1 in Added(result.value, d.1) && way + d.1 <= Needs(chain);
    }
  }

  lemma ReducedWhole<N(!new), P(!new)>(g: Graph<N, P>, file: N, ways: set<set<P>>)
    requires file in g.declared && file !in g.tested && CoversThrough(g, file, g.declared[file], ways)
    ensures Whole(g, file, if ways == {} then None else Some(Reduced(ways)))
  {
    forall chain | IsChain(g, chain, file) ensures ways != {} && Covers(Reduced(ways), Needs(chain)) {
      var way :| way in ways && way <= Needs(chain);
      var least := BelowReduced(ways, way);
    }
  }

  lemma LookedUp<N(!new), P(!new)>(
      g: Graph<N, P>, rank: N -> nat, memo: Memo<N, P>, after: Memo<N, P>, file: N, low: int, bound: int, end: Memo<N, P>)
    requires file !in memo && WholeTo(g, rank, memo, bound)
    requires Live(g, file) ==> low == rank(file) - 1 && rank(file) <= bound
    requires !Live(g, file) ==> low == bound
    requires WholeTo(g, rank, after, low) && Keeps(g, rank, memo[file := None], after, low)
    requires file in end && end == after[file := end[file]] && Whole(g, file, end[file])
    ensures WholeTo(g, rank, end, bound) && Keeps(g, rank, memo, end, bound)
  {
    var provisional := memo[file := None];
    forall k | k in end && (Live(g, k) ==> rank(k) <= bound) ensures Whole(g, k, end[k]) {
      if k != file && Live(g, k) && rank(k) > low {
        assert k in provisional && after[k] == provisional[k] == memo[k];
      }
    }
  }

  ghost predicate AllRight<N(!new), P(!new)>(g: Graph<N, P>, memo: Memo<N, P>) {
    forall k :: k in memo ==> Right(g, k, memo[k])
  }

  // Unless there is such a cycle, looking up files in any order finds the minimal ways of their chains, and
  // none exactly for those that no chain reaches.
  lemma LookupRight<N(!new), P(!new)>(g: Graph<N, P>, memo: Memo<N, P>, file: N)
    requires !Cyclic(g) && AllRight(g, memo)
    ensures AllRight(g, Lookup(g, memo, file))
  {
    var rank := (k: N) => Height(g, k);
    HeightRanks(g, rank);
    LookupSound(g, {}, memo, file);
    LookupWhole(g, rank, memo, file, rank(file));
    var after := Lookup(g, memo, file);
    forall k | k in after ensures Whole(g, k, after[k]) {
      if Live(g, k) && rank(k) > rank(file) {
        assert k in memo;
      }
    }
  }

  // On a cycle the order counts: two files that declare each other, of which a root declares one.
  const CYCLE: Graph<nat, nat> := Graph({0}, map[1 := [(2, {})], 2 := [(1, {}), (0, {})]])

  lemma CycleLookups()
    ensures Lookup(CYCLE, map[], 1)[1] == Some(Anywhere())
    ensures Lookup(CYCLE, Lookup(CYCLE, map[], 2), 1)[1] == None && !Right(CYCLE, 1, None)
    ensures Cyclic(CYCLE)
  {
    CycleForward();
    CycleBackward();
    var chain: seq<(nat, set<nat>)> := [(0, {}), (2, {})];
    assert chain[..1] == [(0, {})] && chain[..1][..0] == [];
    assert IsChain(CYCLE, [], 0);
    assert IsChain(CYCLE, chain[..1], 2);
    assert IsChain(CYCLE, chain, 1);
    assert CYCLE.declared[2][0] == (1, {}) && CYCLE.declared[1][0] == (2, {});
    assert Edge(CYCLE, 1, 2) && Edge(CYCLE, 2, 1);
    var path: seq<nat> := [1, 2, 1];
    assert forall i {:trigger path[i]} :: 0 <= i < 2 ==> Edge(CYCLE, path[i], path[i + 1]);
    assert Leads(CYCLE, path, 1, 1);
    assert Above(CYCLE, 1, 1);
  }

  lemma CycleForward()
    ensures Lookup(CYCLE, map[], 1)[1] == Some(Anywhere())
  {
    var memo1: Memo<nat, nat> := map[1 := None];
    var memo2 := memo1[2 := None];
    var memo3 := memo2[0 := Some(Anywhere())];
    var roots: seq<(nat, set<nat>)> := [(0, {})];
    assert [(1, {}), (0, {})][1..] == roots && roots[1..] == [];
    assert Lookup(CYCLE, memo2, 1) == memo2;
    assert Lookup(CYCLE, memo2, 0) == memo3;
    AddedAnywhere();
    assert Gather(CYCLE, memo3, 2, [], Anywhere()) == (memo3, Anywhere());
    assert Gather(CYCLE, memo2, 2, roots, {}) == (memo3, Anywhere());
    assert Gather(CYCLE, memo2, 2, CYCLE.declared[2], {}) == (memo3, Anywhere());
    AnywhereReduced();
    assert Lookup(CYCLE, memo1, 2) == memo3[2 := Some(Anywhere())];
    assert CYCLE.declared[1][1..] == [];
    assert Gather(CYCLE, memo1, 1, CYCLE.declared[1], {}) == (memo3[2 := Some(Anywhere())], Anywhere());
  }

  lemma AddedAnywhere()
    ensures {} + Added(Anywhere<nat>(), {}) == Anywhere()
  {
    var none: set<nat> := {};
    assert none in Anywhere<nat>() && none + none == none;
    assert none + none in Added(Anywhere<nat>(), none);
    assert Added(Anywhere<nat>(), none) == {none};
  }

  lemma AnywhereReduced()
    ensures Reduced(Anywhere<nat>()) == Anywhere()
  {
  }

  lemma CycleBackward()
    ensures Lookup(CYCLE, map[], 2)[1] == None
    ensures Lookup(CYCLE, Lookup(CYCLE, map[], 2), 1)[1] == None
  {
    var memo1: Memo<nat, nat> := map[2 := None];
    var memo2 := memo1[1 := None];
    assert Lookup(CYCLE, memo2, 2) == memo2;
    assert CYCLE.declared[1][1..] == [];
    assert Gather(CYCLE, memo2, 1, CYCLE.declared[1], {}) == (memo2, {});
    assert Lookup(CYCLE, memo1, 1) == memo2;
    var roots: seq<(nat, set<nat>)> := [(0, {})];
    assert CYCLE.declared[2][1..] == roots && roots[1..] == [];
    AddedAnywhere();
    var memo3 := memo2[0 := Some(Anywhere())];
    assert Lookup(CYCLE, memo2, 0) == memo3;
    assert Gather(CYCLE, memo2, 2, roots, {}) == (memo3, Anywhere());
    assert Gather(CYCLE, memo1, 2, CYCLE.declared[2], {}) == (memo3, Anywhere());
  }

  class Finder<N(==), P(==)> {
    const graph: Graph<N, P>
    var memo: Memo<N, P>

    constructor (graph: Graph<N, P>)
      ensures this.graph == graph && memo == map[]
    {
      this.graph := graph;
      memo := map[];
    }

    method Inherited(file: N) returns (conditions: Option<set<set<P>>>)
      modifies this
      ensures memo == Lookup(graph, old(memo), file) && conditions == memo[file]
      decreases graph.declared.Keys - memo.Keys
    {
      if file in memo {
        return memo[file];
      }
      if file in graph.tested {
        memo := memo[file := Some(Anywhere())];
        return memo[file];
      }
      ghost var goal := Lookup(graph, memo, file);
      memo := memo[file := None];
      if file !in graph.declared {
        return None;
      }
      assert file in graph.declared.Keys - old(memo).Keys && file !in graph.declared.Keys - memo.Keys;
      var ways: set<set<P>> := {};
      var declarations := graph.declared[file];
      ghost var gathered := Gather(graph, memo, file, declarations, {});
      for i := 0 to |declarations|
        invariant old(memo).Keys + {file} <= memo.Keys
        invariant Gather(graph, memo, file, declarations[i..], ways) == gathered
      {
        var (parent, predicates) := declarations[i];
        assert declarations[i..][1..] == declarations[i + 1..];
        if parent != file {
          var found := Inherited(parent);
          if found.Some? {
            ways := ways + Added(found.value, predicates);
          }
        }
      }
      memo := memo[file := if ways == {} then None else Some(Reduced(ways))];
      return memo[file];
    }
  }
}
