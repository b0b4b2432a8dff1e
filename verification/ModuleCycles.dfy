/** What a cycle does to looking up conditions: whatever its shape, there are predicates and an order of
    lookups with which it loses a way. */
module ModuleCycles {
  import opened Options
  import opened Conditions
  import opened ModuleConditions

  // Each declaration requires a predicate of its own.
  ghost predicate Marked<N(!new)>(g: Graph<N, (N, nat)>) {
    forall file, i :: file in g.declared && 0 <= i < |g.declared[file]| ==>
      g.declared[file][i].1 == {(file, i)}
  }

  // The parents of the files that were looked up, but for those whose lookup is not done, were, too.
  ghost predicate Closed<N(!new), P(!new)>(g: Graph<N, P>, memo: Memo<N, P>, pending: set<N>) {
    forall file, d ::
      (file in memo && file !in pending && file !in g.tested && file in g.declared
       && d in g.declared[file] && d.0 != file)
      ==> d.0 in memo
  }

  lemma {:induction false} LookupCloses<N(!new), P(!new)>(g: Graph<N, P>, memo: Memo<N, P>, pending: set<N>, file: N)
    requires Closed(g, memo, pending)
    ensures Closed(g, Lookup(g, memo, file), pending)
    decreases g.declared.Keys - memo.Keys, 1
  {
    if file !in memo && file !in g.tested && file in g.declared {
      var provisional := memo[file := None];
      assert file in g.declared.Keys - memo.Keys && file !in g.declared.Keys - provisional.Keys;
      GatherCloses(g, provisional, pending + {file}, file, g.declared[file], {});
    }
  }

  lemma {:induction false} GatherCloses<N(!new), P(!new)>(
      g: Graph<N, P>, memo: Memo<N, P>, pending: set<N>, file: N, declarations: seq<(N, set<P>)>, ways: set<set<P>>)
    requires Closed(g, memo, pending)
    ensures var after := Gather(g, memo, file, declarations, ways).0;
            Closed(g, after, pending) && forall d :: d in declarations && d.0 != file ==> d.0 in after
    decreases g.declared.Keys - memo.Keys, 2, |declarations|
  {
    if declarations != [] {
      var (parent, predicates) := declarations[0];
      if parent == file {
        GatherCloses(g, memo, pending, file, declarations[1..], ways);
      } else {
        var after := Lookup(g, memo, parent);
        LookupCloses(g, memo, pending, parent);
        var more := match after[parent] case None => ways case Some(found) => ways + Added(found, predicates);
        GatherCloses(g, after, pending, file, declarations[1..], more);
      }
      assert forall d :: d in declarations ==> d == declarations[0] || d in declarations[1..];
    }
  }

  // So a lookup visits all that is above its file.
  lemma {:induction false} VisitsAbove<N(!new), P(!new)>(g: Graph<N, P>, memo: Memo<N, P>, path: seq<N>)
    requires Closed(g, memo, {}) && IsPath(g, path) && path[|path| - 1] in memo
    ensures path[0] in memo
    decreases |path|
  {
    if |path| > 1 {
      var last := |path| - 1;
      assert Edge(g, path[last - 1], path[last]);
      var before := path[..last];
      forall i | 0 <= i < |before| - 1 ensures Edge(g, before[i], before[i + 1]) {
        assert Edge(g, path[i], path[i + 1]);
      }
      VisitsAbove(g, memo, before);
    }
  }

  // While a file is looked up, what is found for others passes it by.
  lemma LookupAvoids<N(!new), P(!new)>(g: Graph<N, P>, file: N, other: N)
    requires file in g.declared && file !in g.tested && other != file && other in Lookup(g, map[], file)
    ensures Sound(g, {file}, other, Lookup(g, map[], file)[other])
  {
    var none: Memo<N, P> := map[];
    var provisional := none[file := None];
    GatherSound(g, {file}, provisional, file, g.declared[file], {});
    var (after, ways) := Gather(g, provisional, file, g.declared[file], {});
    assert Lookup(g, none, file)[other] == after[other];
  }

  lemma {:induction false} ChainPrefix<N(!new), P(!new)>(g: Graph<N, P>, chain: seq<(N, set<P>)>, file: N, k: nat)
    requires IsChain(g, chain, file) && k < |chain|
    ensures IsChain(g, chain[..k], chain[k].0)
    decreases |chain|
  {
    var before := chain[..|chain| - 1];
    if k < |chain| - 1 {
      ChainPrefix(g, before, chain[|chain| - 1].0, k);
      assert before[..k] == chain[..k] && before[k] == chain[k];
    }
  }

  // Where a chain to some files first meets one of them.
  lemma {:induction false} Entry<N(!new), P(!new)>(g: Graph<N, P>, files: set<N>, chain: seq<(N, set<P>)>, file: N)
      returns (way: seq<(N, set<P>)>, first: N)
    requires IsChain(g, chain, file) && file in files
    ensures IsChain(g, way, first) && first in files
    ensures forall k :: 0 <= k < |way| ==> way[k].0 !in files
    decreases |chain|
  {
    if k :| 0 <= k < |chain| && chain[k].0 in files {
      ChainPrefix(g, chain, file, k);
      way, first := Entry(g, files, chain[..k], chain[k].0);
    } else {
      way, first := chain, file;
    }
  }

  // The marks that a chain needs are of the files that it passes.
  lemma {:induction false} MarksPass<N(!new)>(
      g: Graph<N, (N, nat)>, chain: seq<(N, set<(N, nat)>)>, file: N, mark: (N, nat))
    requires Marked(g) && IsChain(g, chain, file) && mark in Needs(chain)
    ensures mark.0 == file || exists k :: 0 <= k < |chain| && chain[k].0 == mark.0
    decreases |chain|
  {
    var last, before := chain[|chain| - 1], chain[..|chain| - 1];
    if mark in last.1 {
      var i :| 0 <= i < |g.declared[file]| && g.declared[file][i] == last;
      assert g.declared[file][i].1 == {(file, i)};
    } else {
      MarksPass(g, before, last.0, mark);
      if mark.0 == last.0 {
        assert chain[|chain| - 1].0 == mark.0;
      } else {
        var k :| 0 <= k < |before| && before[k].0 == mark.0;
        assert chain[k].0 == mark.0;
      }
    }
  }

  // A chain that enters a cycle, and goes on to the next file of it, needs what no chain does that passes
  // the first by.
  lemma NextNotCovered<N(!new)>(
      g: Graph<N, (N, nat)>, way: seq<(N, set<(N, nat)>)>, first: N, d: (N, set<(N, nat)>), next: N,
      other: seq<(N, set<(N, nat)>)>)
    requires Marked(g) && IsChain(g, way, first) && next !in g.tested && next != first
    requires next in g.declared && d in g.declared[next] && d.0 == first
    requires forall k :: 0 <= k < |way| ==> way[k].0 != next
    requires IsChain(g, other, next) && forall k :: 0 <= k < |other| ==> other[k].0 != first
    ensures !(Needs(other) <= Needs(way + [d]))
  {
    var last := other[|other| - 1];
    var i :| 0 <= i < |g.declared[next]| && g.declared[next][i] == last;
    var j :| 0 <= j < |g.declared[next]| && g.declared[next][j] == d;
    assert last.1 == {(next, i)} && d.1 == {(next, j)} && i != j;
    assert (next, i) in Needs(other);
    var longer := way + [d];
    assert longer[..|longer| - 1] == way;
    assert Needs(longer) == Needs(way) + d.1;
    if (next, i) in Needs(way) {
      MarksPass(g, way, first, (next, i));
    }
  }

  // The files of a cycle in order, from another of them on.
  lemma Rotate<N(!new), P(!new)>(g: Graph<N, P>, cycle: seq<N>, first: N) returns (next: N, path: seq<N>)
    requires |cycle| > 1 && IsPath(g, cycle) && cycle[0] == cycle[|cycle| - 1] && first in cycle
    ensures next in cycle && Edge(g, first, next)
    ensures IsPath(g, path) && path[0] == next && path[|path| - 1] == first
  {
    var last := |cycle| - 1;
    var j :| 0 <= j < |cycle| && cycle[j] == first;
    if j == last {
      j := 0;
    }
    next := cycle[j + 1];
    assert Edge(g, cycle[j], cycle[j + 1]);
    path := cycle[j + 1..] + cycle[1..j + 1];
    forall i | 0 <= i < |path| - 1 ensures Edge(g, path[i], path[i + 1]) {
      var k := if j + 1 + i < last then j + 1 + i else j + 1 + i - last;
      assert path[i] == cycle[k] && path[i + 1] == cycle[k + 1];
      assert Edge(g, cycle[k], cycle[k + 1]);
    }
  }

  // Looking up the file where a chain enters a cycle leaves the next one of it without a way.
  lemma CycleLoses<N(!new)>(g: Graph<N, (N, nat)>) returns (file: N, other: N)
    requires Marked(g) && Cyclic(g)
    ensures other in Lookup(g, map[], file) && !Right(g, other, Lookup(g, map[], file)[other])
  {
    var start :| Above(g, start, start);
    var cycle :| Leads(g, cycle, start, start);
    assert Edge(g, cycle[0], cycle[1]);
    var chain :| IsChain(g, chain, start);
    var files := set f | f in cycle;
    var way;
    way, file := Entry(g, files, chain, start);
    var path;
    other, path := Rotate(g, cycle, file);
    EntryLoses(g, way, file, other, path);
  }

  lemma EntryLoses<N(!new)>(g: Graph<N, (N, nat)>, way: seq<(N, set<(N, nat)>)>, file: N, other: N, path: seq<N>)
    requires Marked(g) && IsChain(g, way, file) && Edge(g, file, other)
    requires forall k :: 0 <= k < |way| ==> way[k].0 != other
    requires IsPath(g, path) && path[0] == other && path[|path| - 1] == file
    ensures other in Lookup(g, map[], file) && !Right(g, other, Lookup(g, map[], file)[other])
  {
    var none: Memo<N, (N, nat)> := map[];
    var after := Lookup(g, none, file);
    LookupCloses(g, none, {}, file);
    VisitsAbove(g, after, path);
    assert file in g.declared by {
      assert way != [];
    }
    LookupAvoids(g, file, other);
    var d :| d in g.declared[other] && d.0 == file;
    NotWhole(g, way, file, d, other, after[other]);
  }

  lemma NotWhole<N(!new)>(
      g: Graph<N, (N, nat)>, way: seq<(N, set<(N, nat)>)>, file: N, d: (N, set<(N, nat)>), other: N,
      result: Option<set<set<(N, nat)>>>)
    requires Marked(g) && IsChain(g, way, file) && other !in g.tested && other != file
    requires other in g.declared && d in g.declared[other] && d.0 == file
    requires forall k :: 0 <= k < |way| ==> way[k].0 != other
    requires Sound(g, {file}, other, result)
    ensures !Whole(g, other, result)
  {
    var longer := way + [d];
    assert longer[..|longer| - 1] == way;
    assert IsChain(g, longer, other);
    if result.Some? {
      forall found | found in result.value ensures !(found <= Needs(longer)) {
        assert Backed(g, {file}, other, found);
        var chain :| Backs(g, {file}, other, found, chain);
        NextNotCovered(g, way, file, d, other, chain);
      }
      assert !Covers(result.value, Needs(longer));
    }
  }

  // The graph with such marks in place of its predicates.
  function Mark<N(==), P>(g: Graph<N, P>): Graph<N, (N, nat)> {
    Graph(g.tested, map file | file in g.declared :: Marks(file, g.declared[file]))
  }

  function Marks<N(==), P>(file: N, declarations: seq<(N, set<P>)>): (marks: seq<(N, set<(N, nat)>)>)
    ensures |marks| == |declarations|
    ensures forall i :: 0 <= i < |marks| ==> marks[i] == (declarations[i].0, {(file, i)})
  {
    seq(|declarations|, i requires 0 <= i < |declarations| => (declarations[i].0, {(file, i)}))
  }

  // Two graphs of one shape have the same cycles.
  ghost predicate SameShape<N(!new), P(!new), Q(!new)>(g: Graph<N, P>, h: Graph<N, Q>) {
    && g.tested == h.tested && g.declared.Keys == h.declared.Keys
    && forall file :: file in g.declared ==>
         && |g.declared[file]| == |h.declared[file]|
         && forall i :: 0 <= i < |g.declared[file]| ==> g.declared[file][i].0 == h.declared[file][i].0
  }

  lemma {:induction false} ShapeChain<N(!new), P(!new), Q(!new)>(
      g: Graph<N, P>, h: Graph<N, Q>, chain: seq<(N, set<P>)>, file: N)
      returns (other: seq<(N, set<Q>)>)
    requires SameShape(g, h) && IsChain(g, chain, file)
    ensures IsChain(h, other, file)
    decreases |chain|
  {
    if chain == [] {
      other := [];
    } else {
      var last := chain[|chain| - 1];
      var before := ShapeChain(g, h, chain[..|chain| - 1], last.0);
      var i :| 0 <= i < |g.declared[file]| && g.declared[file][i] == last;
      other := before + [h.declared[file][i]];
      assert other[..|other| - 1] == before;
    }
  }

  lemma ShapeEdge<N(!new), P(!new), Q(!new)>(g: Graph<N, P>, h: Graph<N, Q>, parent: N, file: N)
    requires SameShape(g, h) && Edge(g, parent, file)
    ensures Edge(h, parent, file)
  {
    var a :| IsChain(g, a, parent);
    var b :| IsChain(g, b, file);
    var c := ShapeChain(g, h, a, parent);
    var d := ShapeChain(g, h, b, file);
    var e :| e in g.declared[file] && e.0 == parent;
    var i :| 0 <= i < |g.declared[file]| && g.declared[file][i] == e;
    assert h.declared[file][i] in h.declared[file];
  }

  lemma ShapeCyclic<N(!new), P(!new), Q(!new)>(g: Graph<N, P>, h: Graph<N, Q>)
    requires SameShape(g, h) && Cyclic(g)
    ensures Cyclic(h)
  {
    var file :| Above(g, file, file);
    var path :| Leads(g, path, file, file);
    forall i | 0 <= i < |path| - 1 ensures Edge(h, path[i], path[i + 1]) {
      ShapeEdge(g, h, path[i], path[i + 1]);
    }
    assert Leads(h, path, file, file);
    assert Above(h, file, file);
  }

  // The memo after looking up some files in order.
  ghost function Lookups<N(!new), P(!new)>(g: Graph<N, P>, files: seq<N>): Memo<N, P> {
    if files == [] then map[] else Lookup(g, Lookups(g, files[..|files| - 1]), files[|files| - 1])
  }

  ghost predicate AlwaysRight<N(!new), P(!new)>(g: Graph<N, P>) {
    forall files :: AllRight(g, Lookups(g, files))
  }

  lemma {:induction false} LookupsRight<N(!new), P(!new)>(g: Graph<N, P>, files: seq<N>)
    requires !Cyclic(g)
    ensures AllRight(g, Lookups(g, files))
  {
    if files != [] {
      LookupsRight(g, files[..|files| - 1]);
      LookupRight(g, Lookups(g, files[..|files| - 1]), files[|files| - 1]);
    }
  }

  // The lookups of a graph are right in every order, whatever its predicates, exactly when no files that
  // chains reach, and that are no roots, declare one another in a cycle.
  lemma RightExactly<N(!new), P(!new)>(g: Graph<N, P>)
    ensures !Cyclic(g) ==> AlwaysRight(g)
    ensures !Cyclic(g) <==> AlwaysRight(Mark(g))
  {
    var h := Mark(g);
    assert SameShape(g, h) && SameShape(h, g) && Marked(h);
    if !Cyclic(g) {
      forall files ensures AllRight(g, Lookups(g, files)) {
        LookupsRight(g, files);
      }
      if Cyclic(h) {
        ShapeCyclic(h, g);
      }
      forall files ensures AllRight(h, Lookups(h, files)) {
        LookupsRight(h, files);
      }
    } else {
      ShapeCyclic(g, h);
      var file, other := CycleLoses(h);
      assert [file][..0] == [];
      assert Lookups(h, [file]) == Lookup(h, map[], file);
      assert !AllRight(h, Lookups(h, [file]));
    }
  }
}
