/** The files that a crate compiles: those of its targets, and what they declare, but for excluded ones. */
module Worklist {
  type Path = string
  type Declares = map<Path, set<Path>>

  // A file declares another that is not excluded.
  predicate Compiles(declares: Declares, excluded: set<Path>, from: Path, path: Path) {
    from in declares && path in declares[from] && path !in excluded
  }

  function Elements(paths: seq<Path>): set<Path> {
    set path | path in paths
  }

  // A chain of declarations from a target.
  ghost predicate Chain(declares: Declares, excluded: set<Path>, roots: set<Path>, chain: seq<Path>) {
    && chain != [] && chain[0] in roots
    && forall i :: 0 <= i < |chain| - 1 ==> Compiles(declares, excluded, chain[i], chain[i + 1])
  }

  ghost predicate Reached(declares: Declares, excluded: set<Path>, roots: set<Path>, path: Path) {
    exists chain :: Chain(declares, excluded, roots, chain) && chain[|chain| - 1] == path
  }

  lemma ReachedRoot(declares: Declares, excluded: set<Path>, roots: set<Path>, path: Path)
    requires path in roots
    ensures Reached(declares, excluded, roots, path)
  {
    assert Chain(declares, excluded, roots, [path]);
    assert [path][|[path]| - 1] == path;
  }

  lemma ReachedNext(declares: Declares, excluded: set<Path>, roots: set<Path>, from: Path, path: Path)
    requires Reached(declares, excluded, roots, from) && Compiles(declares, excluded, from, path)
    ensures Reached(declares, excluded, roots, path)
  {
    var chain :| Chain(declares, excluded, roots, chain) && chain[|chain| - 1] == from;
    var longer := chain + [path];
    assert Chain(declares, excluded, roots, longer) && longer[|longer| - 1] == path;
  }

  // A set that is closed under declarations holds the chains from what it holds.
  lemma {:induction false} ChainStays(
    declares: Declares, excluded: set<Path>, roots: set<Path>, compiled: set<Path>, chain: seq<Path>)
    requires roots <= compiled && Chain(declares, excluded, roots, chain)
    requires forall from, path :: from in compiled && Compiles(declares, excluded, from, path) ==> path in compiled
    ensures chain[|chain| - 1] in compiled
    decreases |chain|
  {
    if |chain| > 1 {
      ChainStays(declares, excluded, roots, compiled, chain[..|chain| - 1]);
      assert Compiles(declares, excluded, chain[|chain| - 2], chain[|chain| - 1]);
    }
  }

  // Visits what one file declares.
  method Visit(declares: Declares, excluded: set<Path>, from: Path, before: set<Path>)
      returns (compiled: set<Path>, added: seq<Path>)
    requires from in declares
    ensures compiled == before + (set path | path in declares[from] && path !in excluded)
    ensures forall path :: path in added <==> path in compiled && path !in before
    ensures |compiled| == |before| + |added|
  {
    compiled, added := before, [];
    var rest := declares[from];
    while rest != {}
      invariant rest <= declares[from]
      invariant compiled == before + (set path | path in declares[from] - rest && path !in excluded)
      invariant forall path :: path in added <==> path in compiled && path !in before
      invariant |compiled| == |before| + |added|
    {
      var path :| path in rest;
      rest := rest - {path};
      if path !in compiled && path !in excluded {
        compiled := compiled + {path};
        added := added + [path];
      }
    }
  }

  // What a file declares is compiled, once it is no longer pending.
  ghost predicate Followed(
    declares: Declares, excluded: set<Path>, compiled: set<Path>, pending: seq<Path>)
  {
    forall from, path :: from in compiled && from !in pending && Compiles(declares, excluded, from, path) ==>
      path in compiled
  }

  // The files compiled: exactly those that a chain of declarations reaches from a target.
  method Compiled(declares: Declares, excluded: set<Path>, roots: seq<Path>) returns (compiled: set<Path>)
    ensures forall path :: path in compiled <==> Reached(declares, excluded, Elements(roots), path)
  {
    ghost var targets := Elements(roots);
    ghost var all := targets + set from, path | from in declares && path in declares[from] :: path;
    var pending := roots;
    compiled := Elements(roots);
    forall path | path in compiled ensures Reached(declares, excluded, targets, path) {
      ReachedRoot(declares, excluded, targets, path);
    }
    while pending != []
      invariant targets <= compiled <= all
      invariant forall path :: path in pending ==> path in compiled
      invariant forall path :: path in compiled ==> Reached(declares, excluded, targets, path)
      invariant Followed(declares, excluded, compiled, pending)
      decreases |all - compiled|, |pending|
    {
      var from := pending[|pending| - 1];
      pending := pending[..|pending| - 1];
      if from in declares {
        var before := compiled;
        var added;
        compiled, added := Visit(declares, excluded, from, before);
        forall path | path in compiled && path !in before ensures Reached(declares, excluded, targets, path) {
          ReachedNext(declares, excluded, targets, from, path);
        }
        pending := pending + added;
      }
    }
    forall path | Reached(declares, excluded, targets, path) ensures path in compiled {
      var chain :| Chain(declares, excluded, targets, chain) && chain[|chain| - 1] == path;
      ChainStays(declares, excluded, targets, compiled, chain);
    }
  }
}
