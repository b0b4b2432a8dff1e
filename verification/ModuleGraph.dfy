/** Restoring the modules that an analysis of a crate drops as test modules, from its analysis with them. */
module ModuleGraph {
  import opened Options

  // A module's path, from the crate on.
  type Path = seq<string>

  // A graph of modules: every module but the crate has an owner, and a use is a pair of user and used.
  datatype Export = Export(visibility: map<Path, string>, owner: map<Path, Path>, uses: set<(Path, Path)>)
  {
    // What reading an export checks.
    ghost predicate Valid(crate: Path) {
      && |crate| == 1 && crate in visibility
      && owner.Keys == visibility.Keys - {crate}
      && (forall p :: p in owner ==> |p| > 1 && owner[p] == p[..|p| - 1] && owner[p] in visibility)
      && (forall u :: u in uses ==> u.0 in visibility && u.1 in visibility)
    }
  }

  // A condition of the module, or of one that contains it, is test.
  predicate TestOnly(found: map<Path, seq<string>>, path: Path)
    requires forall n :: 1 <= n <= |path| ==> path[..n] in found
  {
    exists n :: 1 <= n <= |path| && "test" in found[path[..n]]
  }

  lemma {:induction false} Ancestors(e: Export, crate: Path, path: Path)
    requires e.Valid(crate) && path in e.visibility
    ensures |path| >= 1 && forall n :: 1 <= n <= |path| ==> path[..n] in e.visibility
    decreases |path|
  {
    if path != crate {
      var owner := e.owner[path];
      Ancestors(e, crate, owner);
      forall n | 1 <= n <= |path| ensures path[..n] in e.visibility {
        if n < |path| {
          assert path[..n] == owner[..n];
        } else {
          assert path[..n] == path;
        }
      }
    } else {
      assert path[..1] == path;
    }
  }

  // Going up from a module, the first that is in the plain analysis.
  function Kept(plain: Export, tested: Export, crate: Path, path: Path): (kept: Path)
    requires plain.Valid(crate) && tested.Valid(crate) && path in tested.visibility
    ensures kept in plain.visibility && kept <= path
    ensures path in plain.visibility ==> kept == path
    decreases |path|
  {
    if path in plain.visibility then path else Kept(plain, tested, crate, tested.owner[path])
  }

  method FindKept(plain: Export, tested: Export, crate: Path, start: Path) returns (path: Path)
    requires plain.Valid(crate) && tested.Valid(crate) && start in tested.visibility
    ensures path == Kept(plain, tested, crate, start)
    ensures forall n :: |path| < n <= |start| ==> start[..n] !in plain.visibility
  {
    path := start;
    while path !in plain.visibility
      invariant path in tested.visibility && path <= start
      invariant Kept(plain, tested, crate, path) == Kept(plain, tested, crate, start)
      invariant forall n :: |path| < n <= |start| ==> start[..n] !in plain.visibility
      decreases |path|
    {
      assert start[..|path|] == path;
      path := tested.owner[path];
    }
  }

  datatype Restoration = Restored(modules: Export) | Refused(reason: Reason)
  datatype Reason = DifferentModules | Condition(path: Path) | OutsideTests(missing: set<Path>)

  // The analyses, the conditions of the modules of the one with tests, and whether a condition other
  // than test depends on it.
  datatype Input = Input(plain: Export, tested: Export, found: map<Path, seq<string>>, crate: Path,
                         mentions: string -> bool)
  {
    ghost predicate Valid() {
      plain.Valid(crate) && tested.Valid(crate)
    }

    // What is left of the analysis with tests without its test modules.
    function Built(): set<Path>
      requires Valid() && found.Keys == tested.visibility.Keys
    {
      set p | p in tested.visibility && !Test(p)
    }

    predicate Test(path: Path)
      requires Valid() && found.Keys == tested.visibility.Keys && path in tested.visibility
    {
      Ancestors(tested, crate, path);
      TestOnly(found, path)
    }

    // The conditions that tell no test module apart.
    function Unclear(): set<Path> {
      set p | p in found && exists c :: c in found[p] && c != "test" && mentions(c)
    }

    ghost predicate Accepted() {
      && Valid() && found.Keys == tested.visibility.Keys && Unclear() == {}
      && plain.visibility.Keys <= Built()
    }

    // Where the plain analysis moves a use.
    function Move(use: (Path, Path)): (Path, Path)
      requires Valid() && use.0 in tested.visibility && use.1 in tested.visibility
    {
      (Kept(plain, tested, crate, use.0), Kept(plain, tested, crate, use.1))
    }

    // A use survives if what the projection makes of it is known, or vanishes.
    predicate Lands(u: (Path, Path))
      requires Accepted()
    {
      && u in tested.uses && u.0 in Built() && u.1 in Built()
      && (Move(u) in plain.uses || (Move(u).0 == Move(u).1 && Move(u) != u))
    }

    function Landing(): set<(Path, Path)>
      requires Accepted()
    {
      set u | u in tested.uses && Lands(u)
    }

    // Where they land.
    function Landed(): set<(Path, Path)>
      requires Accepted()
    {
      Moves(Landing())
    }

    function Moves(uses: set<(Path, Path)>): set<(Path, Path)>
      requires Valid() && uses <= tested.uses
    {
      set u | u in uses :: Move(u)
    }

    function Restoring(): Export
      requires Accepted()
    {
      Export(map p | p in Built() :: tested.visibility[p],
             map p | p in Built() - {crate} :: tested.owner[p],
             Landing() + (plain.uses - Landed()))
    }
  }

  method Restore(i: Input) returns (r: Restoration)
    requires i.Valid()
    ensures r.Restored? <==> i.Accepted()
    ensures r.Restored? ==> r.modules == i.Restoring()
    ensures r.Refused? ==>
              match r.reason
              case DifferentModules => i.found.Keys != i.tested.visibility.Keys
              case Condition(path) => path in i.Unclear()
              case OutsideTests(missing) =>
                i.found.Keys == i.tested.visibility.Keys && missing == i.plain.visibility.Keys - i.Built() != {}
  {
    if i.found.Keys != i.tested.visibility.Keys {
      return Refused(DifferentModules);
    }
    var unclear := i.Unclear();
    if unclear != {} {
      var path :| path in unclear;
      return Refused(Condition(path));
    }
    var built := i.Built();
    var missing := i.plain.visibility.Keys - built;
    if missing != {} {
      return Refused(OutsideTests(missing));
    }
    forall p | p in i.plain.visibility ensures p in built {
      assert p !in missing;
    }
    var uses, moved := MoveUses(i, built);
    r := Restored(Export(map p | p in built :: i.tested.visibility[p],
                         map p | p in built - {i.crate} :: i.tested.owner[p],
                         uses + (i.plain.uses - moved)));
  }

  method MoveUses(i: Input, built: set<Path>) returns (uses: set<(Path, Path)>, moved: set<(Path, Path)>)
    requires i.Accepted() && built == i.Built()
    ensures uses == i.Landing() && moved == i.Landed()
  {
    uses, moved := {}, {};
    var rest := i.tested.uses;
    while rest != {}
      invariant rest <= i.tested.uses
      invariant uses == i.Landing() - rest && moved == i.Moves(uses)
      decreases |rest|
    {
      var use :| use in rest;
      LandingStep(i, uses, rest, use);
      rest := rest - {use};
      if use.0 in built && use.1 in built {
        var user := FindKept(i.plain, i.tested, i.crate, use.0);
        var used := FindKept(i.plain, i.tested, i.crate, use.1);
        if (user, used) in i.plain.uses || (user == used && (user, used) != use) {
          uses := uses + {use};
          moved := moved + {(user, used)};
        }
      }
    }
  }

  lemma LandingStep(i: Input, uses: set<(Path, Path)>, rest: set<(Path, Path)>, use: (Path, Path))
    requires i.Accepted() && use in rest && rest <= i.tested.uses && uses == i.Landing() - rest
    ensures i.Landing() - (rest - {use}) == if i.Lands(use) then uses + {use} else uses
    ensures i.Moves(uses + {use}) == i.Moves(uses) + {i.Move(use)}
  {
  }

  // Ownership does not lead out of them.
  lemma BuiltClosed(i: Input, path: Path)
    requires i.Accepted() && path in i.Built() && path != i.crate
    ensures i.tested.owner[path] in i.Built()
  {
    var owner := i.tested.owner[path];
    Ancestors(i.tested, i.crate, path);
    Ancestors(i.tested, i.crate, owner);
    TestBelow(i.found, path, owner);
  }

  lemma TestBelow(found: map<Path, seq<string>>, path: Path, owner: Path)
    requires |path| > 1 && owner == path[..|path| - 1]
    requires forall n :: 1 <= n <= |path| ==> path[..n] in found
    requires forall n :: 1 <= n <= |owner| ==> owner[..n] in found
    ensures TestOnly(found, owner) ==> TestOnly(found, path)
  {
    assert forall n :: 1 <= n <= |owner| ==> owner[..n] == path[..n];
  }

  // What restoring gives is an analysis: it holds the owners of its modules and the ends of its uses.
  lemma RestoringValid(i: Input)
    requires i.Accepted()
    ensures i.Restoring().Valid(i.crate)
  {
    var e := i.Restoring();
    assert i.crate in e.visibility;
    forall p | p in e.owner ensures |p| > 1 && e.owner[p] == p[..|p| - 1] && e.owner[p] in e.visibility {
      BuiltClosed(i, p);
    }
    forall u | u in e.uses ensures u.0 in e.visibility && u.1 in e.visibility {
      if u in i.plain.uses {
        assert u.0 in i.plain.visibility && u.1 in i.plain.visibility;
      }
    }
  }

  // The projection: uses are moved up, and one that thereby becomes reflexive is lost, unless it was so
  // before.
  ghost function Projected(i: Input, uses: set<(Path, Path)>): set<(Path, Path)>
    requires i.Accepted() && forall u :: u in uses ==> u.0 in i.tested.visibility && u.1 in i.tested.visibility
  {
    set u | u in uses && !(i.Move(u).0 == i.Move(u).1 && i.Move(u) != u) :: i.Move(u)
  }

  // A module uses itself in the plain analysis only, where another use lands.
  ghost predicate LosesSelfUse(i: Input)
    requires i.Accepted()
  {
    exists u, x :: u in i.tested.uses && u.0 in i.Built() && u.1 in i.Built()
      && (x, x) in i.plain.uses && (x, x) !in i.tested.uses && i.Move(u) == (x, x)
  }

  lemma KeptPlain(i: Input, use: (Path, Path))
    requires i.Accepted() && use in i.plain.uses
    ensures use.0 in i.tested.visibility && use.1 in i.tested.visibility && i.Move(use) == use
  {
  }

  // The projection of what is restored stays within the plain uses, up to reflexive ones, and covers them.
  lemma RestoringLands(i: Input)
    requires i.Accepted()
    ensures forall u :: u in i.Restoring().uses ==>
              && u.0 in i.Built() && u.1 in i.Built()
              && (i.Move(u) in i.plain.uses || i.Move(u).0 == i.Move(u).1)
    ensures forall p :: p in i.plain.uses ==> exists u :: u in i.Restoring().uses && i.Move(u) == p
  {
  }

  // Restoring undoes the projection exactly unless it loses a module's use of itself.
  lemma RestoringInverts(i: Input)
    requires i.Accepted()
    ensures forall u :: u in i.Restoring().uses ==> u.0 in i.tested.visibility && u.1 in i.tested.visibility
    ensures Projected(i, i.Restoring().uses) == i.plain.uses <==> !LosesSelfUse(i)
  {
    RestoringLands(i);
    var uses := i.Restoring().uses;
    var back := Projected(i, uses);
    forall p | p in back ensures p in i.plain.uses {
      var u :| u in uses && !(i.Move(u).0 == i.Move(u).1 && i.Move(u) != u) && p == i.Move(u);
      if u in i.plain.uses {
        KeptPlain(i, u);
      }
    }
    forall p | p in i.plain.uses ensures p in back <==> !LostAt(i, p) {
      PlainReturns(i, p);
    }
    if LosesSelfUse(i) {
      var u, x :| u in i.tested.uses && u.0 in i.Built() && u.1 in i.Built()
        && (x, x) in i.plain.uses && (x, x) !in i.tested.uses && i.Move(u) == (x, x);
      assert LostAt(i, (x, x));
    }
  }

  ghost predicate LostAt(i: Input, p: (Path, Path))
    requires i.Accepted()
  {
    && p.0 == p.1 && p !in i.tested.uses
    && exists u :: u in i.tested.uses && u.0 in i.Built() && u.1 in i.Built() && i.Move(u) == p
  }

  lemma PlainReturns(i: Input, p: (Path, Path))
    requires i.Accepted() && p in i.plain.uses
    requires forall u :: u in i.Restoring().uses ==> u.0 in i.tested.visibility && u.1 in i.tested.visibility
    ensures p in Projected(i, i.Restoring().uses) <==> !LostAt(i, p)
  {
    var uses := i.Restoring().uses;
    KeptPlain(i, p);
    assert forall u :: u in i.tested.uses && u.0 in i.Built() && u.1 in i.Built() && i.Move(u) == p ==>
                         u in i.Landing();
    if p !in i.Landed() {
      assert p in uses;
    } else {
      var u :| u in i.Landing() && i.Move(u) == p;
      assert u in uses;
      if p.0 != p.1 {
        assert p in Projected(i, uses);
      } else if p in i.tested.uses {
        assert p in i.Landing() && p in uses;
      }
    }
  }

  // A use moves to the nearest modules, of its ends and those that contain them, that the plain analysis has.
  lemma MoveNearest(i: Input, u: (Path, Path))
    requires i.Valid() && u.0 in i.tested.visibility && u.1 in i.tested.visibility
    ensures Nearest(i.plain, u.0, i.Move(u).0) && Nearest(i.plain, u.1, i.Move(u).1)
  {
    KeptNearest(i.plain, i.tested, i.crate, u.0);
    KeptNearest(i.plain, i.tested, i.crate, u.1);
  }

  ghost predicate Nearest(plain: Export, path: Path, owner: Path) {
    owner <= path && owner in plain.visibility && forall n :: |owner| < n <= |path| ==> path[..n] !in plain.visibility
  }

  lemma {:induction false} KeptNearest(plain: Export, tested: Export, crate: Path, path: Path)
    requires plain.Valid(crate) && tested.Valid(crate) && path in tested.visibility
    ensures Nearest(plain, path, Kept(plain, tested, crate, path))
    decreases |path|
  {
    if path !in plain.visibility {
      var owner := tested.owner[path];
      KeptNearest(plain, tested, crate, owner);
      NearestBelow(plain, path, owner, Kept(plain, tested, crate, owner));
    }
  }

  lemma NearestBelow(plain: Export, path: Path, owner: Path, kept: Path)
    requires |path| > 0 && owner == path[..|path| - 1] && path !in plain.visibility && Nearest(plain, owner, kept)
    ensures Nearest(plain, path, kept)
  {
    forall n | |kept| < n <= |path| ensures path[..n] !in plain.visibility {
      assert n < |path| ==> path[..n] == owner[..n];
      assert n == |path| ==> path[..n] == path;
    }
  }

  // A use of the analysis with tests between modules that build outside them.
  predicate Candidate(i: Input, u: (Path, Path))
    requires i.Accepted()
  {
    u in i.tested.uses && u.0 in i.Built() && u.1 in i.Built()
  }

  // The projection of some uses adds nothing to the plain ones.
  ghost predicate Fits(i: Input, uses: set<(Path, Path)>)
    requires i.Accepted()
  {
    && (forall u :: u in uses ==> u.0 in i.tested.visibility && u.1 in i.tested.visibility)
    && Projected(i, uses) <= i.plain.uses
  }

  // What is restored are the uses of the analysis with tests whose projection adds nothing to the plain uses,
  // and the plain uses that none between modules that build is moved to.
  lemma RestoringExactly(i: Input, u: (Path, Path))
    requires i.Accepted()
    ensures u in i.Restoring().uses <==>
              || (Candidate(i, u) && Fits(i, {u}))
              || (u in i.plain.uses && forall v :: Candidate(i, v) ==> i.Move(v) != u)
  {
    if Candidate(i, u) {
      FitsOne(i, u);
      if u in i.plain.uses {
        KeptPlain(i, u);
      }
    }
    forall v | Candidate(i, v) && i.Move(v) == u && u in i.plain.uses ensures u in i.Landed() {
      assert v in i.Landing();
    }
    if u in i.Landed() {
      var v :| v in i.Landing() && i.Move(v) == u;
      assert Candidate(i, v);
    }
  }

  lemma FitsOne(i: Input, u: (Path, Path))
    requires i.Accepted() && Candidate(i, u)
    ensures Fits(i, {u}) <==> i.Lands(u)
  {
    var back := Projected(i, {u});
    assert forall p :: p in back ==> p == i.Move(u);
    if !(i.Move(u).0 == i.Move(u).1 && i.Move(u) != u) {
      assert u in {u} && i.Move(u) in back;
    }
  }

  // They are the most that there can be: what is restored adds nothing, no further use can join it without
  // adding something, and every set of such uses that adds nothing is in it.
  lemma RestoringLargest(i: Input)
    requires i.Accepted()
    ensures Fits(i, i.Restoring().uses)
    ensures forall u :: Candidate(i, u) ==> (u in i.Restoring().uses <==> Fits(i, i.Restoring().uses + {u}))
    ensures forall uses: set<(Path, Path)> ::
              (forall u :: u in uses ==> Candidate(i, u)) && Fits(i, uses) ==> uses <= i.Restoring().uses
  {
    var all := i.Restoring().uses;
    RestoringFits(i);
    forall u | Candidate(i, u) ensures u in all <==> Fits(i, all + {u}) {
      RestoringExactly(i, u);
      if u in all {
        assert all + {u} == all;
      } else if Fits(i, all + {u}) {
        FitsPart(i, all + {u}, u);
      }
    }
    forall uses: set<(Path, Path)> | (forall u :: u in uses ==> Candidate(i, u)) && Fits(i, uses)
      ensures uses <= all
    {
      forall u | u in uses ensures u in all {
        FitsPart(i, uses, u);
        RestoringExactly(i, u);
      }
    }
  }

  lemma FitsPart(i: Input, uses: set<(Path, Path)>, u: (Path, Path))
    requires i.Accepted() && Fits(i, uses) && u in uses
    ensures Fits(i, {u})
  {
    forall p | p in Projected(i, {u}) ensures p in Projected(i, uses) {
    }
  }

  lemma RestoringFits(i: Input)
    requires i.Accepted()
    ensures Fits(i, i.Restoring().uses)
  {
    RestoringLands(i);
    var uses := i.Restoring().uses;
    forall p | p in Projected(i, uses) ensures p in i.plain.uses {
      var u :| u in uses && !(i.Move(u).0 == i.Move(u).1 && i.Move(u) != u) && p == i.Move(u);
      if u in i.plain.uses {
        KeptPlain(i, u);
      }
    }
  }

  // Some modules of the analysis with tests, with the modules that contain them, none of which has test among
  // its conditions.
  ghost predicate Untested(i: Input, modules: set<Path>)
    requires i.Valid() && i.found.Keys == i.tested.visibility.Keys
  {
    forall p :: p in modules ==>
      && p in i.tested.visibility && "test" !in i.found[p]
      && (p != i.crate ==> i.tested.owner[p] in modules)
  }

  // What is restored are the most of those, with the visibility and the owners that the analysis with tests has.
  lemma RestoringModules(i: Input)
    requires i.Accepted()
    ensures var e := i.Restoring();
      && Untested(i, e.visibility.Keys) && (forall modules :: Untested(i, modules) ==> modules <= e.visibility.Keys)
      && (forall p :: p in e.visibility ==> e.visibility[p] == i.tested.visibility[p])
      && e.owner.Keys == e.visibility.Keys - {i.crate}
      && (forall p :: p in e.owner ==> e.owner[p] == i.tested.owner[p])
  {
    var built := i.Restoring().visibility.Keys;
    assert built == i.Built();
    forall p | p in built
      ensures "test" !in i.found[p] && (p != i.crate ==> i.tested.owner[p] in built)
    {
      Ancestors(i.tested, i.crate, p);
      assert p[..|p|] == p;
      if p != i.crate {
        BuiltClosed(i, p);
      }
    }
    forall modules: set<Path> | Untested(i, modules) ensures modules <= built {
      forall p | p in modules ensures p in built {
        UntestedBuilt(i, modules, p);
      }
    }
  }

  lemma {:induction false} UntestedBuilt(i: Input, modules: set<Path>, p: Path)
    requires i.Accepted() && Untested(i, modules) && p in modules
    ensures p in i.Built()
    decreases |p|
  {
    Ancestors(i.tested, i.crate, p);
    assert p[..|p|] == p;
    if p != i.crate {
      var owner := i.tested.owner[p];
      UntestedBuilt(i, modules, owner);
      Ancestors(i.tested, i.crate, owner);
      assert forall n :: 1 <= n <= |owner| ==> owner[..n] == p[..n];
    }
  }

  // A crate that uses itself outside tests only, and a module of it, which only its analysis with tests
  // has, that uses it.
  const CRATE: Path := ["crate"]
  const MODULE: Path := ["crate", "a"]
  const LOSING := Input(
    Export(map[CRATE := "pub"], map[], {(CRATE, CRATE)}),
    Export(map[CRATE := "pub", MODULE := "pub"], map[MODULE := CRATE], {(MODULE, CRATE)}),
    map[CRATE := [], MODULE := []], CRATE, _ => false)

  // Restoring it loses the use.
  lemma SelfUseLost()
    ensures LOSING.Accepted() && LosesSelfUse(LOSING)
    ensures LOSING.Restoring().uses == {(MODULE, CRATE)}
  {
    assert MODULE[..1] == CRATE && MODULE[..2] == MODULE && CRATE[..1] == CRATE;
    assert |MODULE| == 2 && MODULE != CRATE;
    assert LOSING.Valid();
    assert forall p :: p in LOSING.tested.visibility ==> !LOSING.Test(p);
    assert LOSING.Built() == {CRATE, MODULE};
    assert LOSING.Move((MODULE, CRATE)) == (CRATE, CRATE);
    assert (CRATE, CRATE) in LOSING.plain.uses && (CRATE, CRATE) !in LOSING.tested.uses;
    assert LOSING.Landing() == {(MODULE, CRATE)};
    assert LOSING.Landed() == {(CRATE, CRATE)};
  }
}
