/** Conditions in disjunctive form: a set of ways, each a set of predicates, with redundant ways left
    out. */
module Conditions {
  // The minimal ways.
  function Reduced<P(==)>(ways: set<set<P>>): set<set<P>> {
    set way | way in ways && !(exists other :: other in ways && other < way)
  }

  // What conditions become when each way of them needs further predicates.
  function Within<P(==)>(conditions: set<set<P>>, added: set<P>): set<set<P>> {
    Reduced(set way | way in conditions :: way + added)
  }

  // The code compiles where all the predicates of one way hold.
  ghost predicate Compiles<P>(ways: set<set<P>>, holds: P -> bool) {
    exists way :: way in ways && AllHold(way, holds)
  }

  ghost predicate AllHold<P>(way: set<P>, holds: P -> bool) {
    forall p :: p in way ==> holds(p)
  }

  ghost predicate Antichain<P>(ways: set<set<P>>) {
    forall a, b :: a in ways && b in ways ==> !(a < b)
  }

  ghost predicate SameMeaning<P(!new)>(a: set<set<P>>, b: set<set<P>>) {
    forall holds: P -> bool :: Compiles(a, holds) <==> Compiles(b, holds)
  }

  lemma SmallerSet<P>(a: set<P>, b: set<P>)
    requires a < b
    ensures |a| < |b|
  {
    var rest := b - a;
    assert b == a + rest && a !! rest;
    assert rest != {};
  }

  // A minimal way is at or below each.
  lemma {:induction false} BelowReduced<P>(ways: set<set<P>>, way: set<P>) returns (least: set<P>)
    requires way in ways
    ensures least in Reduced(ways) && least <= way
    decreases |way|
  {
    if exists other :: other in ways && other < way {
      var other :| other in ways && other < way;
      SmallerSet(other, way);
      least := BelowReduced(ways, other);
    } else {
      least := way;
    }
  }

  // Reducing keeps what the ways mean and leaves none below another.
  lemma ReducedMeans<P(!new)>(ways: set<set<P>>)
    ensures SameMeaning(Reduced(ways), ways) && Antichain(Reduced(ways))
  {
    forall holds: P -> bool ensures Compiles(Reduced(ways), holds) <==> Compiles(ways, holds) {
      if Compiles(ways, holds) {
        var way :| way in ways && AllHold(way, holds);
        var least := BelowReduced(ways, way);
        assert AllHold(least, holds);
      }
    }
  }

  // Where two sets of ways mean the same, a way of one is at or above one of the other.
  lemma Covered<P(!new)>(a: set<set<P>>, b: set<set<P>>, way: set<P>) returns (other: set<P>)
    requires SameMeaning(a, b) && way in a
    ensures other in b && other <= way
  {
    var holds: P -> bool := p => p in way;
    assert AllHold(way, holds);
    assert Compiles(a, holds);
    other :| other in b && AllHold(other, holds);
  }

  lemma AntichainWithin<P(!new)>(a: set<set<P>>, b: set<set<P>>)
    requires SameMeaning(a, b) && Antichain(a)
    ensures a <= b
  {
    forall way | way in a ensures way in b {
      var other := Covered(a, b, way);
      var third := Covered(b, a, other);
      assert third <= other <= way && !(third < way);
      assert third == way == other;
    }
  }

  // Reducing is canonical: it gives the same exactly for ways that mean the same.
  lemma ReducedCanonical<P(!new)>(a: set<set<P>>, b: set<set<P>>)
    ensures Reduced(a) == Reduced(b) <==> SameMeaning(a, b)
  {
    ReducedMeans(a);
    ReducedMeans(b);
    if SameMeaning(a, b) {
      assert SameMeaning(Reduced(a), Reduced(b)) by {
        forall holds: P -> bool ensures Compiles(Reduced(a), holds) <==> Compiles(Reduced(b), holds) {
          assert Compiles(a, holds) <==> Compiles(b, holds);
        }
      }
      AntichainWithin(Reduced(a), Reduced(b));
      AntichainWithin(Reduced(b), Reduced(a));
    }
    if Reduced(a) == Reduced(b) {
      forall holds: P -> bool ensures Compiles(a, holds) <==> Compiles(b, holds) {
        assert Compiles(Reduced(a), holds) <==> Compiles(a, holds);
        assert Compiles(Reduced(b), holds) <==> Compiles(b, holds);
      }
    }
  }

  lemma WithinMeans<P(!new)>(conditions: set<set<P>>, added: set<P>, holds: P -> bool)
    ensures Compiles(Within(conditions, added), holds)
            <==> Compiles(conditions, holds) && AllHold(added, holds)
  {
    var ways := set way | way in conditions :: way + added;
    ReducedMeans(ways);
    assert Compiles(Within(conditions, added), holds) <==> Compiles(ways, holds);
    if Compiles(ways, holds) {
      var sum :| sum in ways && AllHold(sum, holds);
      var way :| way in conditions && sum == way + added;
      assert AllHold(way, holds) && AllHold(added, holds);
    }
    if Compiles(conditions, holds) && AllHold(added, holds) {
      var way :| way in conditions && AllHold(way, holds);
      assert way + added in ways && AllHold(way + added, holds);
    }
  }

  // Holding within one holder and then another is holding within both.
  lemma WithinWithin<P(!new)>(conditions: set<set<P>>, p: set<P>, q: set<P>)
    ensures Within(Within(conditions, p), q) == Within(conditions, p + q)
  {
    var a := set way | way in Within(conditions, p) :: way + q;
    var b := set way | way in conditions :: way + (p + q);
    ReducedCanonical(a, b);
    forall holds: P -> bool ensures Compiles(a, holds) <==> Compiles(b, holds) {
      ReducedMeans(a);
      ReducedMeans(b);
      WithinMeans(conditions, p, holds);
      WithinMeans(Within(conditions, p), q, holds);
      WithinMeans(conditions, p + q, holds);
      assert Compiles(a, holds) <==> Compiles(Reduced(a), holds);
      assert Compiles(b, holds) <==> Compiles(Reduced(b), holds);
      assert AllHold(p + q, holds) <==> AllHold(p, holds) && AllHold(q, holds);
    }
  }
}
