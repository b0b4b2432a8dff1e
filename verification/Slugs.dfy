/** The anchors of headings, whose repeated slugs are numbered. */
module Slugs {
  // A number in decimal.
  function Decimal(n: nat): (s: string)
    ensures s != []
  {
    var digit := [(n % 10 + 48) as char];
    if n < 10 then digit else Decimal(n / 10) + digit
  }

  lemma {:induction false} DecimalInjective(m: nat, n: nat)
    requires Decimal(m) == Decimal(n)
    ensures m == n
    decreases m
  {
    var a, b := Decimal(m), Decimal(n);
    assert a[|a| - 1] == (m % 10 + 48) as char && b[|b| - 1] == (n % 10 + 48) as char;
    assert (m % 10 + 48) as char as int == m % 10 + 48 && (n % 10 + 48) as char as int == n % 10 + 48;
    if m >= 10 && n >= 10 {
      assert Decimal(m / 10) == a[..|a| - 1] == b[..|b| - 1] == Decimal(n / 10);
      DecimalInjective(m / 10, n / 10);
    } else {
      assert m < 10 <==> |a| == 1;
      assert n < 10 <==> |b| == 1;
    }
  }

  function Numbered(slug: string, n: nat): string {
    slug + "-" + Decimal(n)
  }

  lemma NumberedInjective(slug: string, m: nat, n: nat)
    requires Numbered(slug, m) == Numbered(slug, n)
    ensures m == n
  {
    assert Decimal(m) == Numbered(slug, m)[|slug| + 1..];
    assert Decimal(n) == Numbered(slug, n)[|slug| + 1..];
    DecimalInjective(m, n);
  }

  // The anchor of a slug: itself, or its first number, that is not taken.
  ghost predicate FirstFree(slug: string, taken: set<string>, anchor: string) {
    && anchor !in taken
    && (anchor == slug
        || (slug in taken
            && exists n :: n >= 1 && anchor == Numbered(slug, n)
                 && forall k :: 1 <= k < n ==> Numbered(slug, k) in taken))
  }

  // Every number up to the count of a slug is taken.
  ghost predicate Counted(occurrences: map<string, nat>) {
    forall slug, k {:trigger Numbered(slug, k)} :: slug in occurrences && 1 <= k <= occurrences[slug] ==> Numbered(slug, k) in occurrences
  }

  function Numbers(slug: string, n: nat): set<string> {
    if n == 0 then {} else Numbers(slug, n - 1) + {Numbered(slug, n)}
  }

  // A slug that is taken was tried with the numbers up to one that may be free.
  ghost predicate Trying(slug: string, before: map<string, nat>, tried: nat, anchor: string, occurrences: map<string, nat>) {
    && (forall k :: 1 <= k <= tried ==> Numbered(slug, k) in before)
    && (if anchor == slug
        then occurrences == before && (slug in before ==> tried == before[slug])
        else slug in before && anchor == Numbered(slug, tried + 1) && occurrences == before[slug := tried + 1])
  }

  lemma TryNext(slug: string, before: map<string, nat>, tried: nat, anchor: string, occurrences: map<string, nat>)
    requires Trying(slug, before, tried, anchor, occurrences) && anchor in occurrences
    ensures slug in occurrences && occurrences[slug] == if anchor == slug then tried else tried + 1
    ensures
      var n := occurrences[slug] + 1;
      Numbered(slug, n) != slug && Trying(slug, before, n - 1, Numbered(slug, n), occurrences[slug := n])
  {
  }

  lemma TryDone(slug: string, before: map<string, nat>, tried: nat, anchor: string, occurrences: map<string, nat>)
    requires Counted(before) && Trying(slug, before, tried, anchor, occurrences) && anchor !in occurrences
    ensures FirstFree(slug, before.Keys, anchor)
    ensures Counted(occurrences[anchor := 0]) && occurrences[anchor := 0].Keys == before.Keys + {anchor}
  {
  }

  // Numbers a slug until it is free, which takes no more steps than there are anchors.
  method Number(slug: string, before: map<string, nat>) returns (anchor: string, occurrences: map<string, nat>)
    requires Counted(before)
    ensures FirstFree(slug, before.Keys, anchor)
    ensures Counted(occurrences) && occurrences.Keys == before.Keys + {anchor}
  {
    anchor, occurrences := slug, before;
    ghost var tried := if slug in before then before[slug] else 0;
    while anchor in occurrences
      invariant Trying(slug, before, tried, anchor, occurrences)
      decreases Untried(slug, tried, before.Keys), anchor == slug
    {
      TryNext(slug, before, tried, anchor, occurrences);
      if anchor != slug {
        UntriedLess(slug, tried, before.Keys);
      }
      var n := occurrences[slug] + 1;
      occurrences := occurrences[slug := n];
      anchor := Numbered(slug, n);
      tried := n - 1;
    }
    TryDone(slug, before, tried, anchor, occurrences);
    occurrences := occurrences[anchor := 0];
  }

  // How many anchors are left that a further number may meet.
  ghost function Untried(slug: string, n: nat, keys: set<string>): nat {
    |keys - Numbers(slug, n)|
  }

  lemma UntriedLess(slug: string, n: nat, keys: set<string>)
    requires Numbered(slug, n + 1) in keys
    ensures Untried(slug, n + 1, keys) < Untried(slug, n, keys)
  {
    NumbersApart(slug, n + 1, n);
    var next := Numbered(slug, n + 1);
    assert keys - Numbers(slug, n) == (keys - Numbers(slug, n + 1)) + {next};
  }

  lemma {:induction false} NumbersApart(slug: string, m: nat, n: nat)
    requires n < m
    ensures Numbered(slug, m) !in Numbers(slug, n)
  {
    if n > 0 {
      NumbersApart(slug, m, n - 1);
      if Numbered(slug, m) == Numbered(slug, n) {
        NumberedInjective(slug, m, n);
      }
    }
  }

  function Elements(s: seq<string>): set<string> {
    set a | a in s
  }

  // The headings that have text.
  function Texts(headings: seq<string>): seq<string> {
    if headings == [] then []
    else Texts(headings[..|headings| - 1])
         + if headings[|headings| - 1] == "" then [] else [headings[|headings| - 1]]
  }

  // Each anchor is the first of its slug that is free after those before it.
  ghost predicate Assigned(texts: seq<string>, slug: string -> string, anchors: seq<string>) {
    && |anchors| == |texts|
    && forall i :: 0 <= i < |anchors| ==> FirstFree(slug(texts[i]), Elements(anchors[..i]), anchors[i])
  }

  lemma AssignedMore(texts: seq<string>, slug: string -> string, anchors: seq<string>, text: string, anchor: string)
    requires Assigned(texts, slug, anchors) && FirstFree(slug(text), Elements(anchors), anchor)
    ensures Assigned(texts + [text], slug, anchors + [anchor])
    ensures Elements(anchors + [anchor]) == Elements(anchors) + {anchor}
  {
    var more := anchors + [anchor];
    forall i | 0 <= i < |more| ensures FirstFree(slug((texts + [text])[i]), Elements(more[..i]), more[i]) {
      if i < |anchors| {
        assert more[..i] == anchors[..i];
      } else {
        assert more[..i] == anchors;
      }
    }
  }

  lemma AssignedApart(texts: seq<string>, slug: string -> string, anchors: seq<string>)
    requires Assigned(texts, slug, anchors)
    ensures forall i, j :: 0 <= i < j < |anchors| ==> anchors[i] != anchors[j]
  {
  }

  // The anchors of headings, whose slugs a function gives, of which no two are alike.
  method Anchors(headings: seq<string>, slug: string -> string) returns (anchors: seq<string>)
    ensures Assigned(Texts(headings), slug, anchors)
    ensures forall i, j :: 0 <= i < j < |anchors| ==> anchors[i] != anchors[j]
  {
    anchors := [];
    var occurrences: map<string, nat> := map[];
    for n := 0 to |headings|
      invariant Counted(occurrences) && occurrences.Keys == Elements(anchors)
      invariant Assigned(Texts(headings[..n]), slug, anchors)
    {
      assert headings[..n + 1][..n] == headings[..n];
      if headings[n] == "" {
        continue;
      }
      var anchor;
      anchor, occurrences := Number(slug(headings[n]), occurrences);
      AssignedMore(Texts(headings[..n]), slug, anchors, headings[n], anchor);
      anchors := anchors + [anchor];
    }
    assert headings[..|headings|] == headings;
    AssignedApart(Texts(headings), slug, anchors);
  }
}
