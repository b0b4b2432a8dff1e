/** Rendering a text: the pieces that its items leave, and the tags of those. */
module InlineTokens {
  import opened Tags
  import opened EmphasisLaws
  import I = InlineItems
  import Inline
  import opened InlineRender

  // How plain text between two offsets splits into text and runs of delimiters, and what an item other than a
  // link renders: text and, if it is raw HTML, tags.
  datatype Scanner = Scanner(plain: (int, int) -> seq<Piece>, shown: I.Item -> seq<Piece>)
  {
    ghost predicate Valid() {
      && (forall a, b, i :: 0 <= i < |plain(a, b)| ==>
            plain(a, b)[i].Plain? || (plain(a, b)[i].Delimiters? && plain(a, b)[i].run.Fresh()))
      && (forall x, i :: 0 <= i < |shown(x)| ==>
            shown(x)[i].Plain? || (shown(x)[i].Html? && shown(x)[i].token.Raw? && x.kind == I.Atom))
    }
  }

  // The pieces between two offsets.
  function Build(scanner: Scanner, items: seq<I.Item>, k: nat, index: nat, end: nat): seq<Piece>
    requires Sorted(items) && k <= |items|
    decreases if index <= end then end - index else 0, |items| - k
  {
    if k == |items| then scanner.plain(index, end)
    else
      var x := items[k];
      if x.start < index || x.end > end then Build(scanner, items, k + 1, index, end)
      else
        scanner.plain(index, x.Begin())
        + Own(scanner, x, if x.kind == I.Link then Build(scanner, items, 0, x.start + 1, x.close) else [])
        + Build(scanner, items, k + 1, x.end, end)
  }

  // What an item renders: a link around its text, an image nothing, and any other its text and tags.
  function Own(scanner: Scanner, x: I.Item, inner: seq<Piece>): seq<Piece> {
    match x.kind
    case Link => [Piece.Link(inner)]
    case Image => []
    case _ => scanner.shown(x)
  }

  lemma {:induction false} BuildScanned(scanner: Scanner, items: seq<I.Item>, k: nat, index: nat, end: nat)
    requires scanner.Valid() && Sorted(items) && k <= |items|
    ensures Scanned(Build(scanner, items, k, index, end))
    decreases if index <= end then end - index else 0, |items| - k
  {
    if k < |items| {
      var x := items[k];
      if x.start < index || x.end > end {
        BuildScanned(scanner, items, k + 1, index, end);
      } else {
        var inner := if x.kind == I.Link then Build(scanner, items, 0, x.start + 1, x.close) else [];
        if x.kind == I.Link {
          BuildScanned(scanner, items, 0, x.start + 1, x.close);
        }
        BuildScanned(scanner, items, k + 1, x.end, end);
        PlainScanned(scanner, index, x.Begin());
        OwnScanned(scanner, x, inner);
        ScannedConcat(scanner.plain(index, x.Begin()), Own(scanner, x, inner));
        ScannedConcat(scanner.plain(index, x.Begin()) + Own(scanner, x, inner), Build(scanner, items, k + 1, x.end, end));
      }
    } else {
      PlainScanned(scanner, index, end);
    }
  }

  lemma PlainScanned(scanner: Scanner, a: int, b: int)
    requires scanner.Valid()
    ensures Scanned(scanner.plain(a, b)) && Links(scanner.plain(a, b)) == 0
  {
    NoLinks(scanner.plain(a, b));
  }

  lemma OwnScanned(scanner: Scanner, x: I.Item, inner: seq<Piece>)
    requires scanner.Valid() && Scanned(inner)
    ensures Scanned(Own(scanner, x, inner))
  {
  }

  lemma ScannedConcat(a: seq<Piece>, b: seq<Piece>)
    requires Scanned(a) && Scanned(b)
    ensures Scanned(a + b)
  {
  }

  // How many links there are among the pieces, at any depth.
  function Links(pieces: seq<Piece>): nat {
    if pieces == [] then 0
    else (match pieces[0] case Link(inner) => 1 + Links(inner) case _ => 0) + Links(pieces[1..])
  }

  lemma {:induction false} NoLinks(pieces: seq<Piece>)
    requires forall i :: 0 <= i < |pieces| ==> !pieces[i].Link?
    ensures Links(pieces) == 0
  {
    if pieces != [] {
      NoLinks(pieces[1..]);
    }
  }

  lemma {:induction false} LinksConcat(a: seq<Piece>, b: seq<Piece>)
    ensures Links(a + b) == Links(a) + Links(b)
  {
    if a == [] {
      assert a + b == b;
    } else {
      assert (a + b)[1..] == a[1..] + b;
      LinksConcat(a[1..], b);
    }
  }

  function LinkItems(items: seq<I.Item>): nat {
    if items == [] then 0 else (if items[0].kind == I.Link then 1 else 0) + LinkItems(items[1..])
  }

  lemma {:induction false} LinkItemsConcat(a: seq<I.Item>, b: seq<I.Item>)
    ensures LinkItems(a + b) == LinkItems(a) + LinkItems(b)
  {
    if a == [] {
      assert a + b == b;
    } else {
      assert (a + b)[1..] == a[1..] + b;
      LinkItemsConcat(a[1..], b);
    }
  }

  // The links among the pieces are those that the traversal reaches.
  lemma {:induction false} BuildLinks(scanner: Scanner, items: seq<I.Item>, k: nat, index: nat, end: nat)
    requires scanner.Valid() && Sorted(items) && k <= |items|
    ensures Links(Build(scanner, items, k, index, end)) == LinkItems(Visit(items, k, index, end))
    decreases if index <= end then end - index else 0, |items| - k
  {
    if k < |items| {
      var x := items[k];
      if x.start < index || x.end > end {
        BuildLinks(scanner, items, k + 1, index, end);
      } else {
        var inner := if x.kind == I.Link then Build(scanner, items, 0, x.start + 1, x.close) else [];
        var within := if x.kind == I.Link then Visit(items, 0, x.start + 1, x.close) else [];
        if x.kind == I.Link {
          BuildLinks(scanner, items, 0, x.start + 1, x.close);
        }
        BuildLinks(scanner, items, k + 1, x.end, end);
        OwnLinks(scanner, x, inner);
        StepLinks(scanner, x, index, inner, Build(scanner, items, k + 1, x.end, end), within, Visit(items, k + 1, x.end, end));
      }
    } else {
      PlainScanned(scanner, index, end);
    }
  }

  lemma StepLinks(
    scanner: Scanner, x: I.Item, index: nat, inner: seq<Piece>, rest: seq<Piece>, within: seq<I.Item>, after: seq<I.Item>)
    requires scanner.Valid() && Links(rest) == LinkItems(after)
    requires Links(Own(scanner, x, inner)) == (if x.kind == I.Link then 1 else 0) + LinkItems(within)
    ensures Links(scanner.plain(index, x.Begin()) + Own(scanner, x, inner) + rest) == LinkItems([x] + within + after)
  {
    var plain, own := scanner.plain(index, x.Begin()), Own(scanner, x, inner);
    PlainScanned(scanner, index, x.Begin());
    LinksConcat(plain, own);
    LinksConcat(plain + own, rest);
    LinkItemsConcat([x], within);
    LinkItemsConcat([x] + within, after);
  }

  lemma OwnLinks(scanner: Scanner, x: I.Item, inner: seq<Piece>)
    requires scanner.Valid()
    ensures Links(Own(scanner, x, inner)) == if x.kind == I.Link then 1 + Links(inner) else 0
  {
    if x.kind != I.Link && x.kind != I.Image {
      NoLinks(scanner.shown(x));
    }
  }

  // Renders a text: for any lawful lexis and scanner, the tags but those of raw HTML nest, and each link that is
  // shown is around its text once.
  method RenderText(text: string, lexis: I.Lexis, scanner: Scanner)
      returns (found: seq<I.Item>, pieces: seq<Piece>, tokens: seq<Token>)
    requires I.Lawful(text, lexis) && scanner.Valid()
    ensures Nested(tokens) && Scanned(pieces) && tokens == Render(pieces)
    ensures Bare(tokens) == Said(pieces)
    ensures I.Laminar(found) && Sorted(ByStart(found))
    ensures Links(pieces) == LinkItems(Visit(ByStart(found), 0, 0, |text|))
    ensures forall x :: x in Visit(ByStart(found), 0, 0, |text|) <==> x in found && Shown(found, x)
  {
    ghost var marks;
    found, marks := Inline.Parse(text, lexis);
    RenderReachesAll(found, |text|);
    var items := ByStart(found);
    pieces := Build(scanner, items, 0, 0, |text|);
    BuildScanned(scanner, items, 0, 0, |text|);
    BuildLinks(scanner, items, 0, 0, |text|);
    tokens := Render(pieces);
    RenderNests(pieces);
    RenderSays(pieces);
  }
}
