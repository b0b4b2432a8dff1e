/** Finding the links, images, citations, and atomic items of inline content left to right, with the
    stack of open brackets that sections 6.6 and 6.7 of the GitHub Flavored Markdown spec describe. */
module Inline {
  import opened Options
  import opened InlineItems
  import opened InlineMarks
  import opened InlineTrace

  // The items from the opener's count on are those after its bracket, and no link is among them
  // while it may become one.
  ghost predicate Opens(found: seq<Item>, opener: Opener) {
    && opener.before <= |found|
    && (forall i :: 0 <= i < opener.before ==> found[i].end <= opener.Begin())
    && (forall i :: opener.before <= i < |found| ==> opener.at < found[i].Begin())
    && (opener.active && !opener.image ==>
          forall i :: opener.before <= i < |found| ==> found[i].kind != Link)
  }

  ghost predicate Nested(openers: seq<Opener>) {
    forall i, j :: 0 <= i < j < |openers| ==>
      openers[i].at < openers[j].Begin() && openers[i].before <= openers[j].before
  }

  ghost predicate Valid(found: seq<Item>, openers: seq<Opener>, index: nat) {
    && Laminar(found)
    && (forall i :: 0 <= i < |found| ==> found[i].end <= index)
    && (forall k :: 0 <= k < |openers| ==> openers[k].at < index && Opens(found, openers[k]))
    && Nested(openers)
  }

  lemma AtomValid(found: seq<Item>, openers: seq<Opener>, index: nat, item: Item, next: nat)
    requires Valid(found, openers, index) && Formed(item)
    requires item.kind == Code || item.kind == Atom
    requires forall i :: 0 <= i < |found| ==> found[i].end <= item.start
    requires forall k :: 0 <= k < |openers| ==> openers[k].at < item.start
    requires item.end <= next && index <= next
    ensures Valid(found + [item], openers, next)
  {
  }

  lemma CiteValid(found: seq<Item>, openers: seq<Opener>, index: nat)
    requires Valid(found, openers, index) && openers != []
    requires !openers[|openers| - 1].image
    ensures var o := openers[|openers| - 1];
            Valid(found + [Item(Footnote, o.at, index, index + 1)], openers[..|openers| - 1], index + 1)
  {
  }

  lemma ImageValid(found: seq<Item>, openers: seq<Opener>, index: nat, end: nat)
    requires Valid(found, openers, index) && openers != [] && index < end
    requires openers[|openers| - 1].image
    ensures var o := openers[|openers| - 1];
            Valid(found[..o.before] + [Item(Image, o.at, index, end)], openers[..|openers| - 1], end)
  {
  }

  lemma LinkValid(found: seq<Item>, openers: seq<Opener>, index: nat, end: nat)
    requires Valid(found, openers, index) && openers != [] && index < end
    requires !openers[|openers| - 1].image && openers[|openers| - 1].active
    ensures var o := openers[|openers| - 1];
            Valid(found + [Item(Link, o.at, index, end)],
                  Deactivated(openers[..|openers| - 1]), end)
  {
  }

  // Each item ends with punctuation or is a bare URL from before index.
  ghost predicate Ended(text: string, lexis: Lexis, found: seq<Item>, index: nat) {
    forall i :: 0 <= i < |found| ==>
      && 0 < found[i].end <= |text|
      && (!Letter(text[found[i].end - 1])
          || exists k :: 0 <= k < index && k < |text|
                         && lexis.bare(k).Some? && lexis.bare(k).value.1 == found[i].end)
  }

  lemma BareAfter(text: string, lexis: Lexis, found: seq<Item>, index: nat)
    requires Lawful(text, lexis) && index < |text| && lexis.bare(index).Some?
    requires Ended(text, lexis, found, index)
    requires forall i :: 0 <= i < |found| ==> found[i].end <= index
    ensures forall i :: 0 <= i < |found| ==> found[i].end <= lexis.bare(index).value.0
  {
  }

  // What makes an item one.
  ghost predicate Justified(text: string, lexis: Lexis, x: Item) {
    && Formed(x) && x.end <= |text|
    && match x.kind
       case Link => x.close < x.end && text[x.start] == '[' && text[x.close] == ']' && Ends(lexis, x)
       case Image =>
         && x.close < x.end && x.start > 0 && text[x.start - 1] == '!' && text[x.start] == '['
         && text[x.close] == ']' && Ends(lexis, x)
       case Footnote =>
         && x.close < x.end && text[x.start] == '[' && text[x.close] == ']'
         && lexis.cites(x.start, x.close)
       case Code =>
         && TicksEnd(text, x.start) < x.close && TicksEnd(text, x.close) == x.end
         && x.end - x.close == TicksEnd(text, x.start) - x.start > 0
       case Atom => true
  }

  // How many brackets more open than close between a bracket and an offset after it.
  function Depth(text: string, open: nat, until: nat): int
    requires open < until <= |text|
  {
    if open + 1 == until then 0
    else Depth(text, open, until - 1)
         + (if text[until - 1] == '[' then 1 else if text[until - 1] == ']' then -1 else 0)
  }

  // Two brackets that form a link, around plain text in which brackets pair and no two form a link.
  ghost predicate Plain(text: string, lexis: Lexis, x: Item) {
    && x.kind == Link && x.start < x.close < |text|
    && text[x.start] == '[' && text[x.close] == ']'
    && (forall k :: x.start < k < x.close ==> text[k] !in "\\`<!")
    && (forall k :: x.start < k <= x.close ==> Depth(text, x.start, k) >= 0)
    && Depth(text, x.start, x.close) == 0
    && (forall o, c :: x.start < o < c < x.close && text[o] == '[' && text[c] == ']' ==> lexis.linkEnd(o, c).None?)
    && (x.start > 0 ==> text[x.start - 1] != '\\' && text[x.start - 1] != '!')
    && Ends(lexis, x)
  }

  // The item hides the link, since it renders nothing at the link's bracket but itself.
  ghost predicate Hides(y: Item, x: Item) {
    y.start < x.start < y.end && ((y.kind == Link || y.kind == Footnote) ==> y.close <= x.start)
  }

  // The link is found or hidden,
  ghost predicate Settled(found: seq<Item>, x: Item) {
    x in found || exists y :: y in found && Hides(y, x)
  }

  // or still to come, or open, under the brackets that are open in its text.
  ghost predicate Noticed(text: string, found: seq<Item>, openers: seq<Opener>, index: nat, x: Item)
    requires index <= |text|
  {
    || Settled(found, x)
    || index <= x.start
    || (index <= x.close && Open(openers, |openers| - 1 - Depth(text, x.start, index), x))
  }

  ghost predicate Open(openers: seq<Opener>, k: int, x: Item) {
    0 <= k < |openers| && openers[k].at == x.start && !openers[k].image && openers[k].active
  }

  ghost predicate Complete(
      text: string, lexis: Lexis, found: seq<Item>, openers: seq<Opener>, index: nat)
    requires index <= |text|
  {
    forall x :: Plain(text, lexis, x) ==> Noticed(text, found, openers, index, x)
  }

  // What every turn keeps,
  ghost predicate Fit(
      text: string, lexis: Lexis, found: seq<Item>, openers: seq<Opener>, index: nat) {
    && index <= |text|
    && Valid(found, openers, index)
    && Ended(text, lexis, found, index)
    && (forall i :: 0 <= i < |found| ==> Justified(text, lexis, found[i]))
    && (forall k :: 0 <= k < |openers| ==>
          && text[openers[k].at] == '['
          && (openers[k].image ==> openers[k].at > 0 && text[openers[k].at - 1] == '!'))
    && Complete(text, lexis, found, openers, index)
  }

  // at an index.
  ghost predicate Good(
      text: string, lexis: Lexis, found: seq<Item>, openers: seq<Opener>, index: nat) {
    && index <= |text|
    && forall n {:trigger Fit(text, lexis, found, openers, n)} :: n == index ==> Fit(text, lexis, found, openers, n)
  }

  // An ordinary character passes,
  lemma CompletePlain(text: string, lexis: Lexis, found: seq<Item>, openers: seq<Opener>, index: nat)
    requires index < |text| && Complete(text, lexis, found, openers, index)
    requires text[index] != '[' && (text[index] == ']' ==> openers == [])
    ensures Complete(text, lexis, found, openers, index + 1)
  {
    forall x | Plain(text, lexis, x) ensures Noticed(text, found, openers, index + 1, x) {
      assert Noticed(text, found, openers, index, x);
    }
  }

  // as do an escape, an image's brackets, and a run of backticks, which plain text does not hold.
  lemma CompleteSpecial(text: string, lexis: Lexis, found: seq<Item>, openers: seq<Opener>,
                        index: nat, next: nat, more: seq<Opener>)
    requires index < next <= |text| && Complete(text, lexis, found, openers, index)
    requires text[index] in "\\`!"
    requires forall k :: index < k < next && text[k] == '[' ==> text[k - 1] in "\\!"
    ensures Complete(text, lexis, found, more, next)
  {
    forall x | Plain(text, lexis, x) ensures Noticed(text, found, more, next, x) {
      assert Noticed(text, found, openers, index, x);
    }
  }

  lemma CompleteAtom(text: string, lexis: Lexis, found: seq<Item>, openers: seq<Opener>,
                     index: nat, item: Item)
    requires item.start <= index < item.end <= |text| && Complete(text, lexis, found, openers, index)
    requires text[index] != '[' && (openers != [] ==> text[index] in "`<")
    requires item.kind == Code || item.kind == Atom
    ensures Complete(text, lexis, found + [item], openers, item.end)
  {
    forall x | Plain(text, lexis, x) ensures Noticed(text, found + [item], openers, item.end, x) {
      assert Noticed(text, found, openers, index, x);
      if Settled(found, x) {
        SettledMore(found, found + [item], x);
      } else if index < x.start < item.end {
        assert Hides(item, x) && item in found + [item];
      }
    }
  }

  lemma SettledMore(found: seq<Item>, more: seq<Item>, x: Item)
    requires Settled(found, x) && forall y :: y in found ==> y in more
    ensures Settled(more, x)
  {
  }

  // A "[" opens, and is open over those in its text,
  lemma CompletePush(text: string, lexis: Lexis, found: seq<Item>, openers: seq<Opener>, index: nat)
    requires index < |text| && Complete(text, lexis, found, openers, index) && text[index] == '['
    ensures Complete(text, lexis, found, openers + [Opener(index, false, true, |found|)], index + 1)
  {
    var more := openers + [Opener(index, false, true, |found|)];
    forall x | Plain(text, lexis, x) ensures Noticed(text, found, more, index + 1, x) {
      assert Noticed(text, found, openers, index, x);
    }
  }

  // and a "]" that ends no link settles what it leaves.
  lemma CompletePop(text: string, lexis: Lexis, found: seq<Item>, openers: seq<Opener>, index: nat, more: seq<Item>)
    requires index < |text| && Complete(text, lexis, found, openers, index) && text[index] == ']'
    requires openers != []
    requires openers[|openers| - 1].active ==> lexis.linkEnd(openers[|openers| - 1].at, index).None?
    requires forall x :: x in found ==> x in more
    ensures Complete(text, lexis, more, openers[..|openers| - 1], index + 1)
  {
    forall x | Plain(text, lexis, x) ensures Noticed(text, more, openers[..|openers| - 1], index + 1, x) {
      assert Noticed(text, found, openers, index, x);
      if Settled(found, x) {
        SettledMore(found, more, x);
      } else if x.start < index < x.close {
        assert Depth(text, x.start, index + 1) >= 0;
      }
    }
  }

  lemma CompleteShut(text: string, lexis: Lexis, found: seq<Item>, openers: seq<Opener>, index: nat,
                     rest: seq<Opener>, item: Item)
    requires index < |text| && Valid(found, openers, index) && Complete(text, lexis, found, openers, index)
    requires text[index] == ']' && openers != []
    requires item.start == openers[|openers| - 1].at && item.close == index < item.end <= |text|
    requires item.kind == (if openers[|openers| - 1].image then Image else Link)
    requires Ends(lexis, item) && text[item.start] == '['
    ensures var kept := if item.kind == Image then found[..openers[|openers| - 1].before] else found;
            Complete(text, lexis, kept + [item], rest, item.end)
  {
    var o := openers[|openers| - 1];
    var more := (if o.image then found[..o.before] else found) + [item];
    assert item in more;
    forall x | Plain(text, lexis, x) ensures Noticed(text, more, rest, item.end, x) {
      assert Noticed(text, found, openers, index, x);
      if index <= x.start {
        HiddenShut(more, index, item, x);
      } else {
        if !Settled(found, x) {
          ShutIs(text, lexis, openers, index, item, x);
        } else {
          SettledShut(found, o, index, item, x);
        }
        assert Settled(more, x);
      }
    }
  }

  // What starts in what the item consumed is hidden, and the rest is to come.
  lemma HiddenShut(more: seq<Item>, index: nat, item: Item, x: Item)
    requires item in more && item.start < index == item.close && (item.kind == Link || item.kind == Image)
    requires index < x.start
    ensures Settled(more, x) || item.end <= x.start
  {
    if x.start < item.end {
      assert Hides(item, x);
    }
  }

  // What ends at its bracket is the link that was open there.
  lemma ShutIs(text: string, lexis: Lexis, openers: seq<Opener>, index: nat, item: Item, x: Item)
    requires Plain(text, lexis, x) && x.start < index <= x.close && text[index] == ']' && Nested(openers)
    requires Open(openers, |openers| - 1 - Depth(text, x.start, index), x)
    requires item.start == openers[|openers| - 1].at < index == item.close && text[item.start] == '['
    requires item.kind == (if openers[|openers| - 1].image then Image else Link) && Ends(lexis, item)
    ensures x == item
  {
    if index < x.close {
      InnerShut(text, lexis, openers, index, x);
    }
  }

  // Within its text, the innermost bracket is another, and forms no link.
  lemma InnerShut(text: string, lexis: Lexis, openers: seq<Opener>, index: nat, x: Item)
    requires Plain(text, lexis, x) && x.start < index < x.close && text[index] == ']' && Nested(openers)
    requires Open(openers, |openers| - 1 - Depth(text, x.start, index), x)
    requires openers[|openers| - 1].at < index && text[openers[|openers| - 1].at] == '['
    ensures lexis.linkEnd(openers[|openers| - 1].at, index).None?
  {
    assert Depth(text, x.start, index + 1) >= 0;
    assert Depth(text, x.start, index) >= 1;
  }

  // An image hides what was found in its text.
  lemma SettledShut(found: seq<Item>, o: Opener, index: nat, item: Item, x: Item)
    requires Opens(found, o) && (forall i :: 0 <= i < |found| ==> Formed(found[i]) && found[i].end <= index)
    requires item.start == o.at && item.close == index < item.end
    requires item.kind == if o.image then Image else Link
    requires Settled(found, x) && x.kind == Link
    ensures Settled((if o.image then found[..o.before] else found) + [item], x)
  {
    var more := (if o.image then found[..o.before] else found) + [item];
    assert item in more;
    if x in found {
      var i :| 0 <= i < |found| && found[i] == x;
      if o.image && i >= o.before {
        assert Hides(item, x);
      } else {
        assert x in more;
      }
    } else {
      var y :| y in found && Hides(y, x);
      var i :| 0 <= i < |found| && found[i] == y;
      if o.image && i >= o.before {
        assert Hides(item, x);
      } else {
        assert y in more;
      }
    }
  }

  // Finds the items of a text. They nest, each is one by the rules, and they are what the marks of the whole text
  // find; so every link of plain text is among them unless one of them hides it.
  method Parse(text: string, lexis: Lexis) returns (found: seq<Item>, ghost marks: seq<Mark>)
    requires Lawful(text, lexis)
    ensures Laminar(found)
    ensures forall i :: 0 <= i < |found| ==> Justified(text, lexis, found[i])
    ensures forall x :: Plain(text, lexis, x) ==> Settled(found, x)
    ensures Marked(text, lexis, marks) && Reached(marks) == |text| && found == Listed(marks, |marks|)
  {
    found := [];
    var openers: seq<Opener> := [];
    var index: nat := 0;
    ghost var t := Trace([], []);
    while index < |text|
      invariant Good(text, lexis, found, openers, index) && Traced(text, lexis, t, found, openers, index)
    {
      found, openers, index, t := Turn(text, lexis, found, openers, index, t);
    }
    marks := t.marks;
    assert Fit(text, lexis, found, openers, index);
    forall x | Plain(text, lexis, x) ensures Settled(found, x) {
      assert Noticed(text, found, openers, index, x);
    }
  }

  lemma ImageGood(text: string, lexis: Lexis, found: seq<Item>, openers: seq<Opener>, index: nat)
    requires Good(text, lexis, found, openers, index)
    requires index + 1 < |text| && text[index] == '!' && text[index + 1] == '['
    ensures Good(text, lexis, found, openers + [Opener(index + 1, true, true, |found|)], index + 2)
  {
    assert Fit(text, lexis, found, openers, index);
  }

  lemma BracketGood(text: string, lexis: Lexis, found: seq<Item>, openers: seq<Opener>, index: nat)
    requires Good(text, lexis, found, openers, index) && index < |text| && text[index] == '['
    ensures Good(text, lexis, found, openers + [Opener(index, false, true, |found|)], index + 1)
  {
    assert Fit(text, lexis, found, openers, index);
    CompletePush(text, lexis, found, openers, index);
  }

  // One turn: a closing bracket, backticks, or what else is at index.
  method Turn(text: string, lexis: Lexis, before: seq<Item>, stack: seq<Opener>, index: nat, ghost t: Trace)
      returns (found: seq<Item>, openers: seq<Opener>, next: nat, ghost more: Trace)
    requires Lawful(text, lexis) && index < |text|
    requires Good(text, lexis, before, stack, index) && Traced(text, lexis, t, before, stack, index)
    ensures index < next && Good(text, lexis, found, openers, next) && Traced(text, lexis, more, found, openers, next)
  {
    if text[index] == ']' && stack != [] {
      TopBefore(text, lexis, before, stack, index);
      found, openers, next := Shut(text, lexis, before, stack, index);
      more := ShutTraced(text, lexis, t, before, stack, index, found, openers, next);
    } else if text[index] == '`' {
      openers := stack;
      found, next := Ticks(text, lexis, before, openers, index);
      TicksTraced(text, lexis, t, before, openers, index, found);
      more := t.(marks := t.marks + [TicksMark(text, index)]);
    } else {
      found, openers, next := Read(text, lexis, before, stack, index);
      more := ReadTraced(text, lexis, t, before, stack, index, found, openers);
    }
  }

  // What a part that is no bracket finds.
  function Whole(m: Mark): Option<Item> {
    match m.what
    case Span(close) => Some(Item(Code, m.start, close, m.end))
    case Angle => Some(Item(Atom, m.start, m.end, m.end))
    case Url(first) => Some(Item(Atom, first, m.end, m.end))
    case _ => None
  }

  // What a part that closes no bracket leaves: a bracket more, or an item more, if any.
  predicate Leaves(m: Mark, before: seq<Item>, stack: seq<Opener>, found: seq<Item>, openers: seq<Opener>) {
    if m.what.Opening?
    then found == before && openers == stack + [Opener(Bracket(m), m.what.image, true, |before|)]
    else found == before + Added(Whole(m)) && openers == stack
  }

  lemma TicksTraced(
    text: string, lexis: Lexis, t: Trace, before: seq<Item>, openers: seq<Opener>, index: nat, found: seq<Item>)
    requires Traced(text, lexis, t, before, openers, index) && index < |text| && text[index] == '`'
    requires TicksEnd(text, index) > index && found == before + Added(Whole(TicksMark(text, index)))
    ensures var m := TicksMark(text, index);
            Traced(text, lexis, t.(marks := t.marks + [m]), found, openers, m.end)
  {
    var m := TicksMark(text, index);
    TicksRight(text, lexis, t, before, openers, index, m);
    WholeItem(t.marks, m);
    Passes(text, lexis, t, before, openers, index, m, found);
  }

  lemma WholeItem(marks: seq<Mark>, m: Mark)
    ensures !m.what.Closing? ==> ItemOf(marks + [m], |marks|) == Whole(m)
  {
    assert (marks + [m])[|marks|] == m;
  }

  lemma ReadTraced(
    text: string, lexis: Lexis, t: Trace, before: seq<Item>, stack: seq<Opener>, index: nat, found: seq<Item>,
    openers: seq<Opener>) returns (more: Trace)
    requires Lawful(text, lexis) && Traced(text, lexis, t, before, stack, index) && index < |text|
    requires text[index] != '`' && (text[index] == ']' ==> stack == [])
    requires Leaves(Reading(text, lexis, index, stack == []), before, stack, found, openers)
    ensures Traced(text, lexis, more, found, openers, Reading(text, lexis, index, stack == []).end)
  {
    var m := Reading(text, lexis, index, stack == []);
    ReadingWithin(text, lexis, index, stack == []);
    ReadingRight(text, lexis, t, before, stack, index, m);
    WholeItem(t.marks, m);
    if m.what.Opening? {
      Pushes(text, lexis, t, before, stack, index, m, Opener(Bracket(m), m.what.image, true, |before|));
      more := Trace(t.marks + [m], t.stack + [|t.marks|]);
    } else {
      Passes(text, lexis, t, before, stack, index, m, found);
      more := t.(marks := t.marks + [m]);
    }
  }

  lemma ReadingWithin(text: string, lexis: Lexis, i: nat, outside: bool)
    requires Lawful(text, lexis) && i < |text|
    ensures i < Reading(text, lexis, i, outside).end <= |text|
  {
  }

  // Takes an escape or an opening bracket at index, or what else is there.
  method Read(text: string, lexis: Lexis, before: seq<Item>, stack: seq<Opener>, index: nat)
      returns (found: seq<Item>, openers: seq<Opener>, next: nat)
    requires Lawful(text, lexis) && index < |text| && Good(text, lexis, before, stack, index)
    requires text[index] != '`' && (text[index] == ']' ==> stack == [])
    ensures index < next && Good(text, lexis, found, openers, next)
    ensures var m := Reading(text, lexis, index, stack == []); Leaves(m, before, stack, found, openers) && next == m.end
  {
    var c := text[index];
    found, openers := before, stack;
    if c == '\\' && index + 1 < |text| && text[index + 1] in PUNCTUATION {
      SpecialGood(text, lexis, found, openers, index, index + 2);
      next := index + 2;
    } else if c == '!' && index + 1 < |text| && text[index + 1] == '[' {
      ImageGood(text, lexis, found, openers, index);
      openers, next := openers + [Opener(index + 1, true, true, |found|)], index + 2;
    } else if c == '[' {
      BracketGood(text, lexis, found, openers, index);
      openers, next := openers + [Opener(index, false, true, |found|)], index + 1;
    } else {
      found, next := Scan(text, lexis, found, openers, index);
    }
  }

  // Takes the bare URL, autolink, or raw HTML at index, or else the character there.
  method Scan(text: string, lexis: Lexis, before: seq<Item>, openers: seq<Opener>, index: nat)
      returns (found: seq<Item>, next: nat)
    requires Lawful(text, lexis) && index < |text|
    requires Good(text, lexis, before, openers, index)
    requires text[index] != '[' && text[index] != '`' && (text[index] == ']' ==> openers == [])
    requires !Escapes(text, index) && !(text[index] == '!' && index + 1 < |text| && text[index + 1] == '[')
    ensures index < next && Good(text, lexis, found, openers, next)
    ensures var m := Reading(text, lexis, index, openers == []);
            !m.what.Opening? && found == before + Added(Whole(m)) && next == m.end
  {
    var c := text[index];
    if (c == ':' || c == 'w') && openers == [] && lexis.bare(index).Some? {
      found, next := Bare(text, lexis, before, index);
    } else if c == '<' && lexis.angle(index).Some? {
      found, next := Bracketed(text, lexis, before, openers, index);
    } else {
      PlainGood(text, lexis, before, openers, index);
      found, next := before, index + 1;
    }
  }

  lemma SpecialGood(text: string, lexis: Lexis, found: seq<Item>, openers: seq<Opener>, index: nat, next: nat)
    requires Good(text, lexis, found, openers, index) && index < next <= |text| && text[index] in "\\`!"
    requires forall k :: index < k < next && text[k] == '[' ==> text[k - 1] in "\\!"
    ensures Good(text, lexis, found, openers, next)
  {
    assert Fit(text, lexis, found, openers, index);
    CompleteSpecial(text, lexis, found, openers, index, next, openers);
  }

  lemma PlainGood(text: string, lexis: Lexis, found: seq<Item>, openers: seq<Opener>, index: nat)
    requires Good(text, lexis, found, openers, index) && index < |text|
    requires text[index] != '[' && (text[index] == ']' ==> openers == [])
    ensures Good(text, lexis, found, openers, index + 1)
  {
    assert Fit(text, lexis, found, openers, index);
    CompletePlain(text, lexis, found, openers, index);
  }

  // Takes the bare URL around index.
  method Bare(text: string, lexis: Lexis, before: seq<Item>, index: nat) returns (found: seq<Item>, next: nat)
    requires Lawful(text, lexis) && index < |text| && Good(text, lexis, before, [], index)
    requires text[index] != '[' && lexis.bare(index).Some?
    ensures index < next && Good(text, lexis, found, [], next)
    ensures var (first, end) := lexis.bare(index).value; found == before + [Item(Atom, first, end, end)] && next == end
  {
    var (first, end) := lexis.bare(index).value;
    assert Fit(text, lexis, before, [], index);
    BareAfter(text, lexis, before, index);
    found, next := Take(text, lexis, before, [], index, Item(Atom, first, end, end));
  }

  // Takes the autolink or raw HTML at index.
  method Bracketed(text: string, lexis: Lexis, before: seq<Item>, openers: seq<Opener>, index: nat)
      returns (found: seq<Item>, next: nat)
    requires Lawful(text, lexis) && index < |text| && Good(text, lexis, before, openers, index)
    requires text[index] == '<' && lexis.angle(index).Some?
    ensures index < next && Good(text, lexis, found, openers, next)
    ensures var end := lexis.angle(index).value; found == before + [Item(Atom, index, end, end)] && next == end
  {
    var end := lexis.angle(index).value;
    found, next := Take(text, lexis, before, openers, index, Item(Atom, index, end, end));
  }

  // Takes the code span at index, or the backticks that no others close.
  method Ticks(text: string, lexis: Lexis, before: seq<Item>, openers: seq<Opener>, index: nat)
      returns (found: seq<Item>, next: nat)
    requires Lawful(text, lexis) && index < |text| && text[index] == '`'
    requires Good(text, lexis, before, openers, index)
    ensures index < next && Good(text, lexis, found, openers, next) && TicksEnd(text, index) > index
    ensures var m := TicksMark(text, index); found == before + Added(Whole(m)) && next == m.end
  {
    var run := TicksEnd(text, index);
    var closing := ClosingTicks(text, run, run - index);
    if closing.Some? {
      var item := Item(Code, index, closing.value, closing.value + run - index);
      found, next := Take(text, lexis, before, openers, index, item);
    } else {
      SpecialGood(text, lexis, before, openers, index, run);
      found, next := before, run;
    }
  }

  method Take(text: string, lexis: Lexis, before: seq<Item>, openers: seq<Opener>, index: nat, item: Item)
      returns (found: seq<Item>, next: nat)
    requires Good(text, lexis, before, openers, index)
    requires item.start <= index < item.end <= |text| && Justified(text, lexis, item)
    requires item.kind == Code || item.kind == Atom
    requires text[index] != '[' && (openers != [] ==> text[index] in "`<" && item.start == index)
    requires item.start == index || forall i :: 0 <= i < |before| ==> before[i].end <= item.start
    requires !Letter(text[item.end - 1])
             || (lexis.bare(index).Some? && lexis.bare(index).value.1 == item.end)
    ensures found == before + [item] && next == item.end
    ensures Good(text, lexis, found, openers, next)
  {
    assert Fit(text, lexis, before, openers, index);
    AtomValid(before, openers, index, item, item.end);
    CompleteAtom(text, lexis, before, openers, index, item);
    found, next := before + [item], item.end;
  }

  // Where a link or image of the bracket on top ends, if it may be one.
  function LinkOf(lexis: Lexis, o: Opener, index: nat): Option<nat> {
    if o.active then lexis.linkEnd(o.at, index) else None
  }

  // What the bracket on top and the one at index form.
  function KindOf(lexis: Lexis, o: Opener, index: nat): Option<Kind> {
    if LinkOf(lexis, o, index).Some? then Some(if o.image then Image else Link)
    else if !o.image && lexis.cites(o.at, index) then Some(Footnote)
    else None
  }

  // What that leaves.
  predicate Closes(
    lexis: Lexis, before: seq<Item>, openers: seq<Opener>, index: nat, found: seq<Item>, rest: seq<Opener>, next: nat)
    requires openers != []
  {
    var o, below := openers[|openers| - 1], openers[..|openers| - 1];
    var kind := KindOf(lexis, o, index);
    && o.before <= |before|
    && next == (match LinkOf(lexis, o, index) case Some(end) => end case None => index + 1)
    && rest == (if kind == Some(Link) then Deactivated(below) else below)
    && found == (if kind == Some(Image) then before[..o.before] else before)
                + (match kind case None => [] case Some(k) => [Item(k, o.at, index, next)])
  }

  lemma ShutTraced(
    text: string, lexis: Lexis, t: Trace, before: seq<Item>, openers: seq<Opener>, index: nat, found: seq<Item>,
    rest: seq<Opener>, next: nat) returns (more: Trace)
    requires Traced(text, lexis, t, before, openers, index) && openers != [] && index < next <= |text| && text[index] == ']'
    requires Nested(openers) && Closes(lexis, before, openers, index, found, rest, next)
    ensures Traced(text, lexis, more, found, rest, next)
  {
    var o := openers[|openers| - 1];
    var m := Mark(index, next, Closing(t.stack[|t.stack| - 1], KindOf(lexis, o, index)));
    PairRight(text, lexis, t, before, openers, index, m);
    Pops(text, lexis, t, before, openers, index, m, found, rest);
    more := Trace(t.marks + [m], t.stack[..|t.stack| - 1]);
  }

  // Ends the text of the innermost open bracket at the "]" at index.
  method Shut(text: string, lexis: Lexis, before: seq<Item>, openers: seq<Opener>, index: nat)
      returns (found: seq<Item>, rest: seq<Opener>, next: nat)
    requires Lawful(text, lexis) && index < |text| && text[index] == ']' && openers != []
    requires Good(text, lexis, before, openers, index)
    ensures index < next <= |text| && Good(text, lexis, found, rest, next)
    ensures Closes(lexis, before, openers, index, found, rest, next)
  {
    var o := openers[|openers| - 1];
    TopBefore(text, lexis, before, openers, index);
    found, rest, next := before, openers[..|openers| - 1], index + 1;
    var link := if o.active then lexis.linkEnd(o.at, index) else None;
    if link.None? {
      if !o.image && lexis.cites(o.at, index) {
        found := found + [Item(Footnote, o.at, index, index + 1)];
      }
    } else {
      next := link.value;
      if o.image {
        found := found[..o.before] + [Item(Image, o.at, index, next)];
      } else {
        rest := Deactivated(rest);
        found := found + [Item(Link, o.at, index, next)];
      }
    }
    ClosesGood(text, lexis, before, openers, index, found, rest, next);
  }

  lemma TopBefore(text: string, lexis: Lexis, found: seq<Item>, openers: seq<Opener>, index: nat)
    requires Good(text, lexis, found, openers, index) && openers != []
    ensures openers[|openers| - 1].before <= |found| && openers[|openers| - 1].at < index && Nested(openers)
    ensures text[openers[|openers| - 1].at] == '['
  {
    assert Fit(text, lexis, found, openers, index);
    assert Opens(found, openers[|openers| - 1]);
  }

  lemma ClosesGood(
    text: string, lexis: Lexis, before: seq<Item>, openers: seq<Opener>, index: nat, found: seq<Item>,
    rest: seq<Opener>, next: nat)
    requires Lawful(text, lexis) && index < |text| && text[index] == ']' && openers != []
    requires Good(text, lexis, before, openers, index) && Closes(lexis, before, openers, index, found, rest, next)
    ensures index < next <= |text| && Good(text, lexis, found, rest, next)
  {
    var o := openers[|openers| - 1];
    TopBefore(text, lexis, before, openers, index);
    assert before + [] == before;
    match KindOf(lexis, o, index)
    case None => PopGood(text, lexis, before, openers, index);
    case Some(Footnote) => CiteGood(text, lexis, before, openers, index, Item(Footnote, o.at, index, index + 1));
    case Some(kind) => ShutGood(text, lexis, before, openers, index, Item(kind, o.at, index, next));
  }

  lemma CiteGood(text: string, lexis: Lexis, found: seq<Item>, openers: seq<Opener>, index: nat, item: Item)
    requires Good(text, lexis, found, openers, index)
    requires index < |text| && text[index] == ']' && openers != []
    requires openers[|openers| - 1].active ==> lexis.linkEnd(openers[|openers| - 1].at, index).None?
    requires !openers[|openers| - 1].image && lexis.cites(openers[|openers| - 1].at, index)
    requires item == Item(Footnote, openers[|openers| - 1].at, index, index + 1)
    ensures Good(text, lexis, found + [item], openers[..|openers| - 1], index + 1)
  {
    assert Fit(text, lexis, found, openers, index);
    CiteValid(found, openers, index);
    CompletePop(text, lexis, found, openers, index, found + [item]);
    EndedMore(text, lexis, found, |found|, index, item, index + 1);
  }

  lemma PopGood(text: string, lexis: Lexis, found: seq<Item>, openers: seq<Opener>, index: nat)
    requires Good(text, lexis, found, openers, index)
    requires index < |text| && text[index] == ']' && openers != []
    requires openers[|openers| - 1].active ==> lexis.linkEnd(openers[|openers| - 1].at, index).None?
    requires openers[|openers| - 1].image || !lexis.cites(openers[|openers| - 1].at, index)
    ensures Good(text, lexis, found, openers[..|openers| - 1], index + 1)
  {
    assert Fit(text, lexis, found, openers, index);
  }

  lemma EndedMore(text: string, lexis: Lexis, found: seq<Item>, count: nat, index: nat, item: Item, next: nat)
    requires Ended(text, lexis, found, index) && count <= |found| && index <= next
    requires 0 < item.end <= |text| && !Letter(text[item.end - 1])
    ensures Ended(text, lexis, found[..count] + [item], next)
    ensures found[..|found|] == found
  {
  }

  lemma ShutGood(text: string, lexis: Lexis, found: seq<Item>, openers: seq<Opener>, index: nat, item: Item)
    requires Good(text, lexis, found, openers, index)
    requires index < |text| && text[index] == ']' && openers != []
    requires item.start == openers[|openers| - 1].at && item.close == index < item.end <= |text|
    requires item.kind == (if openers[|openers| - 1].image then Image else Link)
    requires openers[|openers| - 1].active && Ends(lexis, item) && !Letter(text[item.end - 1])
    requires openers[|openers| - 1].before <= |found|
    ensures var o, rest := openers[|openers| - 1], openers[..|openers| - 1];
            if o.image then Good(text, lexis, found[..o.before] + [item], rest, item.end)
            else Good(text, lexis, found + [item], Deactivated(rest), item.end)
  {
    assert Fit(text, lexis, found, openers, index);
    var o, rest := openers[|openers| - 1], openers[..|openers| - 1];
    if o.image {
      ImageValid(found, openers, index, item.end);
      CompleteShut(text, lexis, found, openers, index, rest, item);
      EndedMore(text, lexis, found, o.before, index, item, item.end);
    } else {
      LinkValid(found, openers, index, item.end);
      CompleteShut(text, lexis, found, openers, index, Deactivated(rest), item);
      EndedMore(text, lexis, found, |found|, index, item, item.end);
    }
  }
}
