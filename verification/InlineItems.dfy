/** The items of inline content, and what the lexical rules match of them. */
module InlineItems {
  import opened Options

  datatype Kind = Link | Image | Footnote | Code | Atom

  // An item starts at the "[" of its text, which the "]" at close ends, or at its own start; what it
  // consumes, such as a destination, ends before end.
  datatype Item = Item(kind: Kind, start: nat, close: nat, end: nat)
  {
    // Where it renders from: an image's "!" is before its "[".
    function Begin(): int {
      if kind == Image then start - 1 else start
    }
  }

  // What the lexical rules match in a text: a bare URL around the character at an offset, an autolink
  // or raw HTML from one, the end of the link or image whose text two brackets hold, and whether they
  // hold the label of a footnote.
  datatype Lexis = Lexis(
    bare: nat -> Option<(nat, nat)>,
    angle: nat -> Option<nat>,
    linkEnd: (nat, nat) -> Option<nat>,
    cites: (nat, nat) -> bool)

  predicate Letter(c: char) {
    'a' <= c <= 'z' || 'A' <= c <= 'Z'
  }

  const PUNCTUATION := "!\"#$%&'()*+,-./:;<=>?@[\\]^_`{|}~"

  // Matches end after what they start from. A bare URL reaches back over the letters of its scheme
  // and not into another, and the other items end with punctuation.
  ghost predicate Lawful(text: string, lexis: Lexis) {
    && (forall i :: 0 <= i < |text| && lexis.bare(i).Some? ==>
          var (first, end) := lexis.bare(i).value;
          first <= i < end <= |text| && forall k :: first <= k < i ==> Letter(text[k]))
    && (forall i, j :: 0 <= i < j < |text| && lexis.bare(i).Some? && lexis.bare(j).Some? ==>
          j < lexis.bare(i).value.1 || lexis.bare(i).value.1 <= lexis.bare(j).value.0)
    && (forall i :: 0 <= i < |text| && lexis.angle(i).Some? ==>
          i < lexis.angle(i).value <= |text| && text[lexis.angle(i).value - 1] == '>')
    && (forall o, c :: 0 <= o < c < |text| && lexis.linkEnd(o, c).Some? ==>
          var end := lexis.linkEnd(o, c).value;
          c < end <= |text| && (text[end - 1] == ')' || text[end - 1] == ']'))
  }

  // The item lies in the text of another,
  predicate Inside(x: Item, y: Item) {
    y.start < x.Begin() && x.end <= y.close
  }

  // and only links and citations hold others, but links no links.
  predicate Holds(y: Item, x: Item) {
    Inside(x, y) && (y.kind == Link || y.kind == Footnote) && !(y.kind == Link && x.kind == Link)
  }

  ghost predicate Formed(x: Item) {
    x.start <= x.close <= x.end && x.start < x.end
  }

  // Of two items, the earlier found ends before the other begins, or the other holds it.
  ghost predicate Laminar(found: seq<Item>) {
    && (forall i :: 0 <= i < |found| ==> Formed(found[i]))
    && (forall i, j :: 0 <= i < j < |found| ==>
          found[i].end <= found[j].Begin() || Holds(found[j], found[i]))
  }

  // The link or image ends where its brackets say.
  ghost predicate Ends(lexis: Lexis, x: Item) {
    lexis.linkEnd(x.start, x.close) == Some(x.end)
  }

  // The end of the run of backticks at index.
  function TicksEnd(text: string, index: nat): (end: nat)
    requires index <= |text|
    ensures index <= end <= |text|
    ensures forall k :: index <= k < end ==> text[k] == '`'
    ensures end < |text| ==> text[end] != '`'
    decreases |text| - index
  {
    if index < |text| && text[index] == '`' then TicksEnd(text, index + 1) else index
  }

  // The start of the first run of that many backticks from index.
  function ClosingTicks(text: string, index: nat, ticks: nat): (at: Option<nat>)
    requires index <= |text| && ticks > 0
    ensures at.Some? ==>
              index <= at.value < |text| && TicksEnd(text, at.value) == at.value + ticks
    decreases |text| - index
  {
    if index == |text| then None
    else if text[index] != '`' then ClosingTicks(text, index + 1, ticks)
    else
      assert TicksEnd(text, index) >= index + 1;
      if TicksEnd(text, index) - index == ticks then Some(index)
      else ClosingTicks(text, TicksEnd(text, index), ticks)
  }

  // A bracket on the stack. An inactive one is only waiting to be popped; before counts the items that
  // were found when it was pushed.
  datatype Opener = Opener(at: nat, image: bool, active: bool, before: nat)
  {
    function Begin(): int {
      if image then at - 1 else at
    }
  }

  function Deactivated(openers: seq<Opener>): (r: seq<Opener>)
    ensures |r| == |openers|
    ensures forall i :: 0 <= i < |r| ==>
              r[i] == openers[i].(active := openers[i].active && openers[i].image)
  {
    seq(|openers|, i requires 0 <= i < |openers| =>
      openers[i].(active := openers[i].active && openers[i].image))
  }
}
