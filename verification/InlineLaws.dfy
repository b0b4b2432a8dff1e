/** That nothing is missed: every code span, autolink, tag, bare URL, link, image and citation of a text is found,
    or is in the text of an image that is, and nothing begins inside one that takes its text as it is. */
module InlineLaws {
  import opened Options
  import opened InlineItems
  import opened InlineMarks

  // What parsing ensures.
  ghost predicate Parsed(text: string, lexis: Lexis, found: seq<Item>, marks: seq<Mark>) {
    Laminar(found) && Marked(text, lexis, marks) && Reached(marks) == |text| && found == Listed(marks, |marks|)
  }

  // An item is found, or renders only as part of the description of an image.
  ghost predicate Shown(found: seq<Item>, x: Item) {
    x in found || exists y :: y in found && y.kind == Image && Inside(x, y)
  }

  // Brackets open at least as often as they close.
  lemma {:induction false} BalanceNat(text: string, lexis: Lexis, marks: seq<Mark>, k: nat)
    requires Marked(text, lexis, marks) && k <= |marks|
    ensures Balance(marks, 0, k) >= 0
  {
    if k > 0 {
      BalanceNat(text, lexis, marks, k - 1);
      assert Right(text, lexis, marks, k - 1);
    }
  }

  // A bracket is open before a mark exactly if more opened than closed.
  lemma OpenBalance(text: string, lexis: Lexis, marks: seq<Mark>, j: nat, k: nat)
    requires Marked(text, lexis, marks) && k <= |marks| && StillOpen(marks, j, k)
    ensures Balance(marks, 0, k) > 0
  {
    BalanceNat(text, lexis, marks, j);
    BalanceSplit(marks, 0, j, k);
    BalanceSplit(marks, j, j + 1, k);
    assert Balance(marks, j, j + 1) == 1 && Since(marks, j, k) >= 0;
  }

  // One that is open after a mark that closes another opened before that other.
  lemma OpensBefore(text: string, lexis: Lexis, marks: seq<Mark>, p: nat, k: nat, l: nat)
    requires Marked(text, lexis, marks) && p < k < l <= |marks| && StillOpen(marks, p, l) && marks[k].what.Closing?
    ensures p < marks[k].what.opener < k
  {
    ClosingOpens(text, lexis, marks, k);
    var j := marks[k].what.opener;
    if j < p {
      NoCross(marks, j, p, k, l);
    }
    BalanceSplit(marks, p + 1, k, k + 1);
    assert Since(marks, p, k + 1) >= 0 && Balance(marks, k, k + 1) == -1;
  }

  // The last image around a mark is in no other.
  lemma {:induction false} Outermost(text: string, lexis: Lexis, marks: seq<Mark>, k: nat) returns (l: nat)
    requires Marked(text, lexis, marks) && k < |marks| && Covered(marks, k, |marks|) && !marks[k].what.Opening?
    ensures k < l < |marks| && IsImage(marks[l]) && marks[l].what.opener < k && !Covered(marks, l, |marks|)
    decreases |marks| - k
  {
    l :| k < l < |marks| && IsImage(marks[l]) && marks[l].what.opener < k;
    if Covered(marks, l, |marks|) {
      var next := Outermost(text, lexis, marks, l);
      ClosingOpens(text, lexis, marks, next);
      OpensBefore(text, lexis, marks, marks[next].what.opener, l, next);
      l := next;
    }
  }

  // A mark between the brackets of an image finds something in its text.
  lemma InImage(text: string, lexis: Lexis, marks: seq<Mark>, k: nat, l: nat, x: Item, y: Item)
    requires Marked(text, lexis, marks) && k < l < |marks| && IsImage(marks[l]) && marks[l].what.opener < k
    requires ItemOf(marks, k) == Some(x) && ItemOf(marks, l) == Some(y)
    ensures y.kind == Image && Inside(x, y)
  {
    ClosingOpens(text, lexis, marks, l);
    var p := marks[l].what.opener;
    Apart(text, lexis, marks, k, l);
    Apart(text, lexis, marks, p, k);
    assert Right(text, lexis, marks, p) && Right(text, lexis, marks, k);
    if marks[k].what.Closing? {
      OpensBefore(text, lexis, marks, p, k, l);
      ClosingOpens(text, lexis, marks, k);
      Apart(text, lexis, marks, p, marks[k].what.opener);
      assert Right(text, lexis, marks, marks[k].what.opener);
    } else {
      OpenPart(marks, p, k, l);
      OpenBalance(text, lexis, marks, p, k);
    }
  }

  lemma OpenPart(marks: seq<Mark>, p: nat, k: nat, l: nat)
    requires p < k <= l <= |marks| && StillOpen(marks, p, l)
    ensures StillOpen(marks, p, k)
  {
  }

  // What a mark finds is shown.
  lemma MarkShown(text: string, lexis: Lexis, found: seq<Item>, marks: seq<Mark>, k: nat, x: Item)
    requires Parsed(text, lexis, found, marks) && k < |marks| && ItemOf(marks, k) == Some(x)
    ensures Shown(found, x)
  {
    var n := |marks|;
    if Covered(marks, k, n) {
      var l := Outermost(text, lexis, marks, k);
      ClosingOpens(text, lexis, marks, l);
      var y := ItemOf(marks, l).value;
      InImage(text, lexis, marks, k, l, x, y);
      assert Finds(marks, l, n, y);
      ListedFinds(text, lexis, marks, n, y);
    } else {
      assert Finds(marks, k, n, x);
      ListedFinds(text, lexis, marks, n, x);
    }
  }

  // Every offset is in one mark. Where it is not its start, it is escaped, among backticks, in a code span, an
  // autolink, raw HTML or a bare URL, the bracket of an image, or in the destination or reference of a link or image.
  lemma EveryOffset(text: string, lexis: Lexis, found: seq<Item>, marks: seq<Mark>, i: nat) returns (k: nat)
    requires Parsed(text, lexis, found, marks) && i < |text|
    ensures k < |marks| && marks[k].start <= i < marks[k].end
    ensures forall j :: 0 <= j < |marks| && marks[j].start <= i < marks[j].end ==> j == k
    ensures marks[k].start < i ==>
              match marks[k].what
              case Escape => i == marks[k].start + 1 && text[i - 1] == '\\'
              case Ticks => text[i] == '`'
              case Span(_) => true
              case Angle => true
              case Url(_) => true
              case Opening(image) => image && text[i - 1] == '!' && text[i] == '['
              case Closing(_, kind) => text[marks[k].start] == ']' && (kind == Some(Link) || kind == Some(Image))
              case Char => false
  {
    k := Covers(text, lexis, marks, i);
    forall j | 0 <= j < |marks| && marks[j].start <= i < marks[j].end ensures j == k {
      if j < k {
        Apart(text, lexis, marks, j, k);
      } else if k < j {
        Apart(text, lexis, marks, k, j);
      }
    }
    assert Right(text, lexis, marks, k);
  }

  // A run of backticks that starts a mark is a code span up to the first later run of as many.
  lemma CodeFound(text: string, lexis: Lexis, found: seq<Item>, marks: seq<Mark>, k: nat, run: nat, close: nat)
    requires Parsed(text, lexis, found, marks) && k < |marks|
    requires var i := marks[k].start;
             RunFrom(text, i, run) && FirstRun(text, run, run - i, close)
    ensures var i := marks[k].start; Shown(found, Item(Code, i, close, close + run - i))
  {
    var m := marks[k];
    assert Right(text, lexis, marks, k);
    TicksClose(text, m, run, close);
    MarkShown(text, lexis, found, marks, k, Item(Code, m.start, close, m.end));
  }

  lemma TicksClose(text: string, m: Mark, run: nat, close: nat)
    requires RightTicks(text, m) && RunFrom(text, m.start, run) && FirstRun(text, run, run - m.start, close)
    ensures m == Mark(m.start, close + run - m.start, Span(close))
  {
    var ticks := run - m.start;
    assert HasRun(text, run, ticks);
  }

  // A "<" that starts a mark and that an autolink or raw HTML starts from is one.
  lemma AngleFound(text: string, lexis: Lexis, found: seq<Item>, marks: seq<Mark>, k: nat, end: nat)
    requires Parsed(text, lexis, found, marks) && k < |marks| && marks[k].start < |text|
    requires text[marks[k].start] == '<' && lexis.angle(marks[k].start) == Some(end)
    ensures Shown(found, Item(Atom, marks[k].start, end, end))
  {
    assert Right(text, lexis, marks, k);
    MarkShown(text, lexis, found, marks, k, Item(Atom, marks[k].start, end, end));
  }

  // A bare URL around the start of a mark is one if no bracket is open there, and only then.
  lemma UrlFound(text: string, lexis: Lexis, found: seq<Item>, marks: seq<Mark>, k: nat)
    requires Parsed(text, lexis, found, marks) && k < |marks| && marks[k].start < |text|
    requires text[marks[k].start] in ":w" && lexis.bare(marks[k].start).Some?
    ensures var (first, end) := lexis.bare(marks[k].start).value;
            && (ItemOf(marks, k) == Some(Item(Atom, first, end, end)) <==> forall j: nat :: !StillOpen(marks, j, k))
            && ((forall j: nat :: !StillOpen(marks, j, k)) ==> Item(Atom, first, end, end) in found)
  {
    var (first, end) := lexis.bare(marks[k].start).value;
    var n := |marks|;
    assert Right(text, lexis, marks, k);
    if Balance(marks, 0, k) == 0 {
      forall j: nat ensures !StillOpen(marks, j, k) {
        if StillOpen(marks, j, k) {
          OpenBalance(text, lexis, marks, j, k);
        }
      }
      UrlUncovered(text, lexis, marks, k);
      assert Finds(marks, k, n, Item(Atom, first, end, end));
      ListedFinds(text, lexis, marks, n, Item(Atom, first, end, end));
    } else {
      BalanceNat(text, lexis, marks, k);
      var j := SomeOpen(text, lexis, marks, k);
    }
  }

  lemma UrlUncovered(text: string, lexis: Lexis, marks: seq<Mark>, k: nat)
    requires Marked(text, lexis, marks) && k < |marks| && Balance(marks, 0, k) == 0
    ensures !Covered(marks, k, |marks|)
  {
    forall l | k < l < |marks| && IsImage(marks[l]) ensures marks[l].what.opener >= k {
      ClosingOpens(text, lexis, marks, l);
      if marks[l].what.opener < k {
        OpenPart(marks, marks[l].what.opener, k, l);
        OpenBalance(text, lexis, marks, marks[l].what.opener, k);
      }
    }
  }

  // If more brackets opened than closed, the last open one can be named.
  lemma {:induction false} SomeOpen(text: string, lexis: Lexis, marks: seq<Mark>, k: nat) returns (j: nat)
    requires Marked(text, lexis, marks) && k <= |marks| && Balance(marks, 0, k) > 0
    ensures Innermost(marks, j, k)
    decreases k
  {
    j := OpenAt(text, lexis, marks, k, Balance(marks, 0, k) - 1);
  }

  // Below any depth that is reached, a bracket opened that is still open.
  lemma {:induction false} OpenAt(text: string, lexis: Lexis, marks: seq<Mark>, k: nat, depth: nat) returns (j: nat)
    requires Marked(text, lexis, marks) && k <= |marks| && depth < Balance(marks, 0, k)
    ensures StillOpen(marks, j, k) && Balance(marks, 0, j) == depth
    ensures Since(marks, j, k) == Balance(marks, 0, k) - depth - 1
    decreases k
  {
    if marks[k - 1].what.Opening? && Balance(marks, 0, k - 1) == depth {
      j := k - 1;
    } else {
      j := OpenAt(text, lexis, marks, k - 1, depth);
      BalanceSplit(marks, j + 1, k - 1, k);
      assert Since(marks, j, k) == Since(marks, j, k - 1) + Balance(marks, k - 1, k);
    }
  }

  // A closing bracket that starts a mark, and the last bracket that is open there: an image or a link, if they end
  // one, but no link around another; or else a citation, if they hold the label of a footnote.
  lemma PairFound(text: string, lexis: Lexis, found: seq<Item>, marks: seq<Mark>, j: nat, k: nat)
    requires Parsed(text, lexis, found, marks) && k < |marks| && Innermost(marks, j, k)
    requires marks[k].start < |text| && text[marks[k].start] == ']'
    ensures var open, close, image := Bracket(marks[j]), marks[k].start, marks[j].what.image;
      && open < close && text[open] == '['
      && (match lexis.linkEnd(open, close)
          case Some(end) =>
            if image then Shown(found, Item(Image, open, close, end))
            else if !LinkBetween(marks, j, k) then Shown(found, Item(Link, open, close, end))
            else lexis.cites(open, close) ==> Shown(found, Item(Footnote, open, close, close + 1))
          case None => !image && lexis.cites(open, close) ==> Shown(found, Item(Footnote, open, close, close + 1)))
  {
    assert Right(text, lexis, marks, k) && Right(text, lexis, marks, j);
    Apart(text, lexis, marks, j, k);
    OpenBalance(text, lexis, marks, j, k);
    InnermostUnique(marks, j, marks[k].what.opener, k);
    if ItemOf(marks, k).Some? {
      MarkShown(text, lexis, found, marks, k, ItemOf(marks, k).value);
    }
  }

  // Nothing is found but such.
  lemma FoundMarked(text: string, lexis: Lexis, found: seq<Item>, marks: seq<Mark>, x: Item) returns (k: nat)
    requires Parsed(text, lexis, found, marks) && x in found
    ensures k < |marks| && ItemOf(marks, k) == Some(x)
  {
    ListedFinds(text, lexis, marks, |marks|, x);
    k :| Finds(marks, k, |marks|, x);
  }

  // Nothing that is found begins or ends inside a code span, autolink, raw HTML, or bare URL, whether that is found
  // itself or is in an image.
  lemma NothingWithin(text: string, lexis: Lexis, found: seq<Item>, marks: seq<Mark>, k: nat, x: Item, y: Item)
    requires Parsed(text, lexis, found, marks) && k < |marks| && ItemOf(marks, k) == Some(x)
    requires (x.kind == Code || x.kind == Atom) && y in found && y != x
    ensures y.end <= x.start || x.end <= y.Begin() || Inside(x, y)
  {
    MarkShown(text, lexis, found, marks, k, x);
    if x in found {
      Either(found, x, y);
    } else {
      var z :| z in found && z.kind == Image && Inside(x, z);
      if y != z {
        Either(found, z, y);
        assert Formed(z);
      }
    }
  }

  // Of two items, one ends before the other begins, or holds it.
  lemma Either(found: seq<Item>, x: Item, y: Item)
    requires Laminar(found) && x in found && y in found && x != y
    ensures x.end <= y.Begin() || y.end <= x.Begin() || Holds(x, y) || Holds(y, x)
    ensures Formed(x) && Formed(y)
  {
    var i :| 0 <= i < |found| && found[i] == x;
    var j :| 0 <= j < |found| && found[j] == y;
    assert i < j || j < i;
  }
}
