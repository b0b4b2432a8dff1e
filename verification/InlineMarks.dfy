/** What the scan of inline content makes of each part of a text, said of the text alone: which part is an escape,
    a code span, an autolink, raw HTML, a bare URL, or a bracket, which brackets pair, and what a pair is. */
module InlineMarks {
  import opened Options
  import opened InlineItems

  // What a part is. A closing bracket has the mark of its opening one, and the kind of item that they form.
  datatype What =
    | Char | Escape | Ticks | Span(close: nat) | Angle | Url(first: nat)
    | Opening(image: bool) | Closing(opener: nat, kind: Option<Kind>)

  datatype Mark = Mark(start: nat, end: nat, what: What)

  // How many more brackets open than close from one mark to another.
  function Balance(marks: seq<Mark>, from: nat, to: nat): int
    requires from <= to <= |marks|
  {
    if from == to then 0
    else Balance(marks, from, to - 1)
         + (match marks[to - 1].what case Opening(_) => 1 case Closing(_, _) => -1 case _ => 0)
  }

  // The same after a mark.
  function Since(marks: seq<Mark>, j: nat, to: nat): int
    requires j < to <= |marks|
  {
    Balance(marks, j + 1, to)
  }

  // A bracket that was opened is still open before a mark,
  ghost predicate StillOpen(marks: seq<Mark>, j: nat, k: nat)
    requires k <= |marks|
  {
    j < k && marks[j].what.Opening? && forall m :: j < m <= k ==> Since(marks, j, m) >= 0
  }

  // and is the last such one.
  ghost predicate Innermost(marks: seq<Mark>, j: nat, k: nat)
    requires k <= |marks|
  {
    StillOpen(marks, j, k) && Since(marks, j, k) == 0
  }

  // A link was formed between two marks.
  ghost predicate LinkBetween(marks: seq<Mark>, j: nat, k: nat)
    requires k <= |marks|
  {
    exists l :: j < l < k && marks[l].what.Closing? && marks[l].what.kind == Some(Link)
  }

  // A run of so many backticks, and no more.
  predicate MaxRun(text: string, at: nat, ticks: nat) {
    && ticks > 0 && at + ticks <= |text|
    && (forall i :: at <= i < at + ticks ==> text[i] == '`')
    && (at > 0 ==> text[at - 1] != '`') && (at + ticks < |text| ==> text[at + ticks] != '`')
  }

  // The first such run from an offset on.
  predicate FirstRun(text: string, from: nat, ticks: nat, at: nat) {
    from <= at && MaxRun(text, at, ticks) && forall i :: from <= i < at ==> !MaxRun(text, i, ticks)
  }

  ghost predicate HasRun(text: string, from: nat, ticks: nat) {
    exists at: nat :: FirstRun(text, from, ticks, at)
  }

  // The backticks from an offset on.
  predicate RunFrom(text: string, at: nat, end: nat) {
    at < end <= |text| && (forall i :: at <= i < end ==> text[i] == '`') && (end < |text| ==> text[end] != '`')
  }

  // The offset of an opening bracket.
  function Bracket(mark: Mark): nat {
    if mark.end > 0 then mark.end - 1 else 0
  }

  // What ends a link or an image at a pair of brackets, unless a link in its text keeps it from being one.
  ghost function LinkAt(lexis: Lexis, marks: seq<Mark>, j: nat, k: nat): Option<nat>
    requires j < k < |marks| && marks[j].what.Opening?
  {
    if !marks[j].what.image && LinkBetween(marks, j, k) then None
    else lexis.linkEnd(Bracket(marks[j]), marks[k].start)
  }

  // What a pair of brackets is.
  ghost function PairMark(lexis: Lexis, marks: seq<Mark>, j: nat, k: nat): Mark
    requires j < k < |marks| && marks[j].what.Opening?
  {
    var i := marks[k].start;
    match LinkAt(lexis, marks, j, k)
    case Some(end) => Mark(i, end, Closing(j, Some(if marks[j].what.image then Image else Link)))
    case None =>
      Mark(i, i + 1, Closing(j, if !marks[j].what.image && lexis.cites(Bracket(marks[j]), i) then Some(Footnote) else None))
  }

  predicate Escapes(text: string, i: nat) {
    i + 1 < |text| && text[i] == '\\' && text[i + 1] in PUNCTUATION
  }

  // What an offset is, but for backticks and a closing bracket: an escape, an autolink or raw HTML, an opening
  // bracket, or, where no bracket is open, a bare URL.
  function Reading(text: string, lexis: Lexis, i: nat, outside: bool): Mark
    requires i < |text|
  {
    if Escapes(text, i) then Mark(i, i + 2, Escape)
    else if text[i] == '<' && lexis.angle(i).Some? then Mark(i, lexis.angle(i).value, Angle)
    else if text[i] == '!' && i + 1 < |text| && text[i + 1] == '[' then Mark(i, i + 2, Opening(true))
    else if text[i] == '[' then Mark(i, i + 1, Opening(false))
    else if text[i] in ":w" && outside && lexis.bare(i).Some? then
      Mark(i, lexis.bare(i).value.1, Url(lexis.bare(i).value.0))
    else Mark(i, i + 1, Char)
  }

  // A mark is right: it starts where the one before it ends, and is what the text there says.
  ghost predicate Right(text: string, lexis: Lexis, marks: seq<Mark>, k: nat)
    requires k < |marks|
  {
    var m, i := marks[k], marks[k].start;
    && i == (if k == 0 then 0 else marks[k - 1].end) && i < m.end <= |text|
    && if text[i] == '`' then RightTicks(text, m)
       else if text[i] == ']' && Balance(marks, 0, k) != 0 then
         m.what.Closing? && Innermost(marks, m.what.opener, k) && m == PairMark(lexis, marks, m.what.opener, k)
       else m == Reading(text, lexis, i, Balance(marks, 0, k) == 0)
  }

  // Backticks are a code span up to the next run of as many, if there is one.
  ghost predicate RightTicks(text: string, m: Mark) {
    exists run: nat :: RunFrom(text, m.start, run)
      && if HasRun(text, run, run - m.start)
         then m.what.Span? && FirstRun(text, run, run - m.start, m.what.close) && m.end == m.what.close + run - m.start
         else m == Mark(m.start, run, Ticks)
  }

  ghost predicate Marked(text: string, lexis: Lexis, marks: seq<Mark>) {
    forall k {:trigger Right(text, lexis, marks, k)} :: 0 <= k < |marks| ==> Right(text, lexis, marks, k)
  }

  function Reached(marks: seq<Mark>): nat {
    if marks == [] then 0 else marks[|marks| - 1].end
  }

  // What a mark finds.
  function ItemOf(marks: seq<Mark>, k: nat): Option<Item>
    requires k < |marks|
  {
    var m := marks[k];
    match m.what
    case Span(close) => Some(Item(Code, m.start, close, m.end))
    case Angle => Some(Item(Atom, m.start, m.end, m.end))
    case Url(first) => Some(Item(Atom, first, m.end, m.end))
    case Closing(j, Some(kind)) => if j < k then Some(Item(kind, Bracket(marks[j]), m.start, m.end)) else None
    case _ => None
  }

  // An image leaves nothing that was found in its text.
  ghost predicate Covered(marks: seq<Mark>, k: nat, n: nat)
    requires n <= |marks|
  {
    exists l :: k < l < n && IsImage(marks[l]) && marks[l].what.opener < k
  }

  predicate IsImage(m: Mark) {
    m.what.Closing? && m.what.kind == Some(Image)
  }

  // What some marks find, in order.
  function Listed(marks: seq<Mark>, n: nat): seq<Item>
    requires n <= |marks|
  {
    if n == 0 then []
    else
      Listed(marks, Kept(marks[n - 1], n - 1)) + Added(ItemOf(marks, n - 1))
  }

  // The marks whose items a mark leaves: for an image, those before its bracket.
  function Kept(m: Mark, n: nat): (kept: nat)
    ensures kept <= n
  {
    if IsImage(m) && m.what.opener < n then m.what.opener else n
  }

  function Added(item: Option<Item>): seq<Item> {
    match item case None => [] case Some(x) => [x]
  }

  lemma {:induction false} BalanceSplit(marks: seq<Mark>, a: nat, b: nat, c: nat)
    requires a <= b <= c <= |marks|
    ensures Balance(marks, a, c) == Balance(marks, a, b) + Balance(marks, b, c)
    decreases c
  {
    if b < c {
      BalanceSplit(marks, a, b, c - 1);
    }
  }

  lemma {:induction false} BalanceSame(marks: seq<Mark>, more: seq<Mark>, a: nat, b: nat)
    requires a <= b <= |marks| && marks <= more
    ensures Balance(marks, a, b) == Balance(more, a, b)
    decreases b
  {
    if a < b {
      BalanceSame(marks, more, a, b - 1);
    }
  }

  // Two brackets that are the last open one are one.
  lemma InnermostUnique(marks: seq<Mark>, i: nat, j: nat, k: nat)
    requires k <= |marks| && Innermost(marks, i, k) && Innermost(marks, j, k)
    ensures i == j
  {
    if i < j {
      InnermostLast(marks, i, j, k);
    } else if j < i {
      InnermostLast(marks, j, i, k);
    }
  }

  // Under one that is open, no other is the last.
  lemma InnermostLast(marks: seq<Mark>, i: nat, j: nat, k: nat)
    requires k <= |marks| && StillOpen(marks, i, k) && StillOpen(marks, j, k) && i < j
    ensures Since(marks, i, k) > Since(marks, j, k)
  {
    BalanceSplit(marks, i + 1, j, k);
    BalanceSplit(marks, j, j + 1, k);
    assert Since(marks, i, j) >= 0 && Balance(marks, j, j + 1) == 1;
  }

  // Brackets do not cross: what closes after one that is open opened after it.
  lemma NoCross(marks: seq<Mark>, p: nat, o: nat, l: nat, k: nat)
    requires p < o < l < k <= |marks| && StillOpen(marks, o, k) && marks[l].what.Closing?
    ensures !Innermost(marks, p, l)
  {
    BalanceSplit(marks, o + 1, l, l + 1);
    BalanceSplit(marks, p + 1, o, l);
    BalanceSplit(marks, o, o + 1, l);
    assert Balance(marks, l, l + 1) == -1 && Since(marks, o, l + 1) >= 0;
    assert Balance(marks, o, o + 1) == 1;
    assert StillOpen(marks, p, l) ==> Since(marks, p, o) >= 0;
  }

  // The marks cover the text up to where they reach, each offset once.
  lemma {:induction false} Covers(text: string, lexis: Lexis, marks: seq<Mark>, i: nat) returns (k: nat)
    requires Marked(text, lexis, marks) && i < Reached(marks)
    ensures k < |marks| && marks[k].start <= i < marks[k].end
    decreases |marks|
  {
    k := |marks| - 1;
    assert Right(text, lexis, marks, k);
    if i < marks[k].start {
      MarkedPrefix(text, lexis, marks, k);
      k := Covers(text, lexis, marks[..k], i);
    }
  }

  lemma {:induction false} Apart(text: string, lexis: Lexis, marks: seq<Mark>, j: nat, k: nat)
    requires Marked(text, lexis, marks) && j < k < |marks|
    ensures marks[j].end <= marks[k].start
    decreases k
  {
    assert Right(text, lexis, marks, k);
    if j < k - 1 {
      Apart(text, lexis, marks, j, k - 1);
      assert Right(text, lexis, marks, k - 1);
    }
  }

  lemma {:induction false} MarkedPrefix(text: string, lexis: Lexis, marks: seq<Mark>, n: nat)
    requires Marked(text, lexis, marks) && n <= |marks|
    ensures Marked(text, lexis, marks[..n])
  {
    var less := marks[..n];
    forall k | 0 <= k < n ensures Right(text, lexis, less, k) {
      assert Right(text, lexis, marks, k);
      RightSame(text, lexis, less, marks, k);
    }
  }

  // Whether a mark is right depends on it and those before it.
  lemma RightSame(text: string, lexis: Lexis, a: seq<Mark>, b: seq<Mark>, k: nat)
    requires a <= b && k < |a|
    ensures Right(text, lexis, a, k) <==> Right(text, lexis, b, k)
  {
    BalanceSame(a, b, 0, k);
    if a[k].what.Closing? {
      InnermostSame(a, b, a[k].what.opener, k);
      if Innermost(a, a[k].what.opener, k) {
        LinkSame(a, b, a[k].what.opener, k);
      }
    }
  }

  lemma InnermostSame(a: seq<Mark>, b: seq<Mark>, j: nat, k: nat)
    requires a <= b && k <= |a|
    ensures Innermost(a, j, k) <==> Innermost(b, j, k)
    ensures StillOpen(a, j, k) <==> StillOpen(b, j, k)
  {
    forall m | j < m <= k ensures Since(a, j, m) == Since(b, j, m) {
      BalanceSame(a, b, j + 1, m);
    }
  }

  lemma LinkSame(a: seq<Mark>, b: seq<Mark>, j: nat, k: nat)
    requires a <= b && k <= |a|
    ensures LinkBetween(a, j, k) <==> LinkBetween(b, j, k)
  {
    if LinkBetween(a, j, k) {
      var l :| j < l < k && a[l].what.Closing? && a[l].what.kind == Some(Link);
      assert b[l] == a[l];
    }
    if LinkBetween(b, j, k) {
      var l :| j < l < k && b[l].what.Closing? && b[l].what.kind == Some(Link);
      assert b[l] == a[l];
    }
  }

  // What is closed was opened before.
  lemma ClosingOpens(text: string, lexis: Lexis, marks: seq<Mark>, k: nat)
    requires Marked(text, lexis, marks) && k < |marks| && marks[k].what.Closing?
    ensures Innermost(marks, marks[k].what.opener, k) && marks[k].what.opener < k
    ensures marks[k].start < |text| && text[marks[k].start] == ']' && marks[k] == PairMark(lexis, marks, marks[k].what.opener, k)
  {
    assert Right(text, lexis, marks, k);
  }

  // An image covers nothing before the bracket that it opened with, and no other does while that is open.
  lemma CoveredBefore(text: string, lexis: Lexis, marks: seq<Mark>, n: nat, k: nat)
    requires Marked(text, lexis, marks) && 0 < n <= |marks| && marks[n - 1].what.Closing? && k < marks[n - 1].what.opener
    ensures marks[n - 1].what.opener < n
    ensures Covered(marks, k, n) <==> Covered(marks, k, marks[n - 1].what.opener)
  {
    ClosingOpens(text, lexis, marks, n - 1);
    var o := marks[n - 1].what.opener;
    if Covered(marks, k, n) {
      var l :| k < l < n && IsImage(marks[l]) && marks[l].what.opener < k;
      ClosingOpens(text, lexis, marks, l);
      if o < l < n - 1 {
        NoCross(marks, marks[l].what.opener, o, l, n - 1);
      }
      assert l < o;
    }
    if Covered(marks, k, o) {
      var l :| k < l < o && IsImage(marks[l]) && marks[l].what.opener < k;
      assert l < n;
    }
  }

  // A mark more covers what it closes around.
  lemma CoveredMore(marks: seq<Mark>, k: nat, n: nat)
    requires k + 1 < n <= |marks|
    ensures Covered(marks, k, n) <==>
              Covered(marks, k, n - 1) || (IsImage(marks[n - 1]) && marks[n - 1].what.opener < k)
  {
  }

  // The item is found by a mark that no image covers.
  ghost predicate Finds(marks: seq<Mark>, k: nat, n: nat, x: Item)
    requires n <= |marks|
  {
    k < n && ItemOf(marks, k) == Some(x) && !Covered(marks, k, n)
  }

  // What is listed is what such marks find.
  lemma {:induction false} ListedFinds(text: string, lexis: Lexis, marks: seq<Mark>, n: nat, x: Item)
    requires Marked(text, lexis, marks) && n <= |marks|
    ensures x in Listed(marks, n) <==> exists k: nat :: Finds(marks, k, n, x)
  {
    if n > 0 {
      var m := marks[n - 1];
      var before := Kept(m, n - 1);
      ListedFinds(text, lexis, marks, before, x);
      if IsImage(m) {
        ClosingOpens(text, lexis, marks, n - 1);
      }
      assert x in Listed(marks, n) <==> x in Listed(marks, before) || ItemOf(marks, n - 1) == Some(x);
      forall k: nat ensures Finds(marks, k, n, x) <==>
                              Finds(marks, k, before, x) || (k == n - 1 && ItemOf(marks, k) == Some(x))
      {
        FindsMore(text, lexis, marks, n, before, k, x);
      }
    }
  }

  lemma FindsMore(text: string, lexis: Lexis, marks: seq<Mark>, n: nat, before: nat, k: nat, x: Item)
    requires Marked(text, lexis, marks) && 0 < n <= |marks|
    requires before == (if IsImage(marks[n - 1]) then marks[n - 1].what.opener else n - 1) < n
    ensures Finds(marks, k, n, x) <==>
              Finds(marks, k, before, x) || (k == n - 1 && ItemOf(marks, k) == Some(x))
  {
    if k + 1 < n {
      CoveredMore(marks, k, n);
      if IsImage(marks[n - 1]) {
        ClosingOpens(text, lexis, marks, n - 1);
        if k < before {
          CoveredBefore(text, lexis, marks, n, k);
        }
      }
    }
  }

  // There is one list of marks that reaches the end of a text.
  lemma {:induction false} MarkedUnique(text: string, lexis: Lexis, a: seq<Mark>, b: seq<Mark>, n: nat)
    requires Marked(text, lexis, a) && Marked(text, lexis, b) && Reached(a) == Reached(b) == |text|
    requires n <= |a| && n <= |b| && a[..n] == b[..n]
    ensures a == b
    decreases |a| - n
  {
    assert Reached(a[..n]) == Reached(b[..n]);
    if n < |a| && n < |b| {
      assert Right(text, lexis, a, n) && Right(text, lexis, b, n);
      RightUnique(text, lexis, a, b, n);
      assert a[..n + 1] == a[..n] + [a[n]] && b[..n + 1] == b[..n] + [b[n]];
      MarkedUnique(text, lexis, a, b, n + 1);
    } else {
      ReachedEnds(text, lexis, a, n);
      ReachedEnds(text, lexis, b, n);
    }
  }

  // Marks that reach the end have none after it.
  lemma ReachedEnds(text: string, lexis: Lexis, marks: seq<Mark>, n: nat)
    requires Marked(text, lexis, marks) && n <= |marks| && Reached(marks) <= |text|
    ensures n < |marks| ==> Reached(marks[..n]) < |text|
    ensures n == |marks| ==> marks[..n] == marks
  {
    if n < |marks| {
      assert Right(text, lexis, marks, n);
    }
  }

  lemma RightUnique(text: string, lexis: Lexis, a: seq<Mark>, b: seq<Mark>, n: nat)
    requires n < |a| && n < |b| && a[..n] == b[..n]
    requires Right(text, lexis, a, n) && Right(text, lexis, b, n)
    ensures a[n] == b[n]
  {
    var c := a[..n];
    assert c <= a && c <= b;
    BalanceSame(c, a, 0, n);
    BalanceSame(c, b, 0, n);
    assert n > 0 ==> a[n - 1] == c[n - 1] == b[n - 1];
    if text[a[n].start] == '`' {
      TicksUnique(text, a[n], b[n]);
    } else if a[n].what.Closing? {
      var j := a[n].what.opener;
      assert b[n].what.Closing?;
      InnermostSame(c, a, j, n);
      InnermostSame(c, b, b[n].what.opener, n);
      InnermostUnique(c, j, b[n].what.opener, n);
      LinkSame(c, a, j, n);
      LinkSame(c, b, j, n);
      assert a[j] == c[j] == b[j];
    }
  }

  lemma TicksUnique(text: string, m: Mark, o: Mark)
    requires m.start == o.start && RightTicks(text, m) && RightTicks(text, o)
    ensures m == o
  {
  }
}
