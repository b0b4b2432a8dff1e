/** Columns of a line whose tab stops are four apart, and the walk over its indentation, which may stop
    inside a tab. */
module Tabs {
  predicate Blank(c: char) {
    c == ' ' || c == '\t'
  }

  function Step(c: char, column: nat): (n: nat)
    ensures 1 <= n <= 4
  {
    if c == '\t' then 4 - column % 4 else 1
  }

  // The column after a text that starts at a column.
  function Through(text: string, column: nat): nat {
    if text == [] then column else Through(text[1..], column + Step(text[0], column))
  }

  datatype Place = Place(index: nat, column: nat)

  // The place after the spaces and tabs at another.
  function Indented(text: string, p: Place): (r: Place)
    requires p.index <= |text|
    ensures p.index <= r.index <= |text|
    decreases |text| - p.index
  {
    if p.index < |text| && Blank(text[p.index]) then
      Indented(text, Place(p.index + 1, p.column + Step(text[p.index], p.column)))
    else
      p
  }

  // The place after at most the spaces and tabs up to a column.
  function Advanced(text: string, p: Place, end: nat): (r: Place)
    requires p.index <= |text|
    ensures p.index <= r.index <= |text|
    decreases |text| - p.index
  {
    if p.column < end && p.index < |text| && Blank(text[p.index]) then
      var column := p.column + Step(text[p.index], p.column);
      if column > end then Place(p.index, end) else Advanced(text, Place(p.index + 1, column), end)
    else
      p
  }

  method Indent(text: string, p: Place) returns (r: Place)
    requires p.index <= |text|
    ensures r == Indented(text, p)
    ensures p.index <= r.index <= |text| && r.column == Through(text[p.index..r.index], p.column)
    ensures forall i :: p.index <= i < r.index ==> Blank(text[i])
    ensures r.index < |text| ==> !Blank(text[r.index])
  {
    r := p;
    while r.index < |text| && Blank(text[r.index])
      invariant p.index <= r.index <= |text| && Indented(text, r) == Indented(text, p)
      decreases |text| - r.index
    {
      r := Place(r.index + 1, r.column + Step(text[r.index], r.column));
    }
    IndentedMeans(text, p);
  }

  lemma {:induction false} IndentedMeans(text: string, p: Place)
    requires p.index <= |text|
    ensures
      var r := Indented(text, p);
      && r.column == Through(text[p.index..r.index], p.column)
      && (forall i :: p.index <= i < r.index ==> Blank(text[i]))
      && (r.index < |text| ==> !Blank(text[r.index]))
    decreases |text| - p.index
  {
    if p.index < |text| && Blank(text[p.index]) {
      var r := Indented(text, p);
      IndentedMeans(text, Place(p.index + 1, p.column + Step(text[p.index], p.column)));
      assert text[p.index..r.index][1..] == text[p.index + 1..r.index];
    }
  }

  method Advance(text: string, p: Place, columns: nat) returns (r: Place)
    requires p.index <= |text|
    ensures r == Advanced(text, p, p.column + columns)
    ensures p.column <= r.column <= p.column + columns
    ensures r.column == p.column + columns || r == Indented(text, p)
  {
    var end := p.column + columns;
    r := p;
    while r.column < end && r.index < |text| && Blank(text[r.index])
      invariant p.index <= r.index <= |text| && p.column <= r.column <= end
      invariant Advanced(text, r, end) == Advanced(text, p, end)
      invariant Indented(text, r) == Indented(text, p)
      decreases |text| - r.index
    {
      var step := Step(text[r.index], r.column);
      if r.column + step > end {
        return Place(r.index, end);
      }
      r := Place(r.index + 1, r.column + step);
    }
  }

  lemma {:induction false} ThroughMore(text: string, c: char, column: nat)
    ensures Through(text + [c], column) == Through(text, column) + Step(c, Through(text, column))
    decreases |text|
  {
    if text == [] {
      assert Through([c], column) == Through([], column + Step(c, column));
    } else {
      assert (text + [c])[1..] == text[1..] + [c];
      ThroughMore(text[1..], c, column + Step(text[0], column));
    }
  }

  // A tab ends at the same column from wherever inside it.
  lemma SameStop(column: nat, inside: nat)
    requires column <= inside < column + Step('\t', column)
    ensures inside + Step('\t', inside) == column + Step('\t', column)
  {
  }

  lemma {:induction false} AdvancedTwice(text: string, p: Place, end: nat, later: nat)
    requires p.index <= |text| && end <= later
    ensures Advanced(text, Advanced(text, p, end), later) == Advanced(text, p, later)
    decreases |text| - p.index
  {
    if p.column < end && p.index < |text| && Blank(text[p.index]) {
      var column := p.column + Step(text[p.index], p.column);
      if column > end {
        SameStop(p.column, end);
      } else {
        AdvancedTwice(text, Place(p.index + 1, column), end, later);
      }
    }
  }

  lemma {:induction false} AdvancedStops(text: string, p: Place, end: nat)
    requires p.index <= |text|
    ensures
      var r := Advanced(text, p, end);
      r.column >= end || r.index == |text| || !Blank(text[r.index])
    decreases |text| - p.index
  {
    if p.column < end && p.index < |text| && Blank(text[p.index]) {
      var column := p.column + Step(text[p.index], p.column);
      if column <= end {
        AdvancedStops(text, Place(p.index + 1, column), end);
      }
    }
  }

  lemma {:induction false} AdvancedColumn(text: string, p: Place, end: nat)
    requires p.index <= |text| && p.column <= end
    ensures p.column <= Advanced(text, p, end).column <= end
    decreases |text| - p.index
  {
    if p.column < end && p.index < |text| && Blank(text[p.index]) {
      var column := p.column + Step(text[p.index], p.column);
      if column <= end {
        AdvancedColumn(text, Place(p.index + 1, column), end);
      }
    }
  }

  // To advance twice is to advance by the sum, wherever it stops in between.
  lemma AdvanceComposes(text: string, p: Place, a: nat, b: nat)
    requires p.index <= |text|
    ensures
      var mid := Advanced(text, p, p.column + a);
      Advanced(text, mid, mid.column + b) == Advanced(text, p, p.column + a + b)
  {
    AdvancedColumn(text, p, p.column + a);
    AdvancedStops(text, p, p.column + a);
    AdvancedTwice(text, p, p.column + a, p.column + a + b);
  }

  // The indentation ends where it did, however far an advance went into it.
  lemma {:induction false} IndentAfterAdvance(text: string, p: Place, end: nat)
    requires p.index <= |text|
    ensures Indented(text, Advanced(text, p, end)) == Indented(text, p)
    decreases |text| - p.index
  {
    if p.column < end && p.index < |text| && Blank(text[p.index]) {
      var column := p.column + Step(text[p.index], p.column);
      if column > end {
        SameStop(p.column, end);
      } else {
        IndentAfterAdvance(text, Place(p.index + 1, column), end);
      }
    }
  }

  // A place of a line: its column is that of its character, or inside it when that is a tab.
  ghost predicate Within(line: string, p: Place) {
    && p.index <= |line|
    && var start := Through(line[..p.index], 0);
       start <= p.column < start + (if p.index < |line| then Step(line[p.index], start) else 1)
  }

  lemma WithinNext(line: string, p: Place)
    requires Within(line, p) && p.index < |line|
    ensures Within(line, Place(p.index + 1, p.column + Step(line[p.index], p.column)))
  {
    var start := Through(line[..p.index], 0);
    ThroughMore(line[..p.index], line[p.index], 0);
    assert line[..p.index + 1] == line[..p.index] + [line[p.index]];
    if line[p.index] == '\t' {
      SameStop(start, p.column);
    }
  }

  lemma {:induction false} IndentedWithin(line: string, p: Place)
    requires Within(line, p)
    ensures Within(line, Indented(line, p))
    decreases |line| - p.index
  {
    if p.index < |line| && Blank(line[p.index]) {
      WithinNext(line, p);
      IndentedWithin(line, Place(p.index + 1, p.column + Step(line[p.index], p.column)));
    }
  }

  lemma {:induction false} AdvancedWithin(line: string, p: Place, end: nat)
    requires Within(line, p)
    ensures Within(line, Advanced(line, p, end))
    decreases |line| - p.index
  {
    if p.column < end && p.index < |line| && Blank(line[p.index]) {
      var column := p.column + Step(line[p.index], p.column);
      if column > end {
        SameStop(Through(line[..p.index], 0), p.column);
      } else {
        WithinNext(line, p);
        AdvancedWithin(line, Place(p.index + 1, column), end);
      }
    }
  }

  // Goes past the ">" of a quote, and past one blank column, should there be one.
  method Quote(line: string, p: Place) returns (r: Place)
    requires Within(line, p) && p.index < |line| && line[p.index] == '>'
    ensures Within(line, r) && p.column + 1 <= r.column <= p.column + 2
    ensures Indented(line, r) == Indented(line, Place(p.index + 1, p.column + 1))
  {
    WithinNext(line, p);
    var after := Place(p.index + 1, p.column + 1);
    r := Advance(line, after, 1);
    AdvancedWithin(line, after, after.column + 1);
    IndentAfterAdvance(line, after, after.column + 1);
  }

  // What of a tab remains at a place inside it, and nothing elsewhere.
  ghost predicate Remains(line: string, p: Place, pad: nat)
    requires p.index <= |line|
  {
    var start := Through(line[..p.index], 0);
    if p.column > start then
      p.index < |line| && line[p.index] == '\t' && pad > 0 && (p.column - start) + pad == Step('\t', start)
    else
      pad == 0
  }

  // The spaces that a tab consumed in part is rendered as.
  method Pad(line: string, p: Place) returns (pad: nat)
    requires Within(line, p)
    ensures Remains(line, p, pad)
  {
    if p.index >= |line| || line[p.index] != '\t' {
      return 0;
    }
    var start := 0;
    for i := 0 to p.index
      invariant start == Through(line[..i], 0)
    {
      ThroughMore(line[..i], line[i], 0);
      assert line[..i + 1] == line[..i] + [line[i]];
      start := start + Step(line[i], start);
    }
    SameStop(start, p.column);
    return if p.column > start then Step('\t', p.column) else 0;
  }

  function Spaces(n: nat): string {
    seq(n, _ => ' ')
  }

  lemma {:induction false} ThroughConcat(a: string, b: string, column: nat)
    ensures Through(a + b, column) == Through(b, Through(a, column))
    decreases |a|
  {
    if a == [] {
      assert a + b == b;
    } else {
      assert (a + b)[1..] == a[1..] + b;
      ThroughConcat(a[1..], b, column + Step(a[0], column));
    }
  }

  lemma {:induction false} ThroughSpaces(n: nat, column: nat)
    ensures Through(Spaces(n), column) == column + n
  {
    if n > 0 {
      assert Spaces(n)[1..] == Spaces(n - 1);
      ThroughSpaces(n - 1, column + 1);
    }
  }

  lemma Parts(line: string, from: nat, end: nat)
    requires from <= end <= |line|
    ensures line[..from] + line[from..end] == line[..end]
  {
  }

  // The content from a place, with what remains of a tab as spaces, keeps the columns of the line.
  lemma PadKeepsColumns(line: string, p: Place, pad: nat, end: nat)
    requires Within(line, p)
    requires p.index <= end <= |line| && (pad > 0 ==> p.index < end)
    requires Remains(line, p, pad)
    ensures Through(Spaces(pad) + line[if pad > 0 then p.index + 1 else p.index..end], p.column) == Through(line[..end], 0)
  {
    var from := if pad > 0 then p.index + 1 else p.index;
    ThroughConcat(Spaces(pad), line[from..end], p.column);
    ThroughSpaces(pad, p.column);
    ThroughConcat(line[..from], line[from..end], 0);
    Parts(line, from, end);
    if pad > 0 {
      ThroughMore(line[..p.index], line[p.index], 0);
      assert line[..from] == line[..p.index] + [line[p.index]];
    }
  }
}
