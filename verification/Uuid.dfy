/** UUIDs as bytes, and the single text that stands for each. */
module Uuid {
  import opened Options

  type Byte = n: int | 0 <= n < 256

  const HYPHEN: Byte := '-' as int
  const TEXT_LEN: nat := 36

  predicate Hyphen(offset: nat) {
    offset == 8 || offset == 13 || offset == 18 || offset == 23
  }

  // The offset of a digit, with the hyphens before it.
  function Offset(k: nat): (offset: nat) {
    k + (if k < 8 then 0 else if k < 12 then 1 else if k < 16 then 2 else if k < 20 then 3 else 4)
  }

  // The digits have the offsets that the hyphens leave, in order.
  lemma OffsetsAreTheRest(offset: nat)
    requires offset < TEXT_LEN
    ensures !Hyphen(offset) <==> exists k :: 0 <= k < 32 && Offset(k) == offset
    ensures forall k, l :: 0 <= k < l < 32 ==> Offset(k) < Offset(l) < TEXT_LEN
  {
    if !Hyphen(offset) {
      var k := if offset < 8 then offset else if offset < 13 then offset - 1 else if offset < 18 then offset - 2
        else if offset < 23 then offset - 3 else offset - 4;
      assert Offset(k) == offset;
    }
  }

  // The value of a lowercase digit.
  function Value(c: Byte): Option<nat> {
    if '0' as int <= c <= '9' as int then Some(c - '0' as int)
    else if 'a' as int <= c <= 'f' as int then Some(c - 'a' as int + 10)
    else None
  }

  function Digit(value: nat): (c: Byte)
    requires value < 16
    ensures c != HYPHEN
  {
    if value < 10 then '0' as int + value else 'a' as int + value - 10
  }

  lemma DigitOfValue(c: Byte)
    ensures Value(c).Some? ==> Value(c).value < 16 && Digit(Value(c).value) == c
    ensures forall v :: 0 <= v < 16 && Digit(v) == c ==> Value(c) == Some(v)
  {
  }

  // The digits at two offsets of a text are those of a byte.
  predicate Writes(text: seq<Byte>, n: nat, byte: Byte)
    requires |text| == TEXT_LEN && n < 16
  {
    text[Offset(2 * n)] == Digit(byte / 16) && text[Offset(2 * n + 1)] == Digit(byte % 16)
  }

  // A text is that of a UUID.
  predicate IsText(text: seq<Byte>, bytes: seq<Byte>) {
    && |text| == TEXT_LEN && |bytes| == 16
    && (forall offset :: 0 <= offset < TEXT_LEN && Hyphen(offset) ==> text[offset] == HYPHEN)
    && (forall n :: 0 <= n < 16 ==> Writes(text, n, bytes[n]))
  }

  lemma TextHasDigits(text: seq<Byte>, bytes: seq<Byte>, n: nat)
    requires IsText(text, bytes) && n < 16
    ensures Value(text[Offset(2 * n)]).Some? && Value(text[Offset(2 * n + 1)]).Some?
  {
    assert Writes(text, n, bytes[n]);
    DigitOfValue(text[Offset(2 * n)]);
    DigitOfValue(text[Offset(2 * n + 1)]);
  }

  // Parses exactly the texts of UUIDs.
  method Parse(text: seq<Byte>) returns (r: Option<seq<Byte>>)
    ensures r.Some? ==> IsText(text, r.value)
    ensures r.None? ==> forall bytes :: !IsText(text, bytes)
  {
    if |text| != TEXT_LEN || text[8] != HYPHEN || text[13] != HYPHEN || text[18] != HYPHEN || text[23] != HYPHEN {
      return None;
    }
    var bytes: seq<Byte> := [];
    for n := 0 to 16
      invariant |bytes| == n && forall i :: 0 <= i < n ==> Writes(text, i, bytes[i])
    {
      var high, low := Value(text[Offset(2 * n)]), Value(text[Offset(2 * n + 1)]);
      forall bytes | IsText(text, bytes) ensures high.Some? && low.Some? {
        TextHasDigits(text, bytes, n);
      }
      DigitOfValue(text[Offset(2 * n)]);
      DigitOfValue(text[Offset(2 * n + 1)]);
      if high.None? || low.None? {
        return None;
      }
      var byte := high.value * 16 + low.value;
      assert byte / 16 == high.value && byte % 16 == low.value;
      bytes := bytes + [byte];
    }
    return Some(bytes);
  }

  // Writes the text of a UUID.
  method Display(bytes: seq<Byte>) returns (text: seq<Byte>)
    requires |bytes| == 16
    ensures IsText(text, bytes)
  {
    text := [];
    for n := 0 to 16
      invariant |text| == Length(n)
      invariant forall offset :: 0 <= offset < |text| && Hyphen(offset) ==> text[offset] == HYPHEN
      invariant forall i :: 0 <= i < n ==>
                  && Offset(2 * i + 1) < |text|
                  && text[Offset(2 * i)] == Digit(bytes[i] / 16) && text[Offset(2 * i + 1)] == Digit(bytes[i] % 16)
    {
      if n == 4 || n == 6 || n == 8 || n == 10 {
        text := text + [HYPHEN];
      }
      text := text + [Digit(bytes[n] / 16), Digit(bytes[n] % 16)];
    }
  }

  // How much of the text the first bytes take.
  function Length(n: nat): nat {
    if n == 0 then 0 else Offset(2 * n - 1) + 1
  }

  // No two UUIDs share a text, and no two texts are of one UUID.
  lemma TextsAreUnique(a: seq<Byte>, x: seq<Byte>, b: seq<Byte>, y: seq<Byte>)
    requires IsText(a, x) && IsText(b, y)
    ensures a == b <==> x == y
  {
    if a == b {
      forall n | 0 <= n < 16 ensures x[n] == y[n] {
        SameByte(a, n, x[n], y[n]);
      }
    }
    if x == y {
      forall offset | 0 <= offset < TEXT_LEN ensures a[offset] == b[offset] {
        SameAt(a, b, x, offset);
      }
    }
  }

  lemma SameByte(text: seq<Byte>, n: nat, x: Byte, y: Byte)
    requires |text| == TEXT_LEN && n < 16 && Writes(text, n, x) && Writes(text, n, y)
    ensures x == y
  {
  }

  lemma SameAt(a: seq<Byte>, b: seq<Byte>, x: seq<Byte>, offset: nat)
    requires IsText(a, x) && IsText(b, x) && offset < TEXT_LEN
    ensures a[offset] == b[offset]
  {
    if !Hyphen(offset) {
      OffsetsAreTheRest(offset);
      var k :| 0 <= k < 32 && Offset(k) == offset;
      var n := k / 2;
      assert k == 2 * n || k == 2 * n + 1;
      assert Writes(a, n, x[n]) && Writes(b, n, x[n]);
    }
  }

  // What is displayed parses as itself.
  method ParseDisplayed(bytes: seq<Byte>) returns (r: Option<seq<Byte>>)
    requires |bytes| == 16
    ensures r == Some(bytes)
  {
    var text := Display(bytes);
    r := Parse(text);
    TextsAreUnique(text, bytes, text, r.value);
  }

  // What parses displays as itself.
  method DisplayParsed(text: seq<Byte>) returns (r: Option<seq<Byte>>)
    ensures r.Some? ==> r.value == text
    ensures r.None? ==> forall bytes :: !IsText(text, bytes)
  {
    var bytes := Parse(text);
    if bytes.None? {
      return None;
    }
    var again := Display(bytes.value);
    TextsAreUnique(text, bytes.value, again, bytes.value);
    return Some(again);
  }

  // The layout that GPT stores, which differs in the order of the leading eight bytes.
  function SwapGroups(b: seq<Byte>): (r: seq<Byte>)
    requires |b| == 16
    ensures |r| == 16
  {
    [b[3], b[2], b[1], b[0], b[5], b[4], b[7], b[6]] + b[8..]
  }

  function BigEndian(b: seq<Byte>): nat {
    if b == [] then 0 else BigEndian(b[..|b| - 1]) * 256 + b[|b| - 1]
  }

  function LittleEndian(b: seq<Byte>): nat {
    if b == [] then 0 else LittleEndian(b[1..]) * 256 + b[0]
  }

  function Reversed(b: seq<Byte>): (r: seq<Byte>)
    ensures |r| == |b|
    ensures forall i :: 0 <= i < |b| ==> r[i] == b[|b| - 1 - i]
  {
    seq(|b|, i requires 0 <= i < |b| => b[|b| - 1 - i])
  }

  lemma {:induction false} ReversedEndian(b: seq<Byte>)
    ensures LittleEndian(Reversed(b)) == BigEndian(b)
  {
    if b != [] {
      assert Reversed(b)[1..] == Reversed(b[..|b| - 1]);
      ReversedEndian(b[..|b| - 1]);
    }
  }

  // The conversion undoes itself, and stores the first three groups of the text little-endian.
  lemma SwapGroupsConverts(b: seq<Byte>)
    requires |b| == 16
    ensures SwapGroups(SwapGroups(b)) == b
    ensures
      var r := SwapGroups(b);
      && LittleEndian(r[..4]) == BigEndian(b[..4]) && LittleEndian(r[4..6]) == BigEndian(b[4..6])
      && LittleEndian(r[6..8]) == BigEndian(b[6..8]) && r[8..] == b[8..]
  {
    var r := SwapGroups(b);
    assert r[..4] == Reversed(b[..4]) && r[4..6] == Reversed(b[4..6]) && r[6..8] == Reversed(b[6..8]);
    ReversedEndian(b[..4]);
    ReversedEndian(b[4..6]);
    ReversedEndian(b[6..8]);
  }
}
