/** UTF-16 text and the splice that predicts what typing will produce.

Element text is a sequence of Unicode scalar values; selections are ranges of UTF-16 code units. */
module Utf16 {
  import opened Common

  type Scalar = c: int | (0 <= c < 0xD800) || (0xE000 <= c <= 0x10FFFF)

  type Unit = u: int | 0 <= u <= 0xFFFF

  predicate IsHigh(u: Unit) {
    0xD800 <= u < 0xDC00
  }

  predicate IsLow(u: Unit) {
    0xDC00 <= u < 0xE000
  }

  function EncodeScalar(c: Scalar): seq<Unit> {
    if c < 0x1_0000 then [c] else [0xD800 + (c - 0x1_0000) / 0x400, 0xDC00 + (c - 0x1_0000) % 0x400]
  }

  function Encode(text: seq<Scalar>): seq<Unit> {
    if text == [] then [] else EncodeScalar(text[0]) + Encode(text[1..])
  }

  function Combine(high: Unit, low: Unit): Scalar
    requires IsHigh(high) && IsLow(low)
  {
    0x1_0000 + (high - 0xD800) * 0x400 + (low - 0xDC00)
  }

  function Prepend(c: Scalar, rest: Option<seq<Scalar>>): Option<seq<Scalar>> {
    if rest.Some? then Some([c] + rest.value) else None
  }

  /** Fails exactly on an unpaired surrogate. */
  function Decode(units: seq<Unit>): Option<seq<Scalar>> {
    if units == [] then Some([])
    else if IsHigh(units[0]) then
      if |units| > 1 && IsLow(units[1]) then Prepend(Combine(units[0], units[1]), Decode(units[2..])) else None
    else if IsLow(units[0]) then None
    else Prepend(units[0], Decode(units[1..]))
  }

  /** Code-unit offset `n` lies between two scalar values of the text. */
  ghost predicate IsBoundary(text: seq<Scalar>, n: nat) {
    exists k :: 0 <= k <= |text| && n == |Encode(text[..k])|
  }

  lemma {:induction false} EncodeAppend(a: seq<Scalar>, b: seq<Scalar>)
    ensures Encode(a + b) == Encode(a) + Encode(b)
  {
    if a == [] {
      assert a + b == b;
    } else {
      calc {
        Encode(a + b);
      == { assert (a + b)[0] == a[0] && (a + b)[1..] == a[1..] + b; }
        EncodeScalar(a[0]) + Encode(a[1..] + b);
      == { EncodeAppend(a[1..], b); }
        EncodeScalar(a[0]) + (Encode(a[1..]) + Encode(b));
      == // concatenation is associative
        Encode(a) + Encode(b);
      }
    }
  }

  lemma DecodeHead(c: Scalar, units: seq<Unit>)
    ensures Decode(EncodeScalar(c) + units) == Prepend(c, Decode(units))
  {
    var all := EncodeScalar(c) + units;
    if c < 0x1_0000 {
      assert all[1..] == units;
    } else {
      assert all[2..] == units;
      assert Combine(all[0], all[1]) == c;
    }
  }

  lemma {:induction false} DecodeEncode(text: seq<Scalar>)
    ensures Decode(Encode(text)) == Some(text)
  {
    if text != [] {
      DecodeEncode(text[1..]);
      DecodeHead(text[0], Encode(text[1..]));
      assert text == [text[0]] + text[1..];
    }
  }

  lemma {:induction false} EncodeDecode(units: seq<Unit>)
    requires Decode(units).Some?
    ensures Encode(Decode(units).value) == units
    decreases |units|
  {
    if units != [] {
      var width := if IsHigh(units[0]) then 2 else 1;
      var rest := units[width..];
      EncodeDecode(rest);
      var decoded := Decode(units).value;
      assert decoded[1..] == Decode(rest).value;
      assert EncodeScalar(decoded[0]) == units[..width];
      assert units == units[..width] + rest;
    }
  }

  /** Encoding loses nothing: it is injective, with `Decode` as its inverse. */
  lemma EncodeInjective(a: seq<Scalar>, b: seq<Scalar>)
    requires Encode(a) == Encode(b)
    ensures a == b
  {
    DecodeEncode(a);
    DecodeEncode(b);
  }

  lemma BoundarySplit(text: seq<Scalar>, k: nat)
    requires k <= |text|
    ensures |Encode(text[..k])| <= |Encode(text)|
    ensures Encode(text)[..|Encode(text[..k])|] == Encode(text[..k])
    ensures Encode(text)[|Encode(text[..k])|..] == Encode(text[k..])
  {
    EncodeAppend(text[..k], text[k..]);
    assert text == text[..k] + text[k..];
  }

  /** A cut of encoded text decodes on its left, or on its right, exactly at scalar boundaries. */
  lemma {:induction false} CutDecodes(text: seq<Scalar>, n: nat)
    requires n <= |Encode(text)|
    ensures Decode(Encode(text)[..n]).Some? <==> IsBoundary(text, n)
    ensures Decode(Encode(text)[n..]).Some? <==> IsBoundary(text, n)
    decreases |text|, 1
  {
    if n == 0 {
      assert Encode(text[..0]) == [];
      DecodeEncode(text);
      assert Encode(text)[0..] == Encode(text);
    } else if n < |EncodeScalar(text[0])| {
      InsidePair(text, n);
    } else {
      CutLater(text, n);
    }
  }

  /** Between the two units of a surrogate pair nothing decodes and there is no boundary. */
  lemma InsidePair(text: seq<Scalar>, n: nat)
    requires text != [] && 0 < n < |EncodeScalar(text[0])|
    ensures Decode(Encode(text)[..n]).None? && Decode(Encode(text)[n..]).None? && !IsBoundary(text, n)
  {
    var units := Encode(text);
    assert IsHigh(units[..n][0]) && IsLow(units[n..][0]);
    forall k | 0 <= k <= |text|
      ensures n != |Encode(text[..k])|
    {
      if k > 0 {
        assert Encode(text[..k]) == EncodeScalar(text[0]) + Encode(text[..k][1..]);
      }
    }
  }

  lemma EncodeHead(text: seq<Scalar>, n: nat)
    requires text != [] && |EncodeScalar(text[0])| <= n <= |Encode(text)|
    ensures var m := n - |EncodeScalar(text[0])|;
            && m <= |Encode(text[1..])|
            && Encode(text)[..n] == EncodeScalar(text[0]) + Encode(text[1..])[..m]
            && Encode(text)[n..] == Encode(text[1..])[m..]
  {
    CutPastHead(EncodeScalar(text[0]), Encode(text[1..]), n);
  }

  lemma CutPastHead(head: seq<Unit>, tail: seq<Unit>, n: nat)
    requires |head| <= n <= |head| + |tail|
    ensures (head + tail)[..n] == head + tail[..n - |head|]
    ensures (head + tail)[n..] == tail[n - |head|..]
  {
  }

  lemma CutLater(text: seq<Scalar>, n: nat)
    requires text != [] && |EncodeScalar(text[0])| <= n <= |Encode(text)|
    ensures Decode(Encode(text)[..n]).Some? <==> IsBoundary(text, n)
    ensures Decode(Encode(text)[n..]).Some? <==> IsBoundary(text, n)
    decreases |text|, 0
  {
    var m := n - |EncodeScalar(text[0])|;
    var tail := text[1..];
    EncodeHead(text, n);
    DecodeHead(text[0], Encode(tail)[..m]);
    CutDecodes(tail, m);
    ShiftBoundary(text, n);
  }

  lemma ShiftBoundary(text: seq<Scalar>, n: nat)
    requires text != [] && |EncodeScalar(text[0])| <= n
    ensures IsBoundary(text, n) <==> IsBoundary(text[1..], n - |EncodeScalar(text[0])|)
  {
    var m := n - |EncodeScalar(text[0])|;
    if IsBoundary(text, n) {
      var k :| 0 <= k <= |text| && n == |Encode(text[..k])|;
      assert k > 0;
      assert text[..k][1..] == text[1..][..k - 1];
      assert m == |Encode(text[1..][..k - 1])|;
    }
    if IsBoundary(text[1..], m) {
      var k :| 0 <= k <= |text[1..]| && m == |Encode(text[1..][..k])|;
      assert text[..k + 1][1..] == text[1..][..k];
      assert n == |Encode(text[..k + 1])|;
    }
  }

  // ---------------------------------------------------------------- expected insertion

  datatype Range = Range(start: nat, end: nat)

  /** The range typing replaces: the selection, or the empty range of an empty text. */
  function InsertionRange(before: seq<Scalar>, selection: Option<Range>): Option<Range> {
    if selection.Some? then selection else if before == [] then Some(Range(0, 0)) else None
  }

  ghost predicate Insertable(before: seq<Scalar>, range: Range) {
    && range.start <= range.end <= |Encode(before)|
    && IsBoundary(before, range.start) && IsBoundary(before, range.end)
  }

  /** The value typing is expected to leave, as a function of what was there. */
  ghost function ExpectedText(before: seq<Scalar>, text: seq<Scalar>, selection: Option<Range>): Option<seq<Scalar>> {
    var range := InsertionRange(before, selection);
    if range.None? || !Insertable(before, range.value) then None
    else Decode(Encode(before)[..range.value.start] + Encode(text) + Encode(before)[range.value.end..])
  }

  lemma SpliceDecodes(before: seq<Scalar>, text: seq<Scalar>, i: nat, j: nat)
    requires i <= |before| && j <= |before|
    ensures |Encode(before[..i])| <= |Encode(before)| && |Encode(before[..j])| <= |Encode(before)|
    ensures Decode(Encode(before)[..|Encode(before[..i])|] + Encode(text) + Encode(before)[|Encode(before[..j])|..])
         == Some(before[..i] + text + before[j..])
  {
    BoundarySplit(before, i);
    BoundarySplit(before, j);
    EncodeAppend(before[..i], text);
    EncodeAppend(before[..i] + text, before[j..]);
    DecodeEncode(before[..i] + text + before[j..]);
  }

  /** Wherever both ends of the range are boundaries the splice decodes, to prefix, text and suffix. */
  lemma SpliceAtCuts(before: seq<Scalar>, text: seq<Scalar>, range: Range)
    requires Insertable(before, range)
    ensures var r := Decode(Encode(before)[..range.start] + Encode(text) + Encode(before)[range.end..]);
            && r.Some?
            && forall i, j :: 0 <= i <= |before| && 0 <= j <= |before|
                              && |Encode(before[..i])| == range.start && |Encode(before[..j])| == range.end ==>
                                r.value == before[..i] + text + before[j..]
  {
    forall i, j | 0 <= i <= |before| && 0 <= j <= |before|
                  && |Encode(before[..i])| == range.start && |Encode(before[..j])| == range.end
      ensures Decode(Encode(before)[..range.start] + Encode(text) + Encode(before)[range.end..])
           == Some(before[..i] + text + before[j..])
    {
      SpliceDecodes(before, text, i, j);
    }
  }

  /** Splices the code units in place. There is a result exactly when the range is in bounds and both
  its ends are scalar boundaries; it is then prefix, inserted text and suffix, and the last decode
  cannot fail. */
  method ExpectedInsertion(before: seq<Scalar>, text: seq<Scalar>, selection: Option<Range>)
    returns (r: Option<seq<Scalar>>)
    ensures r == ExpectedText(before, text, selection)
    ensures r.Some? <==> && InsertionRange(before, selection).Some?
                         && Insertable(before, InsertionRange(before, selection).value)
    ensures r.Some? ==> forall i, j :: 0 <= i <= |before| && 0 <= j <= |before|
                                       && |Encode(before[..i])| == InsertionRange(before, selection).value.start
                                       && |Encode(before[..j])| == InsertionRange(before, selection).value.end ==>
                                         r.value == before[..i] + text + before[j..]
  {
    var chosen := InsertionRange(before, selection);
    if chosen.None? {
      return None;
    }
    var range := chosen.value;
    var value := Encode(before);
    if range.start > range.end || range.end > |value| {
      return None;
    }
    CutDecodes(before, range.start);
    CutDecodes(before, range.end);
    if Decode(value[..range.start]).None? {
      return None;
    }
    if Decode(value[range.end..]).None? {
      return None;
    }
    SpliceAtCuts(before, text, range);
    value := value[..range.start] + Encode(text) + value[range.end..];
    r := Decode(value);
  }
}
