/**
  Offsets into text, measured in UTF-8 bytes (section 3 of RFC 3629) or UTF-16 code units
  (section 2.1 of RFC 2781). Text is a sequence of Unicode scalar values; both measures are
  prefix sums of the same kind, so everything below is proved once for either.
*/
module Utf {
  datatype Encoding = Utf8 | Utf16

  /** Units one scalar takes. */
  function Units(e: Encoding, c: char): (n: nat)
    ensures 1 <= n <= 4
  {
    var v := c as int;
    match e
    case Utf8 => if v < 0x80 then 1 else if v < 0x800 then 2 else if v < 0x1_0000 then 3 else 4
    case Utf16 => if v < 0x1_0000 then 1 else 2
  }

  function Width(e: Encoding, s: string): nat {
    if s == [] then 0 else Units(e, s[0]) + Width(e, s[1..])
  }

  /** The offset of scalar number `k`. */
  function Offset(e: Encoding, s: string, k: nat): nat
    requires k <= |s|
  {
    Width(e, s[..k])
  }

  /** How many whole scalars fit in the first `o` units. */
  function Index(e: Encoding, s: string, o: nat): (k: nat)
    ensures k <= |s|
  {
    if s == [] || o < Units(e, s[0]) then 0 else 1 + Index(e, s[1..], o - Units(e, s[0]))
  }

  /** The greatest scalar boundary at or below `o`. */
  function Floor(e: Encoding, s: string, o: nat): nat {
    Offset(e, s, Index(e, s, o))
  }

  predicate IsBoundary(e: Encoding, s: string, o: nat) {
    Floor(e, s, o) == o
  }

  lemma {:induction false} WidthConcat(e: Encoding, a: string, b: string)
    ensures Width(e, a + b) == Width(e, a) + Width(e, b)
  {
    if a == [] {
      assert a + b == b;
    } else {
      assert (a + b)[1..] == a[1..] + b;
      WidthConcat(e, a[1..], b);
    }
  }

  /** Counting scalars and measuring prefixes are adjoint. */
  lemma {:induction false} Galois(e: Encoding, s: string, o: nat, k: nat)
    requires k <= |s|
    ensures k <= Index(e, s, o) <==> Offset(e, s, k) <= o
  {
    if k == 0 || s == [] {
      assert s[..k] == [];
    } else {
      assert s[..k][1..] == s[1..][..k - 1];
      if Units(e, s[0]) <= o {
        Galois(e, s[1..], o - Units(e, s[0]), k - 1);
      }
    }
  }

  lemma OffsetStep(e: Encoding, s: string, k: nat)
    requires k < |s|
    ensures Offset(e, s, k + 1) == Offset(e, s, k) + Units(e, s[k])
  {
    assert s[..k + 1] == s[..k] + [s[k]];
    WidthConcat(e, s[..k], [s[k]]);
  }

  lemma {:induction false} OffsetMonotone(e: Encoding, s: string, j: nat, k: nat)
    requires j <= k <= |s|
    ensures Offset(e, s, j) + (k - j) <= Offset(e, s, k)
    decreases k - j
  {
    if j < k {
      OffsetStep(e, s, j);
      OffsetMonotone(e, s, j + 1, k);
    }
  }

  /** Flooring a boundary gives its scalar number back. */
  lemma IndexOfOffset(e: Encoding, s: string, k: nat)
    requires k <= |s|
    ensures Index(e, s, Offset(e, s, k)) == k
    ensures IsBoundary(e, s, Offset(e, s, k))
  {
    var i := Index(e, s, Offset(e, s, k));
    Galois(e, s, Offset(e, s, k), k);
    Galois(e, s, Offset(e, s, k), i);
    if k < i {
      OffsetMonotone(e, s, k, i);
    }
  }

  /** `Floor` is the greatest boundary at or below its argument. */
  lemma FloorIsGreatest(e: Encoding, s: string, o: nat, b: nat)
    ensures Floor(e, s, o) <= o && IsBoundary(e, s, Floor(e, s, o))
    ensures IsBoundary(e, s, b) && b <= o ==> b <= Floor(e, s, o)
  {
    Galois(e, s, o, Index(e, s, o));
    IndexOfOffset(e, s, Index(e, s, o));
    if IsBoundary(e, s, b) && b <= o {
      Galois(e, s, o, Index(e, s, b));
      OffsetMonotone(e, s, Index(e, s, b), Index(e, s, o));
    }
  }

  lemma IndexMonotone(e: Encoding, s: string, a: nat, b: nat)
    requires a <= b
    ensures Index(e, s, a) <= Index(e, s, b)
    ensures Floor(e, s, a) <= Floor(e, s, b)
  {
    Galois(e, s, a, Index(e, s, a));
    Galois(e, s, b, Index(e, s, a));
    OffsetMonotone(e, s, Index(e, s, a), Index(e, s, b));
  }

  /** Past the end, flooring clamps to the end. */
  lemma FloorBeyondEnd(e: Encoding, s: string, o: nat)
    requires Width(e, s) <= o
    ensures Index(e, s, o) == |s| && Floor(e, s, o) == Width(e, s)
  {
    assert s[..|s|] == s;
    Galois(e, s, o, |s|);
  }

  lemma FloorWithinText(e: Encoding, s: string, o: nat)
    ensures Floor(e, s, o) <= Width(e, s)
  {
    assert s[..|s|] == s;
    OffsetMonotone(e, s, Index(e, s, o), |s|);
  }

  // ---- Encoded bytes ----

  type byte = b: int | 0 <= b < 256

  predicate IsContinuation(b: byte) { 0x80 <= b < 0xC0 }

  function EncodeScalar(c: char): (bytes: seq<byte>)
    ensures |bytes| == Units(Utf8, c) && !IsContinuation(bytes[0])
    ensures forall i :: 0 < i < |bytes| ==> IsContinuation(bytes[i])
  {
    var v := c as int;
    if v < 0x80 then [v]
    else if v < 0x800 then [0xC0 + v / 0x40, 0x80 + v % 0x40]
    else if v < 0x1_0000 then [0xE0 + v / 0x1000, 0x80 + v / 0x40 % 0x40, 0x80 + v % 0x40]
    else [0xF0 + v / 0x4_0000, 0x80 + v / 0x1000 % 0x40, 0x80 + v / 0x40 % 0x40, 0x80 + v % 0x40]
  }

  /** The value of an encoded scalar, and the lengths its first byte announces. */
  function ReadScalar(bytes: seq<byte>): int
    requires 1 <= |bytes| <= 4
  {
    if |bytes| == 1 then bytes[0]
    else if |bytes| == 2 then Above(bytes[0], 0xC0) * 0x40 + Above(bytes[1], 0x80)
    else if |bytes| == 3 then
      (Above(bytes[0], 0xE0) * 0x40 + Above(bytes[1], 0x80)) * 0x40 + Above(bytes[2], 0x80)
    else
      ((Above(bytes[0], 0xF0) * 0x40 + Above(bytes[1], 0x80)) * 0x40 + Above(bytes[2], 0x80)) * 0x40
      + Above(bytes[3], 0x80)
  }

  function Above(n: int, base: int): int { n - base }

  lemma ScalarReadsBack(c: char)
    ensures var bytes := EncodeScalar(c);
            && ReadScalar(bytes) == c as int
            && (|bytes| == 1 <==> bytes[0] < 0x80) && (|bytes| == 2 <==> 0xC0 <= bytes[0] < 0xE0)
            && (|bytes| == 3 <==> 0xE0 <= bytes[0] < 0xF0) && (|bytes| == 4 <==> 0xF0 <= bytes[0])
  {
    var v := c as int;
    assert v == v / 0x40 * 0x40 + v % 0x40;
    assert v / 0x40 == v / 0x1000 * 0x40 + v / 0x40 % 0x40;
    assert v / 0x1000 == v / 0x4_0000 * 0x40 + v / 0x1000 % 0x40;
  }

  function Encode(s: string): (bytes: seq<byte>)
    ensures |bytes| == Width(Utf8, s)
  {
    if s == [] then [] else EncodeScalar(s[0]) + Encode(s[1..])
  }

  predicate IsCharBoundary(bytes: seq<byte>, o: nat) {
    o == 0 || o == |bytes| || (o < |bytes| && !IsContinuation(bytes[o]))
  }

  /** The byte test for a boundary agrees with the prefix sums of scalar widths. */
  lemma {:induction false} ByteTestFindsScalars(s: string, o: nat)
    ensures IsCharBoundary(Encode(s), o) <==> IsBoundary(Utf8, s, o)
  {
    if s != [] {
      var w := Units(Utf8, s[0]);
      if o < w {
        assert s[..0] == [];
        assert o < |Encode(s)|;
        assert Encode(s)[o] == EncodeScalar(s[0])[o];
      } else {
        ByteTestFindsScalars(s[1..], o - w);
        assert s[..Index(Utf8, s, o)][1..] == s[1..][..Index(Utf8, s[1..], o - w)];
        if w < o < |Encode(s)| {
          assert Encode(s)[o] == Encode(s[1..])[o - w];
        } else if w == o < |Encode(s)| {
          assert s[1..] != [];
          assert Encode(s)[o] == Encode(s[1..])[0] == EncodeScalar(s[1..][0])[0];
        }
      }
    }
  }

  // ---- Encoded code units ----

  predicate IsLowSurrogate(u: nat) { 0xDC00 <= u < 0xE000 }

  function EncodeScalar16(c: char): (units: seq<nat>)
    ensures |units| == Units(Utf16, c) && !IsLowSurrogate(units[0])
    ensures |units| == 2 ==> IsLowSurrogate(units[1])
  {
    var v := c as int;
    if v < 0x1_0000 then [v] else [0xD800 + (v - 0x1_0000) / 0x400, 0xDC00 + (v - 0x1_0000) % 0x400]
  }

  /** One unit is the scalar itself; two are a high and a low surrogate that give it back. */
  lemma SurrogatesReadBack(c: char)
    ensures var units := EncodeScalar16(c);
            if |units| == 1 then units[0] == c as int
            else
              && 0xD800 <= units[0] < 0xDC00
              && c as int == 0x1_0000 + (units[0] - 0xD800) * 0x400 + (units[1] - 0xDC00)
  {
  }

  function Encode16(s: string): (units: seq<nat>)
    ensures |units| == Width(Utf16, s)
  {
    if s == [] then [] else EncodeScalar16(s[0]) + Encode16(s[1..])
  }

  /** Scalars of the encoded code units start where no low surrogate stands. */
  lemma {:induction false} SurrogateTestFindsScalars(s: string, o: nat)
    ensures o == 0 || o == |Encode16(s)| || (o < |Encode16(s)| && !IsLowSurrogate(Encode16(s)[o])) <==>
              IsBoundary(Utf16, s, o)
  {
    if s != [] {
      var w := Units(Utf16, s[0]);
      if o < w {
        assert s[..0] == [];
        assert o < |Encode16(s)|;
        assert Encode16(s)[o] == EncodeScalar16(s[0])[o];
      } else {
        SurrogateTestFindsScalars(s[1..], o - w);
        assert s[..Index(Utf16, s, o)][1..] == s[1..][..Index(Utf16, s[1..], o - w)];
        if w < o < |Encode16(s)| {
          assert Encode16(s)[o] == Encode16(s[1..])[o - w];
        } else if w == o < |Encode16(s)| {
          assert s[1..] != [];
          assert Encode16(s)[o] == Encode16(s[1..])[0] == EncodeScalar16(s[1..][0])[0];
        }
      }
    }
  }

  /** Walks back over the encoded bytes to a boundary. */
  method FloorBoundary(text: string, offset: nat) returns (r: nat)
    ensures r == Floor(Utf8, text, offset)
  {
    var bytes := Encode(text);
    r := offset;
    while r > 0 && !IsCharBoundary(bytes, r)
      invariant Floor(Utf8, text, r) == Floor(Utf8, text, offset)
    {
      ByteTestFindsScalars(text, r);
      FloorIsGreatest(Utf8, text, r, 0);
      FloorIsGreatest(Utf8, text, r - 1, Floor(Utf8, text, r));
      FloorIsGreatest(Utf8, text, r, Floor(Utf8, text, r - 1));
      r := r - 1;
    }
    ByteTestFindsScalars(text, r);
    FloorIsGreatest(Utf8, text, r, 0);
  }

  // ---- Conversion between the two measures ----

  function ToUtf16(text: string, offset: nat): nat {
    Offset(Utf16, text, Index(Utf8, text, offset))
  }

  function FromUtf16(text: string, offset: nat): nat {
    Offset(Utf8, text, Index(Utf16, text, offset))
  }

  /** Scans the scalars until the requested number of code units is used up. */
  method OffsetFromUtf16(text: string, offset: nat) returns (r: nat)
    ensures r == FromUtf16(text, offset)
  {
    var i, index, units := 0, 0, 0;
    assert text[..0] == [];
    while i < |text|
      invariant i <= |text|
      invariant index == Offset(Utf8, text, i) && units == Offset(Utf16, text, i) <= offset
    {
      Galois(Utf16, text, offset, i);
      OffsetStep(Utf8, text, i);
      OffsetStep(Utf16, text, i);
      Galois(Utf16, text, offset, i + 1);
      if units >= offset {
        return index;
      }
      var next := units + Units(Utf16, text[i]);
      if next > offset {
        return index;
      }
      i, index, units := i + 1, index + Units(Utf8, text[i]), next;
    }
    Galois(Utf16, text, offset, i);
    r := index;
  }

  /** `FromUtf16(u)` is the greatest byte boundary whose UTF-16 length is at most `u`. */
  lemma Utf16Galois(text: string, u: nat, b: nat)
    ensures IsBoundary(Utf8, text, b) ==> (b <= FromUtf16(text, u) <==> ToUtf16(text, b) <= u)
    ensures IsBoundary(Utf8, text, FromUtf16(text, u)) && FromUtf16(text, u) <= Width(Utf8, text)
  {
    var k := Index(Utf16, text, u);
    IndexOfOffset(Utf8, text, k);
    FloorWithinText(Utf8, text, Offset(Utf8, text, k));
    Galois(Utf16, text, u, Index(Utf8, text, b));
    if IsBoundary(Utf8, text, b) {
      Galois(Utf8, text, Offset(Utf8, text, k), Index(Utf8, text, b));
    }
  }

  /** Each conversion undoes the other up to flooring, so on boundaries exactly. */
  lemma Utf16RoundTrip(text: string, o: nat)
    ensures FromUtf16(text, ToUtf16(text, o)) == Floor(Utf8, text, o)
    ensures ToUtf16(text, FromUtf16(text, o)) == Floor(Utf16, text, o)
  {
    IndexOfOffset(Utf16, text, Index(Utf8, text, o));
    IndexOfOffset(Utf8, text, Index(Utf16, text, o));
  }
}
