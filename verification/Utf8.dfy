/** UTF-8 as Go's utf8.Valid and PostgreSQL's text type decide it (section 4 of RFC 3629), against the definition
    by code points (section 3). */
module Utf8 {
  import opened Basics
  import opened Ordering

  predicate Tail(b: byte) {
    0x80 <= b <= 0xBF
  }

  predicate TwoBytes(s: Bytes) {
    |s| >= 2 && 0xC2 <= s[0] <= 0xDF && Tail(s[1])
  }

  /** No second spelling of a shorter character, and no surrogate. */
  predicate ThreeBytes(s: Bytes) {
    && |s| >= 3 && 0xE0 <= s[0] <= 0xEF && Tail(s[1]) && Tail(s[2])
    && (s[0] == 0xE0 ==> s[1] >= 0xA0) && (s[0] == 0xED ==> s[1] <= 0x9F)
  }

  /** No second spelling of a shorter character, and nothing above the last code point. */
  predicate FourBytes(s: Bytes) {
    && |s| >= 4 && 0xF0 <= s[0] <= 0xF4 && Tail(s[1]) && Tail(s[2]) && Tail(s[3])
    && (s[0] == 0xF0 ==> s[1] >= 0x90) && (s[0] == 0xF4 ==> s[1] <= 0x8F)
  }

  /** The length of the first character, 0 when there is none. */
  function FirstLength(s: Bytes): (n: nat)
    ensures n <= |s|
  {
    if s == [] then 0
    else if s[0] <= 0x7F then 1
    else if TwoBytes(s) then 2
    else if ThreeBytes(s) then 3
    else if FourBytes(s) then 4
    else 0
  }

  predicate ValidUtf8(s: Bytes)
    decreases |s|
  {
    s == [] || (FirstLength(s) > 0 && ValidUtf8(s[FirstLength(s)..]))
  }

  predicate Scalar(c: int) {
    0 <= c < 0x11_0000 && !(0xD800 <= c < 0xE000)
  }

  /** Six bits of a code point in a trailing byte. */
  function TailOf(c: nat): byte {
    (0x80 + c % 0x40) as byte
  }

  function Encode(c: int): (s: Bytes)
    requires Scalar(c)
    ensures |s| > 0
  {
    if c < 0x80 then [c as byte]
    else if c < 0x800 then [(0xC0 + c / 0x40) as byte, TailOf(c)]
    else if c < 0x1_0000 then [(0xE0 + c / 0x40 / 0x40) as byte, TailOf(c / 0x40), TailOf(c)]
    else [(0xF0 + c / 0x40 / 0x40 / 0x40) as byte, TailOf(c / 0x40 / 0x40), TailOf(c / 0x40), TailOf(c)]
  }

  predicate Scalars(points: seq<int>) {
    forall i :: 0 <= i < |points| ==> Scalar(points[i])
  }

  function EncodeAll(points: seq<int>): Bytes
    requires Scalars(points)
  {
    if points == [] then [] else Encode(points[0]) + EncodeAll(points[1..])
  }

  lemma EncodedFirst(c: int, rest: Bytes)
    requires Scalar(c)
    ensures FirstLength(Encode(c) + rest) == |Encode(c)|
  {
  }

  /** One more trailing byte after the bits that a character has so far. */
  function Shifted(c: nat, tail: byte): nat
    requires Tail(tail)
  {
    0x40 * c + (tail as int - 0x80)
  }

  lemma ShiftedBack(c: nat, tail: byte)
    requires Tail(tail)
    ensures Shifted(c, tail) / 0x40 == c && TailOf(Shifted(c, tail)) == tail
  {
  }

  lemma DecodeTwo(a: byte, b: byte) returns (c: int)
    requires TwoBytes([a, b])
    ensures Scalar(c) && Encode(c) == [a, b]
  {
    var lead := a as int - 0xC0;
    ShiftedBack(lead, b);
    c := Shifted(lead, b);
  }

  lemma DecodeThree(a: byte, b: byte, d: byte) returns (c: int)
    requires ThreeBytes([a, b, d])
    ensures Scalar(c) && Encode(c) == [a, b, d]
  {
    var lead := a as int - 0xE0;
    ShiftedBack(lead, b);
    ShiftedBack(Shifted(lead, b), d);
    c := Shifted(Shifted(lead, b), d);
  }

  function ShiftedThrice(lead: nat, b: byte, d: byte, e: byte): nat
    requires Tail(b) && Tail(d) && Tail(e)
  {
    Shifted(Shifted(Shifted(lead, b), d), e)
  }

  lemma FourInRange(lead: nat, b: byte, d: byte, e: byte)
    requires lead <= 4 && Tail(b) && Tail(d) && Tail(e)
    requires (lead == 0 ==> b >= 0x90) && (lead == 4 ==> b <= 0x8F)
    ensures 0x1_0000 <= ShiftedThrice(lead, b, d, e) < 0x11_0000
  {
  }

  lemma FourShifted(a: byte, b: byte, d: byte, e: byte) returns (c: int)
    requires a >= 0xF0 && Tail(b) && Tail(d) && Tail(e)
    ensures c == ShiftedThrice(a as int - 0xF0, b, d, e)
    ensures c / 0x40 / 0x40 / 0x40 == a as int - 0xF0
    ensures TailOf(c / 0x40 / 0x40) == b && TailOf(c / 0x40) == d && TailOf(c) == e
  {
    var lead := a as int - 0xF0;
    ShiftedBack(lead, b);
    ShiftedBack(Shifted(lead, b), d);
    ShiftedBack(Shifted(Shifted(lead, b), d), e);
    c := ShiftedThrice(lead, b, d, e);
  }

  lemma EncodedFour(c: int)
    requires 0x1_0000 <= c < 0x11_0000
    ensures c / 0x40 / 0x40 / 0x40 <= 4
    ensures Encode(c)
            == [(0xF0 + c / 0x40 / 0x40 / 0x40) as byte, TailOf(c / 0x40 / 0x40), TailOf(c / 0x40), TailOf(c)]
  {
  }

  lemma DecodeFour(a: byte, b: byte, d: byte, e: byte) returns (c: int)
    requires 0xF0 <= a <= 0xF4 && Tail(b) && Tail(d) && Tail(e)
    requires (a == 0xF0 ==> b >= 0x90) && (a == 0xF4 ==> b <= 0x8F)
    ensures Scalar(c) && Encode(c) == [a, b, d, e]
  {
    FourInRange(a as int - 0xF0, b, d, e);
    c := FourShifted(a, b, d, e);
    EncodedFour(c);
  }

  lemma DecodeFirst(s: Bytes) returns (c: int)
    requires FirstLength(s) > 0
    ensures Scalar(c) && Encode(c) == s[..FirstLength(s)]
  {
    if s[0] <= 0x7F {
      c := s[0] as int;
    } else if TwoBytes(s) {
      c := DecodeTwo(s[0], s[1]);
    } else if ThreeBytes(s) {
      c := DecodeThree(s[0], s[1], s[2]);
    } else {
      c := DecodeFour(s[0], s[1], s[2], s[3]);
    }
  }

  lemma {:induction false} EncodedIsValid(points: seq<int>)
    requires Scalars(points)
    ensures ValidUtf8(EncodeAll(points))
  {
    if points != [] {
      var rest := EncodeAll(points[1..]);
      EncodedIsValid(points[1..]);
      EncodedFirst(points[0], rest);
      assert (Encode(points[0]) + rest)[|Encode(points[0])|..] == rest;
    }
  }

  lemma TwoParts(s: Bytes, n: nat)
    requires n <= |s|
    ensures s[..n] + s[n..] == s
  {
  }

  lemma EncodeCons(c: int, rest: seq<int>)
    requires Scalar(c) && Scalars(rest)
    ensures Scalars([c] + rest) && EncodeAll([c] + rest) == Encode(c) + EncodeAll(rest)
  {
    assert ([c] + rest)[1..] == rest;
  }

  lemma {:induction false} DecodeAll(s: Bytes) returns (points: seq<int>)
    requires ValidUtf8(s)
    ensures Scalars(points) && EncodeAll(points) == s
    decreases |s|
  {
    if s == [] {
      points := [];
    } else {
      var n := FirstLength(s);
      var c := DecodeFirst(s);
      var rest := DecodeAll(s[n..]);
      points := [c] + rest;
      EncodeCons(c, rest);
      TwoParts(s, n);
    }
  }

  lemma LastSextet(c: nat, d: nat)
    requires c < d
    ensures c / 0x40 < d / 0x40 || (c / 0x40 == d / 0x40 && TailOf(c) < TailOf(d))
  {
  }

  /** The first place where two encodings differ. */
  ghost predicate DiffersAt(a: Bytes, b: Bytes, n: nat) {
    n < |a| && n < |b| && a[n] < b[n] && forall i :: 0 <= i < n ==> a[i] == b[i]
  }

  lemma DiffersFirst(a: Bytes, b: Bytes, n: nat)
    requires DiffersAt(a, b, n)
    ensures DiffersBelow(a, b)
  {
    assert a[..n] == b[..n];
  }

  lemma EncodedPair(c: int, d: int)
    requires Scalar(c) && Scalar(d) && c < d
    ensures DiffersBelow(Encode(c), Encode(d))
  {
    var n := DifferingPlace(c, d);
    DiffersFirst(Encode(c), Encode(d), n);
  }

  lemma DifferingPlace(c: int, d: int) returns (n: nat)
    requires Scalar(c) && Scalar(d) && c < d
    ensures DiffersAt(Encode(c), Encode(d), n)
  {
    n := 0;
    if 0x80 <= c && d < 0x800 {
      n := PlaceOfTwo(c, d);
    } else if 0x800 <= c && d < 0x1_0000 {
      n := PlaceOfThree(c, d);
    } else if 0x1_0000 <= c {
      n := PlaceOfFour(c, d);
    } else {
      ShorterFirst(c, d);
    }
  }

  /** One byte each, or fewer bytes and so a smaller leading one. */
  lemma ShorterFirst(c: int, d: int)
    requires Scalar(c) && Scalar(d) && c < d
    requires d < 0x80 || |Encode(c)| < |Encode(d)|
    ensures DiffersAt(Encode(c), Encode(d), 0)
  {
  }

  lemma PlaceOfTwo(c: int, d: int) returns (n: nat)
    requires 0x80 <= c < d < 0x800
    ensures DiffersAt(Encode(c), Encode(d), n)
  {
    LastSextet(c, d);
    n := if c / 0x40 < d / 0x40 then 0 else 1;
  }

  lemma PlaceOfThree(c: int, d: int) returns (n: nat)
    requires 0x800 <= c < d < 0x1_0000 && Scalar(c) && Scalar(d)
    ensures DiffersAt(Encode(c), Encode(d), n)
  {
    LastSextet(c, d);
    n := 2;
    if c / 0x40 < d / 0x40 {
      LastSextet(c / 0x40, d / 0x40);
      n := if c / 0x40 / 0x40 < d / 0x40 / 0x40 then 0 else 1;
    }
  }

  lemma PlaceOfFour(c: int, d: int) returns (n: nat)
    requires 0x1_0000 <= c < d < 0x11_0000
    ensures DiffersAt(Encode(c), Encode(d), n)
  {
    EncodedFour(c);
    EncodedFour(d);
    LastSextet(c, d);
    n := 3;
    if c / 0x40 < d / 0x40 {
      LastSextet(c / 0x40, d / 0x40);
      n := 2;
      if c / 0x40 / 0x40 < d / 0x40 / 0x40 {
        LastSextet(c / 0x40 / 0x40, d / 0x40 / 0x40);
        n := if c / 0x40 / 0x40 / 0x40 < d / 0x40 / 0x40 / 0x40 then 0 else 1;
      }
    }
  }

  /** Every Unicode scalar value has an encoding, of one to four bytes, and bytewise order is the order of the values
      (section 1 of RFC 3629). */
  lemma EveryScalar(c: int, d: int)
    requires 0 <= c < d < 0x11_0000 && !(0xD800 <= c <= 0xDFFF) && !(0xD800 <= d <= 0xDFFF)
    ensures Scalar(c) && Scalar(d) && ValidUtf8(Encode(c)) && ValidUtf8(Encode(d)) && Less(Encode(c), Encode(d))
    ensures |Encode(c)| == if c < 0x80 then 1 else if c < 0x800 then 2 else if c < 0x1_0000 then 3 else 4
    ensures c < 0x80 ==> Encode(c) == [c as byte]
  {
    EncodedIsValid([c]);
    EncodedIsValid([d]);
    assert EncodeAll([c]) == Encode(c) && EncodeAll([d]) == Encode(d);
    EncodedPair(c, d);
    LessIffEarlier(Encode(c), Encode(d));
  }

  lemma ByteZero(c: int)
    requires Scalar(c)
    ensures 0 in Encode(c) <==> c == 0
  {
  }

  lemma {:induction false} NoByteZero(points: seq<int>)
    requires Scalars(points)
    ensures 0 in EncodeAll(points) <==> 0 in points
  {
    if points != [] {
      ByteZero(points[0]);
      NoByteZero(points[1..]);
      assert points == [points[0]] + points[1..];
    }
  }

  /** The byte ranges describe exactly the encodings of code points. */
  lemma ValidIffEncoded(s: Bytes)
    ensures ValidUtf8(s) <==> exists points :: Scalars(points) && EncodeAll(points) == s
  {
    if ValidUtf8(s) {
      var points := DecodeAll(s);
      assert Scalars(points) && EncodeAll(points) == s;
    }
    forall points | Scalars(points) && EncodeAll(points) == s ensures ValidUtf8(s) {
      EncodedIsValid(points);
    }
  }
}
