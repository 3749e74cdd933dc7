/** Well-formed byte strings are exactly the encodings of Unicode text (section 3 of RFC 3629). */
module Utf8Encoding {
  import opened LineFraming
  import opened Utf8

  /** A Unicode scalar value: a code point that is no surrogate. */
  predicate Scalar(c: int)
  {
    0 <= c < 0xD800 || 0xE000 <= c <= 0x10FFFF
  }

  function Encode(c: int): seq<Byte>
    requires Scalar(c)
  {
    if c < 0x80 then [c]
    else if c < 0x800 then [0xC0 + c / 64, 0x80 + c % 64]
    else if c < 0x10000 then [0xE0 + c / 4096, 0x80 + c / 64 % 64, 0x80 + c % 64]
    else [0xF0 + c / 262144, 0x80 + c / 4096 % 64, 0x80 + c / 64 % 64, 0x80 + c % 64]
  }

  predicate AllScalar(cs: seq<int>)
  {
    forall i :: 0 <= i < |cs| ==> Scalar(cs[i])
  }

  function EncodeAll(cs: seq<int>): seq<Byte>
    requires AllScalar(cs)
  {
    if cs == [] then [] else Encode(cs[0]) + EncodeAll(cs[1..])
  }

  lemma Digits(c: int)
    requires c >= 0
    ensures c / 64 == c / 4096 * 64 + c / 64 % 64 && c == c / 64 * 64 + c % 64
    ensures c / 4096 == c / 262144 * 64 + c / 4096 % 64
  {
  }

  lemma ThreeIsChar(c: int)
    requires Scalar(c) && 0x800 <= c < 0x10000
    ensures Second3(0xE0 + c / 4096, 0x80 + c / 64 % 64)
  {
    Digits(c);
  }

  lemma FourIsChar(c: int)
    requires Scalar(c) && 0x10000 <= c
    ensures Second4(0xF0 + c / 262144, 0x80 + c / 4096 % 64)
  {
    Digits(c);
  }

  lemma EncodingIsChar(c: int)
    requires Scalar(c)
    ensures FirstChar(Encode(c)) == |Encode(c)|
  {
    if 0x800 <= c < 0x10000 {
      ThreeIsChar(c);
    } else if 0x10000 <= c {
      FourIsChar(c);
    }
  }

  lemma FirstCharStays(a: seq<Byte>, b: seq<Byte>)
    requires FirstChar(a) == |a| > 0
    ensures FirstChar(a + b) == |a| && (a + b)[|a|..] == b
  {
    assert forall i :: 0 <= i < |a| ==> (a + b)[i] == a[i];
  }

  lemma TwoBytes(a: int, b: int) returns (c: int)
    requires 0xC2 <= a <= 0xDF && 0x80 <= b <= 0xBF
    ensures Scalar(c) && Encode(c) == [a, b]
  {
    c := (a - 0xC0) * 64 + (b - 0x80);
    assert c / 64 == a - 0xC0 && c % 64 == b - 0x80;
  }

  lemma ThreeBytes(a: int, b: int, d: int) returns (c: int)
    requires 0 <= a < 256 && 0 <= b < 256 && Second3(a, b) && 0x80 <= d <= 0xBF
    ensures Scalar(c) && Encode(c) == [a, b, d]
  {
    var high, mid, low := a - 0xE0, b - 0x80, d - 0x80;
    c := high * 4096 + mid * 64 + low;
    assert c / 64 == high * 64 + mid && c % 64 == low;
    assert c / 4096 == high && c / 64 % 64 == mid;
  }

  lemma FourBytes(a: int, b: int, d: int, e: int) returns (c: int)
    requires 0 <= a < 256 && 0 <= b < 256 && Second4(a, b) && 0x80 <= d <= 0xBF && 0x80 <= e <= 0xBF
    ensures Scalar(c) && Encode(c) == [a, b, d, e]
  {
    var top, high, mid, low := a - 0xF0, b - 0x80, d - 0x80, e - 0x80;
    c := top * 262144 + high * 4096 + mid * 64 + low;
    assert c / 64 == top * 4096 + high * 64 + mid && c % 64 == low;
    assert c / 4096 == top * 64 + high && c / 64 % 64 == mid;
    assert c / 262144 == top && c / 4096 % 64 == high;
  }

  /** Whatever character a byte string starts with is the encoding of a scalar value. */
  lemma CharIsEncoding(s: seq<Byte>) returns (c: int)
    requires FirstChar(s) > 0
    ensures Scalar(c) && Encode(c) == s[..FirstChar(s)]
  {
    var n := FirstChar(s);
    if n == 1 {
      c := s[0];
      assert s[..1] == [s[0]];
    } else if n == 2 {
      c := TwoBytes(s[0], s[1]);
      assert s[..2] == [s[0], s[1]];
    } else if n == 3 {
      c := ThreeBytes(s[0], s[1], s[2]);
      assert s[..3] == [s[0], s[1], s[2]];
    } else {
      c := FourBytes(s[0], s[1], s[2], s[3]);
      assert s[..4] == [s[0], s[1], s[2], s[3]];
    }
  }

  lemma {:induction false} EncodedIsWellFormed(cs: seq<int>)
    requires AllScalar(cs)
    ensures WellFormed(EncodeAll(cs))
  {
    if cs != [] {
      EncodedIsWellFormed(cs[1..]);
      EncodingIsChar(cs[0]);
      FirstCharStays(Encode(cs[0]), EncodeAll(cs[1..]));
    }
  }

  lemma {:induction false} WellFormedIsEncoded(s: seq<Byte>) returns (cs: seq<int>)
    requires WellFormed(s)
    ensures AllScalar(cs) && EncodeAll(cs) == s
    decreases |s|
  {
    if s == [] {
      cs := [];
    } else {
      var n := FirstChar(s);
      var c := CharIsEncoding(s);
      var rest := WellFormedIsEncoded(s[n..]);
      cs := [c] + rest;
      assert cs[1..] == rest && s == s[..n] + s[n..];
    }
  }

  /** A byte string is well-formed if and only if it encodes some sequence of scalar values. */
  lemma WellFormedExactlyWhenEncoded(s: seq<Byte>)
    ensures WellFormed(s) <==> exists cs :: AllScalar(cs) && EncodeAll(cs) == s
  {
    if WellFormed(s) {
      var cs := WellFormedIsEncoded(s);
    }
    if cs :| AllScalar(cs) && EncodeAll(cs) == s {
      EncodedIsWellFormed(cs);
    }
  }
}
