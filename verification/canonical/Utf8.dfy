/**
 UTF-8 as the source writes text to bytes: before hashing, when it measures a payload, and inside scene links. A
 surrogate without its partner becomes the replacement character (RFC 3629, section 3; the WHATWG encoding rules).
 */
module Utf8 {
  import opened Prelude
  import opened Texts
  import opened Strings

  type Byte = b: int | 0 <= b < 256

  type Scalar = c: int | 0 <= c < 0x11_0000

  function ScalarOf(high: Unit, low: Unit): (c: Scalar)
    requires IsHigh(high) && IsLow(low)
    ensures 0x1_0000 <= c
  {
    0x1_0000 + (high - 0xD800) * 0x400 + (low - 0xDC00)
  }

  function EncodeScalar(c: Scalar): (r: seq<Byte>)
    ensures 1 <= |r| <= 4
  {
    if c < 0x80 then [c]
    else if c < 0x800 then [0xC0 + c / 64, 0x80 + c % 64]
    else if c < 0x1_0000 then [0xE0 + c / 4096, 0x80 + c / 64 % 64, 0x80 + c % 64]
    else [0xF0 + c / 262144, 0x80 + c / 4096 % 64, 0x80 + c / 64 % 64, 0x80 + c % 64]
  }

  const REPLACEMENT: Unit := 0xFFFD

  function Encode(t: Text): seq<Byte> {
    if t == [] then []
    else if |t| > 1 && IsHigh(t[0]) && IsLow(t[1]) then EncodeScalar(ScalarOf(t[0], t[1])) + Encode(t[2..])
    else EncodeScalar(if IsHigh(t[0]) || IsLow(t[0]) then REPLACEMENT else t[0]) + Encode(t[1..])
  }

  /** `Buffer.byteLength(value, 'utf8')`. */
  function ByteLength(t: Text): nat { |Encode(t)| }

  function Payload(b: Byte): int { b - 0x80 }

  predicate Continuation(b: Byte) { 0x80 <= b < 0xC0 }

  /** The first scalar of some bytes and what follows it. */
  function DecodeScalar(s: seq<Byte>): (r: Option<(Scalar, seq<Byte>)>)
    ensures r.Some? ==> |r.value.1| < |s|
  {
    if s == [] then None
    else if s[0] < 0x80 then Some((s[0], s[1..]))
    else if 0xC0 <= s[0] < 0xE0 && |s| > 1 && Continuation(s[1]) then
      Some(((s[0] - 0xC0) * 64 + Payload(s[1]), s[2..]))
    else if 0xE0 <= s[0] < 0xF0 && |s| > 2 && Continuation(s[1]) && Continuation(s[2]) then
      Some(((s[0] - 0xE0) * 4096 + Payload(s[1]) * 64 + Payload(s[2]), s[3..]))
    else if 0xF0 <= s[0] < 0xF5 && |s| > 3 && Continuation(s[1]) && Continuation(s[2]) && Continuation(s[3])
            && (s[0] - 0xF0) * 262144 + Payload(s[1]) * 4096 + Payload(s[2]) * 64 + Payload(s[3]) < 0x11_0000 then
      Some(((s[0] - 0xF0) * 262144 + Payload(s[1]) * 4096 + Payload(s[2]) * 64 + Payload(s[3]), s[4..]))
    else None
  }

  function UnitsOf(c: Scalar): Text {
    if c < 0x1_0000 then [c] else [0xD800 + (c - 0x1_0000) / 0x400, 0xDC00 + (c - 0x1_0000) % 0x400]
  }

  function Decode(s: seq<Byte>): Option<Text> {
    if s == [] then Some([])
    else match DecodeScalar(s)
      case None => None
      case Some((c, rest)) =>
        match Decode(rest)
        case None => None
        case Some(t) => Some(UnitsOf(c) + t)
  }

  lemma TwoBytes(c: Scalar)
    requires 0x80 <= c < 0x800
    ensures 0xC0 <= 0xC0 + c / 64 < 0xE0 && (c / 64) * 64 + c % 64 == c
  {
  }

  lemma ThreeBytes(c: Scalar)
    requires 0x800 <= c < 0x1_0000
    ensures c / 4096 < 16 && (c / 4096) * 4096 + (c / 64 % 64) * 64 + c % 64 == c
  {
    assert c / 64 / 64 == c / 4096;
  }

  lemma FourBytes(c: Scalar)
    requires 0x1_0000 <= c
    ensures c / 262144 < 5 && (c / 262144) * 262144 + (c / 4096 % 64) * 4096 + (c / 64 % 64) * 64 + c % 64 == c
  {
    assert c / 64 / 64 == c / 4096 && c / 4096 / 64 == c / 262144;
  }

  lemma ScalarRoundTrip(c: Scalar, rest: seq<Byte>)
    ensures DecodeScalar(EncodeScalar(c) + rest) == Some((c, rest))
  {
    var s := EncodeScalar(c) + rest;
    assert s[|EncodeScalar(c)|..] == rest;
    if c < 0x80 {
    } else if c < 0x800 {
      TwoBytes(c);
    } else if c < 0x1_0000 {
      ThreeBytes(c);
    } else {
      FourBytes(c);
    }
  }

  lemma PairRoundTrip(high: Unit, low: Unit)
    requires IsHigh(high) && IsLow(low)
    ensures UnitsOf(ScalarOf(high, low)) == [high, low]
  {
  }

  /** Well-formed text survives the trip to UTF-8 and back. */
  lemma {:induction false} Utf8RoundTrip(t: Text)
    requires WellFormed(t)
    ensures Decode(Encode(t)) == Some(t)
    decreases |t|
  {
    if t == [] {
    } else if IsHigh(t[0]) {
      var c := ScalarOf(t[0], t[1]);
      ScalarRoundTrip(c, Encode(t[2..]));
      PairRoundTrip(t[0], t[1]);
      Utf8RoundTrip(t[2..]);
      assert t == [t[0], t[1]] + t[2..];
    } else {
      ScalarRoundTrip(t[0], Encode(t[1..]));
      Utf8RoundTrip(t[1..]);
      assert t == [t[0]] + t[1..];
    }
  }

  /** Hashing the bytes of well-formed texts is hashing the texts: different texts have different bytes. */
  lemma Utf8IsInjective(a: Text, b: Text)
    requires WellFormed(a) && WellFormed(b) && Encode(a) == Encode(b)
    ensures a == b
  {
    Utf8RoundTrip(a);
    Utf8RoundTrip(b);
  }

  // ----- lengths -----

  lemma {:induction false} LengthOfConcat(a: Text, b: Text)
    ensures ByteLength(a + b) <= ByteLength(a) + ByteLength(b)
    decreases |a|
  {
    if a == [] {
      assert a + b == b;
    } else if |a| > 1 && IsHigh(a[0]) && IsLow(a[1]) {
      assert (a + b)[2..] == a[2..] + b;
      LengthOfConcat(a[2..], b);
    } else if |a| == 1 && b != [] && IsHigh(a[0]) && IsLow(b[0]) {
      LengthOfPair(a[0], b);
      assert a + b == [a[0]] + b;
    } else {
      assert (a + b)[1..] == a[1..] + b;
      LengthOfConcat(a[1..], b);
    }
  }

  lemma LengthOfPair(high: Unit, b: Text)
    requires IsHigh(high) && b != [] && IsLow(b[0])
    ensures ByteLength([high] + b) <= 3 + ByteLength(b) && ByteLength([high]) == 3
  {
    assert ([high] + b)[2..] == b[1..];
    assert Encode([high]) == EncodeScalar(REPLACEMENT) + Encode([high][1..]);
    assert [high][1..] == [];
  }

  lemma {:induction false} LengthOfAscii(t: Text)
    requires forall i :: 0 <= i < |t| ==> t[i] < 0x80
    ensures ByteLength(t) == |t|
  {
    if t != [] { LengthOfAscii(t[1..]); }
  }

  lemma {:induction false} LengthIsBounded(t: Text)
    ensures |t| <= ByteLength(t) <= 3 * |t|
    decreases |t|
  {
    if t == [] {
    } else if |t| > 1 && IsHigh(t[0]) && IsLow(t[1]) {
      LengthIsBounded(t[2..]);
    } else {
      LengthIsBounded(t[1..]);
    }
  }

  /** A first byte and bytes that continue it, as a number: the bits that do not mark them. */
  function BitsOf(first: int, rest: seq<Byte>): int {
    if rest == [] then first else BitsOf(first, rest[..|rest| - 1]) * 0x40 + (rest[|rest| - 1] as int - 0x80)
  }

  lemma BitsSnoc(first: int, rest: seq<Byte>, b: Byte)
    ensures BitsOf(first, rest + [b]) == BitsOf(first, rest) * 0x40 + (b as int - 0x80)
  {
    assert (rest + [b])[..|rest|] == rest;
  }

  predicate Continued(e: seq<Byte>) { forall i :: 1 <= i < |e| ==> 0x80 <= e[i] <= 0xBF }

  lemma TwoBytesFollowTheStandard(c: Scalar)
    requires 0x80 <= c <= 0x7FF
    ensures var e := EncodeScalar(c);
      |e| == 2 && 0xC2 <= e[0] <= 0xDF && Continued(e) && c == BitsOf(e[0] as int - 0xC0, e[1..])
  {
    var e := EncodeScalar(c);
    TwoBytes(c);
    BitsSnoc(e[0] as int - 0xC0, [], e[1]);
    assert e[1..] == [] + [e[1]];
  }

  lemma ThreeBytesFollowTheStandard(c: Scalar)
    requires 0x800 <= c <= 0xFFFF
    ensures var e := EncodeScalar(c);
      |e| == 3 && 0xE0 <= e[0] <= 0xEF && Continued(e) && c == BitsOf(e[0] as int - 0xE0, e[1..])
  {
    var e := EncodeScalar(c);
    ThreeBytes(c);
    BitsSnoc(e[0] as int - 0xE0, [], e[1]);
    BitsSnoc(e[0] as int - 0xE0, [] + [e[1]], e[2]);
    assert e[1..] == [] + [e[1]] + [e[2]];
  }

  lemma FourBytesFollowTheStandard(c: Scalar)
    requires 0x1_0000 <= c
    ensures var e := EncodeScalar(c);
      |e| == 4 && 0xF0 <= e[0] <= 0xF4 && Continued(e) && c == BitsOf(e[0] as int - 0xF0, e[1..])
  {
    var e := EncodeScalar(c);
    FourBytes(c);
    BitsSnoc(e[0] as int - 0xF0, [], e[1]);
    BitsSnoc(e[0] as int - 0xF0, [] + [e[1]], e[2]);
    BitsSnoc(e[0] as int - 0xF0, [] + [e[1]] + [e[2]], e[3]);
    assert e[1..] == [] + [e[1]] + [e[2]] + [e[3]];
  }

  /**
   The bytes of a scalar by its size, as the table of RFC 3629, section 3, has them: which first bytes there are, that all
   others continue, and where the bits stand.
   */
  lemma ScalarsFollowTheStandard(c: Scalar)
    ensures var e := EncodeScalar(c);
      && Continued(e)
      && (c <= 0x7F ==> e == [c])
      && (0x80 <= c <= 0x7FF ==> |e| == 2 && 0xC2 <= e[0] <= 0xDF && c == BitsOf(e[0] as int - 0xC0, e[1..]))
      && (0x800 <= c <= 0xFFFF ==> |e| == 3 && 0xE0 <= e[0] <= 0xEF && c == BitsOf(e[0] as int - 0xE0, e[1..]))
      && (0x1_0000 <= c ==> |e| == 4 && 0xF0 <= e[0] <= 0xF4 && c == BitsOf(e[0] as int - 0xF0, e[1..]))
  {
    if 0x1_0000 <= c { FourBytesFollowTheStandard(c); }
    else if 0x800 <= c { ThreeBytesFollowTheStandard(c); }
    else if 0x80 <= c { TwoBytesFollowTheStandard(c); }
  }

  /** A surrogate without its partner is written as the replacement character. */
  lemma LoneSurrogatesAreReplaced(u: Unit)
    requires 0xD800 <= u < 0xE000
    ensures Encode([u]) == [0xEF, 0xBF, 0xBD]
  {
    assert [u][1..] == [];
  }
}
