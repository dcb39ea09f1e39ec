/**
 JSON strings as `JSON.stringify` writes them: the two-character escapes, \u00xx for the other control characters,
 \udxxx for a surrogate without its partner, and every other code unit as it is.
 RFC 8785, section 3.2.2.2, prescribes the same escapes.
 */
module Strings {
  import opened Prelude
  import opened Texts

  predicate IsHigh(u: Unit) { 0xD800 <= u < 0xDC00 }
  predicate IsLow(u: Unit) { 0xDC00 <= u < 0xE000 }

  function HexDigit(d: int): Unit
    requires 0 <= d < 16
  {
    if d < 10 then ZERO + d else LETTER_A + (d - 10)
  }

  function HexValue(u: Unit): Option<int> {
    if ZERO <= u < ZERO + 10 then Some(u - ZERO)
    else if LETTER_A <= u < LETTER_A + 6 then Some(u - LETTER_A + 10)
    else None
  }

  function EscapeHex(u: Unit): Text {
    [BACKSLASH, LETTER_U, HexDigit(u / 4096), HexDigit(u / 256 % 16), HexDigit(u / 16 % 16), HexDigit(u % 16)]
  }

  /** The letter of a two-character escape, if the code unit has one. */
  function ShortEscape(u: Unit): Option<Unit> {
    if u == QUOTE || u == BACKSLASH then Some(u)
    else if u == 8 then Some(LETTER_B)
    else if u == 9 then Some(LETTER_T)
    else if u == 10 then Some(LETTER_N)
    else if u == 12 then Some(LETTER_F)
    else if u == 13 then Some(LETTER_R)
    else None
  }

  function EscapeUnit(u: Unit): Text {
    match ShortEscape(u)
    case Some(letter) => [BACKSLASH, letter]
    case None => if u < 32 || IsHigh(u) || IsLow(u) then EscapeHex(u) else [u]
  }

  function Escape(t: Text): Text {
    if t == [] then []
    else if |t| > 1 && IsHigh(t[0]) && IsLow(t[1]) then [t[0], t[1]] + Escape(t[2..])
    else EscapeUnit(t[0]) + Escape(t[1..])
  }

  function Quote(t: Text): Text {
    [QUOTE] + (Escape(t) + [QUOTE])
  }

  function ShortUnescape(letter: Unit): Option<Unit> {
    if letter == QUOTE || letter == BACKSLASH then Some(letter)
    else if letter == LETTER_B then Some(8)
    else if letter == LETTER_T then Some(9)
    else if letter == LETTER_N then Some(10)
    else if letter == LETTER_F then Some(12)
    else if letter == LETTER_R then Some(13)
    else None
  }

  /** Reads one escape sequence, the backslash already consumed. */
  function ParseEscape(s: Text): (r: Option<(Unit, Text)>)
    ensures r.Some? ==> |r.value.1| < |s|
  {
    if s == [] then None
    else if s[0] == LETTER_U then
      if |s| < 5 then None
      else match (HexValue(s[1]), HexValue(s[2]), HexValue(s[3]), HexValue(s[4]))
        case (Some(a), Some(b), Some(c), Some(d)) => Some((4096 * a + 256 * b + 16 * c + d, s[5..]))
        case _ => None
    else match ShortUnescape(s[0])
      case Some(u) => Some((u, s[1..]))
      case None => None
  }

  /** Reads the body of a string up to its closing quote. */
  function ParseBody(s: Text): (r: Option<(Text, Text)>)
    ensures r.Some? ==> |r.value.1| < |s|
    decreases |s|
  {
    if s == [] then None
    else if s[0] == QUOTE then Some(([], s[1..]))
    else if s[0] == BACKSLASH then
      match ParseEscape(s[1..])
      case None => None
      case Some((u, s1)) =>
        match ParseBody(s1)
        case None => None
        case Some((t, rest)) => Some(([u] + t, rest))
    else
      match ParseBody(s[1..])
      case None => None
      case Some((t, rest)) => Some(([s[0]] + t, rest))
  }

  function ParseString(s: Text): (r: Option<(Text, Text)>)
    ensures r.Some? ==> |r.value.1| < |s|
  {
    if s != [] && s[0] == QUOTE then ParseBody(s[1..]) else None
  }

  lemma HexDigitRoundTrip(d: nat)
    requires d < 16
    ensures HexValue(HexDigit(d)) == Some(d)
  {
  }

  /** A unit in base 16. */
  lemma FourDigits(u: Unit)
    ensures 4096 * (u / 4096) + 256 * (u / 256 % 16) + 16 * (u / 16 % 16) + u % 16 == u
  {
    var a := u / 16;
    var b := a / 16;
    assert b == u / 256 && b / 16 == u / 4096;
  }

  lemma HexRoundTrip(u: Unit)
    ensures 4096 * (u / 4096) + 256 * (u / 256 % 16) + 16 * (u / 16 % 16) + u % 16 == u
    ensures forall d :: 0 <= d < 16 ==> HexValue(HexDigit(d)) == Some(d)
  {
    FourDigits(u);
    forall d | 0 <= d < 16 ensures HexValue(HexDigit(d)) == Some(d) { HexDigitRoundTrip(d); }
  }

  lemma ParseEscapedHex(u: Unit, rest: Text)
    ensures ParseEscape(EscapeHex(u)[1..] + rest) == Some((u, rest))
  {
    HexRoundTrip(u);
    var s := EscapeHex(u)[1..] + rest;
    assert s[5..] == rest;
  }

  lemma ParseOneUnit(u: Unit, s: Text)
    ensures ParseBody(EscapeUnit(u) + s) ==
      match ParseBody(s) { case None => None case Some((t, rest)) => Some(([u] + t, rest)) }
  {
    var e := EscapeUnit(u);
    DropPrefix(e[..1], e[1..] + s);
    assert e + s == e[..1] + (e[1..] + s);
    if ShortEscape(u).Some? {
      assert e[1..] + s == [ShortEscape(u).value] + s;
      DropPrefix([ShortEscape(u).value], s);
    } else if u < 32 || IsHigh(u) || IsLow(u) {
      ParseEscapedHex(u, s);
    } else {
      assert e[1..] + s == s;
    }
  }

  lemma ParseLiteralUnit(u: Unit, s: Text)
    requires u != QUOTE && u != BACKSLASH
    ensures ParseBody([u] + s) ==
      match ParseBody(s) { case None => None case Some((t, rest)) => Some(([u] + t, rest)) }
  {
    DropPrefix([u], s);
  }

  lemma ParseLiteralPair(h: Unit, l: Unit, s: Text)
    requires IsHigh(h) && IsLow(l)
    ensures ParseBody([h, l] + s) ==
      match ParseBody(s) { case None => None case Some((t, rest)) => Some(([h, l] + t, rest)) }
  {
    ParseLiteralUnit(l, s);
    ParseLiteralUnit(h, [l] + s);
    assert [h, l] + s == [h] + ([l] + s);
    if ParseBody(s).Some? {
      var t := ParseBody(s).value.0;
      assert [h] + ([l] + t) == [h, l] + t;
    }
  }

  lemma {:induction false} ParseEscapedBody(t: Text, rest: Text)
    ensures ParseBody(Escape(t) + ([QUOTE] + rest)) == Some((t, rest))
    decreases |t|
  {
    var tail := [QUOTE] + rest;
    if t == [] {
      assert Escape(t) + tail == tail;
      DropPrefix([QUOTE], rest);
    } else if |t| > 1 && IsHigh(t[0]) && IsLow(t[1]) {
      ParseEscapedBody(t[2..], rest);
      ParseLiteralPair(t[0], t[1], Escape(t[2..]) + tail);
      Assoc([t[0], t[1]], Escape(t[2..]), tail);
      assert [t[0], t[1]] + t[2..] == t;
    } else {
      var s := Escape(t[1..]) + tail;
      ParseEscapedBody(t[1..], rest);
      ParseOneUnit(t[0], s);
      Assoc(EscapeUnit(t[0]), Escape(t[1..]), tail);
      assert [t[0]] + t[1..] == t;
    }
  }

  /** Every string, lone surrogates included, is recovered from its quoted form. */
  lemma ParseQuoted(t: Text, rest: Text)
    ensures ParseString(Quote(t) + rest) == Some((t, rest))
  {
    ParseEscapedBody(t, rest);
    Assoc([QUOTE], Escape(t) + [QUOTE], rest);
    Assoc(Escape(t), [QUOTE], rest);
    DropPrefix([QUOTE], Escape(t) + ([QUOTE] + rest));
  }

  // ----- canonical text is well-formed UTF-16, so its UTF-8 bytes identify it -----

  /** Every surrogate is part of a pair. */
  predicate WellFormed(t: Text) {
    if t == [] then true
    else if IsHigh(t[0]) then |t| > 1 && IsLow(t[1]) && WellFormed(t[2..])
    else !IsLow(t[0]) && WellFormed(t[1..])
  }

  lemma {:induction false} WellFormedConcat(a: Text, b: Text)
    requires WellFormed(a) && WellFormed(b)
    ensures WellFormed(a + b)
    decreases |a|
  {
    if a == [] {
      assert a + b == b;
    } else if IsHigh(a[0]) {
      assert (a + b)[2..] == a[2..] + b;
      WellFormedConcat(a[2..], b);
    } else {
      assert (a + b)[1..] == a[1..] + b;
      WellFormedConcat(a[1..], b);
    }
  }

  lemma {:induction false} AsciiIsWellFormed(t: Text)
    requires forall i :: 0 <= i < |t| ==> t[i] < 0xD800
    ensures WellFormed(t)
  {
    if t != [] { AsciiIsWellFormed(t[1..]); }
  }

  lemma EscapedUnitIsWellFormed(u: Unit)
    ensures WellFormed(EscapeUnit(u))
  {
    AsciiIsWellFormed(EscapeHex(u));
    if EscapeUnit(u) != EscapeHex(u) {
      var e := EscapeUnit(u);
      AsciiIsWellFormed(e[1..]);
      assert e == [e[0]] + e[1..];
    }
  }

  /** `JSON.stringify` never emits a lone surrogate, whatever the string holds. */
  lemma {:induction false} EscapedIsWellFormed(t: Text)
    ensures WellFormed(Escape(t))
    decreases |t|
  {
    if t == [] {
    } else if |t| > 1 && IsHigh(t[0]) && IsLow(t[1]) {
      EscapedIsWellFormed(t[2..]);
      assert WellFormed([t[0], t[1]]);
      WellFormedConcat([t[0], t[1]], Escape(t[2..]));
    } else {
      EscapedIsWellFormed(t[1..]);
      EscapedUnitIsWellFormed(t[0]);
      WellFormedConcat(EscapeUnit(t[0]), Escape(t[1..]));
    }
  }
}
