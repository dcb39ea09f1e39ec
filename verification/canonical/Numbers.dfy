/**
 The numbers of canonical JSON and their text. A finite double is represented by the shortest decimal that
 identifies it, which is what ECMAScript prints: 0.d1d2..dk * 10^point with d1 and dk not zero. RFC 8785, section
 3.2.2.3, refers to the same algorithm (Number::toString of ECMA-262). Negative zero prints as zero and is Zero here.
 */
module Numbers {
  import opened Prelude
  import opened Texts

  type Digit = d: int | 0 <= d < 10

  datatype Decimal = Zero | Dec(negative: bool, digits: seq<Digit>, point: int)

  predicate Normal(n: Decimal) {
    n.Dec? ==> n.digits != [] && n.digits[0] != 0 && n.digits[|n.digits| - 1] != 0
  }

  type Num = n: Decimal | Normal(n) witness Zero

  // ----- decimal digits of naturals -----

  function DigitsOf(n: nat): (ds: seq<Digit>)
    ensures ds != []
    ensures n > 0 ==> ds[0] != 0
  {
    if n < 10 then [n] else DigitsOf(n / 10) + [n % 10]
  }

  function NatOf(ds: seq<Digit>): nat {
    if ds == [] then 0 else 10 * NatOf(ds[..|ds| - 1]) + ds[|ds| - 1]
  }

  lemma {:induction false} NatOfDigitsOf(n: nat)
    ensures NatOf(DigitsOf(n)) == n
  {
    if n < 10 {
      assert NatOf([n]) == 10 * NatOf([n][..0]) + n;
    } else {
      NatOfDigitsOf(n / 10);
      assert (DigitsOf(n / 10) + [n % 10])[..|DigitsOf(n / 10)|] == DigitsOf(n / 10);
    }
  }

  function Zeros(n: nat): (ds: seq<Digit>)
    ensures |ds| == n
    ensures forall i :: 0 <= i < n ==> ds[i] == 0
  {
    seq(n, i requires 0 <= i < n => 0)
  }

  function StripLeading(ds: seq<Digit>): (r: seq<Digit>)
    ensures |r| <= |ds|
    ensures r != [] ==> r[0] != 0
  {
    if ds != [] && ds[0] == 0 then StripLeading(ds[1..]) else ds
  }

  function StripTrailing(ds: seq<Digit>): (r: seq<Digit>)
    ensures |r| <= |ds|
    ensures r != [] ==> r[|r| - 1] != 0
    ensures ds != [] && ds[0] != 0 ==> r != [] && r[0] != 0
  {
    if ds != [] && ds[|ds| - 1] == 0 then StripTrailing(ds[..|ds| - 1]) else ds
  }

  lemma {:induction false} StripLeadingZeros(n: nat, ds: seq<Digit>)
    requires ds != [] && ds[0] != 0
    ensures StripLeading(Zeros(n) + ds) == ds
  {
    if n == 0 {
      assert Zeros(0) + ds == ds;
    } else {
      assert (Zeros(n) + ds)[1..] == Zeros(n - 1) + ds;
      StripLeadingZeros(n - 1, ds);
    }
  }

  lemma {:induction false} StripTrailingZeros(ds: seq<Digit>, n: nat)
    requires ds != [] && ds[|ds| - 1] != 0
    ensures StripTrailing(ds + Zeros(n)) == ds
  {
    if n == 0 {
      assert ds + Zeros(0) == ds;
    } else {
      assert (ds + Zeros(n))[..|ds| + n - 1] == ds + Zeros(n - 1);
      StripTrailingZeros(ds, n - 1);
    }
  }

  // ----- printing -----

  function Chars(ds: seq<Digit>): (t: Text)
    ensures |t| == |ds|
    ensures forall i :: 0 <= i < |ds| ==> t[i] == ZERO + ds[i]
  {
    seq(|ds|, i requires 0 <= i < |ds| => ZERO + ds[i])
  }

  function Sign(negative: bool): Text {
    if negative then [MINUS] else []
  }

  /** The four layouts of ECMAScript: integer, decimal fraction, small fraction, exponent. */
  function PrintMagnitude(ds: seq<Digit>, point: int): Text
    requires ds != []
  {
    var k := |ds|;
    if k <= point <= 21 then Chars(ds + Zeros(point - k))
    else if 0 < point <= 21 then Chars(ds[..point]) + ([DOT] + Chars(ds[point..]))
    else if -6 < point <= 0 then Chars([0]) + ([DOT] + Chars(Zeros(-point) + ds))
    else if k == 1 then Chars(ds) + PrintExponent(point - 1)
    else Chars(ds[..1]) + ([DOT] + Chars(ds[1..]) + PrintExponent(point - 1))
  }

  function PrintNumber(n: Num): Text {
    match n
    case Zero => Chars([0])
    case Dec(negative, ds, point) => Sign(negative) + PrintMagnitude(ds, point)
  }

  function PrintExponent(e: int): Text {
    [LETTER_E, if e < 0 then MINUS else PLUS] + Chars(DigitsOf(if e < 0 then -e else e))
  }

  // ----- parsing -----

  predicate IsDigit(u: Unit) { ZERO <= u < ZERO + 10 }

  /** What may follow a number inside canonical JSON: nothing, a comma or a closing bracket or brace. */
  predicate Delimited(rest: Text) {
    rest == [] || rest[0] == COMMA || rest[0] == CLOSE_BRACKET || rest[0] == CLOSE_BRACE
  }

  function TakeDigits(s: Text): (r: (seq<Digit>, Text))
    ensures |r.1| + |r.0| == |s|
  {
    if s != [] && IsDigit(s[0]) then
      var (ds, rest) := TakeDigits(s[1..]);
      ([s[0] - ZERO] + ds, rest)
    else ([], s)
  }

  function ParseFraction(s: Text): (r: (seq<Digit>, Text))
    ensures |r.1| <= |s|
  {
    if s != [] && s[0] == DOT then TakeDigits(s[1..]) else ([], s)
  }

  function ParseExponent(s: Text): (r: (int, Text))
    ensures |r.1| <= |s|
  {
    if |s| >= 2 && s[0] == LETTER_E then
      var (ds, rest) := TakeDigits(s[2..]);
      (if s[1] == MINUS then -(NatOf(ds) as int) else NatOf(ds) as int, rest)
    else (0, s)
  }

  /** The number written as integer digits, fraction digits and a power of ten. */
  function Decode(negative: bool, whole: seq<Digit>, fraction: seq<Digit>, exponent: int): Num {
    var core := StripLeading(whole + fraction);
    if core == [] then Zero
    else Dec(negative, StripTrailing(core), |core| - |fraction| + exponent)
  }

  function ParseNumber(s: Text): (r: Option<(Num, Text)>)
    ensures r.Some? ==> |r.value.1| < |s|
  {
    var negative := s != [] && s[0] == MINUS;
    var (whole, s1) := TakeDigits(if negative then s[1..] else s);
    if whole == [] then None
    else
      var (fraction, s2) := ParseFraction(s1);
      var (exponent, rest) := ParseExponent(s2);
      Some((Decode(negative, whole, fraction, exponent), rest))
  }

  // ----- the round trip -----

  lemma {:induction false} TakePrintedDigits(ds: seq<Digit>, rest: Text)
    requires rest == [] || !IsDigit(rest[0])
    ensures TakeDigits(Chars(ds) + rest) == (ds, rest)
  {
    var s := Chars(ds) + rest;
    if ds == [] {
      assert s == rest;
    } else {
      assert s[1..] == Chars(ds[1..]) + rest;
      TakePrintedDigits(ds[1..], rest);
      assert [s[0] - ZERO] + ds[1..] == ds;
    }
  }

  lemma ParsePrintedFraction(ds: seq<Digit>, rest: Text)
    requires rest == [] || !IsDigit(rest[0])
    ensures ParseFraction(([DOT] + Chars(ds)) + rest) == (ds, rest)
  {
    Assoc([DOT], Chars(ds), rest);
    DropPrefix([DOT], Chars(ds) + rest);
    TakePrintedDigits(ds, rest);
  }

  lemma ParsePrintedExponent(e: int, rest: Text)
    requires Delimited(rest)
    ensures ParseExponent(PrintExponent(e) + rest) == (e, rest)
  {
    var n: nat := if e < 0 then -e else e;
    var mark: Text := [LETTER_E, if e < 0 then MINUS else PLUS];
    var ds := DigitsOf(n);
    Assoc(mark, Chars(ds), rest);
    DropPrefix(mark, Chars(ds) + rest);
    TakePrintedDigits(ds, rest);
    NatOfDigitsOf(n);
    assert PrintExponent(e) + rest == mark + (Chars(ds) + rest);
  }

  /** Parsing a text laid out as sign, integer digits and what follows them. */
  lemma ParseLayout(negative: bool, whole: seq<Digit>, tail: Text, fraction: seq<Digit>, s2: Text, exponent: int, rest: Text)
    requires whole != []
    requires tail == [] || !IsDigit(tail[0])
    requires ParseFraction(tail) == (fraction, s2) && ParseExponent(s2) == (exponent, rest)
    ensures ParseNumber(Sign(negative) + (Chars(whole) + tail))
         == Some((Decode(negative, whole, fraction, exponent), rest))
  {
    var body := Chars(whole) + tail;
    TakePrintedDigits(whole, tail);
    DropPrefix(Chars(whole), tail);
    assert body[0] != MINUS;
    assert [] + body == body;
    DropPrefix([MINUS], body);
  }

  lemma DecodeWhole(negative: bool, whole: seq<Digit>, fraction: seq<Digit>, n: Num, zeros: nat, exponent: int)
    requires n.Dec? && n.negative == negative
    requires whole + fraction == n.digits + Zeros(zeros)
    requires n.point == |whole| + exponent
    ensures Decode(negative, whole, fraction, exponent) == n
  {
    var all := whole + fraction;
    assert all[0] == n.digits[0];
    assert StripLeading(all) == all;
    StripTrailingZeros(n.digits, zeros);
  }

  lemma DecodeSplit(n: Num, k: nat, exponent: int)
    requires n.Dec? && k <= |n.digits| && n.point == k + exponent
    ensures Decode(n.negative, n.digits[..k], n.digits[k..], exponent) == n
  {
    assert n.digits[..k] + n.digits[k..] == n.digits + Zeros(0);
    DecodeWhole(n.negative, n.digits[..k], n.digits[k..], n, 0, exponent);
  }

  lemma DecodeSmall(n: Num)
    requires n.Dec? && n.point <= 0
    ensures Decode(n.negative, [0], Zeros(-n.point) + n.digits, 0) == n
  {
    assert [0] + (Zeros(-n.point) + n.digits) == Zeros(1 - n.point) + n.digits;
    StripLeadingZeros(1 - n.point, n.digits);
    assert n.digits + Zeros(0) == n.digits;
    StripTrailingZeros(n.digits, 0);
  }

  lemma ParsePrintedInteger(n: Num, rest: Text)
    requires n.Dec? && |n.digits| <= n.point <= 21 && Delimited(rest)
    ensures ParseNumber(PrintNumber(n) + rest) == Some((n, rest))
  {
    var zeros: nat := n.point - |n.digits|;
    var whole := n.digits + Zeros(zeros);
    ParseLayout(n.negative, whole, rest, [], rest, 0, rest);
    assert whole + [] == whole;
    DecodeWhole(n.negative, whole, [], n, zeros, 0);
    Assoc(Sign(n.negative), Chars(whole), rest);
  }

  lemma ParseDecimalLayout(negative: bool, whole: seq<Digit>, fraction: seq<Digit>, rest: Text)
    requires whole != [] && fraction != [] && Delimited(rest)
    ensures ParseNumber(Sign(negative) + (Chars(whole) + ([DOT] + Chars(fraction))) + rest) == Some((Decode(negative, whole, fraction, 0), rest))
  {
    var tail := [DOT] + Chars(fraction);
    ParsePrintedFraction(fraction, rest);
    ParseLayout(negative, whole, tail + rest, fraction, rest, 0, rest);
    Assoc(Sign(negative), Chars(whole) + tail, rest);
    Assoc(Chars(whole), tail, rest);
  }

  lemma ParsePrintedDecimal(n: Num, rest: Text)
    requires n.Dec? && 0 < n.point < |n.digits| && n.point <= 21 && Delimited(rest)
    ensures ParseNumber(PrintNumber(n) + rest) == Some((n, rest))
  {
    var whole, fraction := n.digits[..n.point], n.digits[n.point..];
    ParseDecimalLayout(n.negative, whole, fraction, rest);
    DecodeSplit(n, n.point, 0);
  }

  lemma ParsePrintedSmall(n: Num, rest: Text)
    requires n.Dec? && -6 < n.point <= 0 && Delimited(rest)
    ensures ParseNumber(PrintNumber(n) + rest) == Some((n, rest))
  {
    ParseDecimalLayout(n.negative, [0], Zeros(-n.point) + n.digits, rest);
    DecodeSmall(n);
  }

  lemma ParseScientificLayout(negative: bool, whole: seq<Digit>, fraction: seq<Digit>, exponent: int, rest: Text)
    requires whole != [] && fraction != [] && Delimited(rest)
    ensures var tail := [DOT] + Chars(fraction) + (PrintExponent(exponent) + rest);
      ParseNumber(Sign(negative) + (Chars(whole) + tail)) == Some((Decode(negative, whole, fraction, exponent), rest))
  {
    var e := PrintExponent(exponent) + rest;
    ParsePrintedExponent(exponent, rest);
    DropPrefix(PrintExponent(exponent), rest);
    ParsePrintedFraction(fraction, e);
    ParseLayout(negative, whole, [DOT] + Chars(fraction) + e, fraction, e, exponent, rest);
  }

  lemma ScientificLayout(sign: Text, whole: Text, dotted: Text, e: Text, rest: Text)
    ensures sign + (whole + (dotted + e)) + rest == sign + (whole + (dotted + (e + rest)))
  {
    Assoc(sign, whole + (dotted + e), rest);
    Assoc(whole, dotted + e, rest);
    Assoc(dotted, e, rest);
  }

  lemma ParsePrintedScientific(n: Num, rest: Text)
    requires n.Dec? && (n.point <= -6 || n.point > 21) && |n.digits| > 1 && Delimited(rest)
    ensures ParseNumber(PrintNumber(n) + rest) == Some((n, rest))
  {
    var whole, fraction := n.digits[..1], n.digits[1..];
    ScientificLayout(Sign(n.negative), Chars(whole), [DOT] + Chars(fraction), PrintExponent(n.point - 1), rest);
    ParseScientificLayout(n.negative, whole, fraction, n.point - 1, rest);
    DecodeSplit(n, 1, n.point - 1);
  }

  lemma ParsePrintedPower(n: Num, rest: Text)
    requires n.Dec? && (n.point <= -6 || n.point > 21) && |n.digits| == 1 && Delimited(rest)
    ensures ParseNumber(PrintNumber(n) + rest) == Some((n, rest))
  {
    var e := PrintExponent(n.point - 1);
    ParsePrintedExponent(n.point - 1, rest);
    DropPrefix(e, rest);
    ParseLayout(n.negative, n.digits, e + rest, [], e + rest, n.point - 1, rest);
    assert n.digits[..1] == n.digits && n.digits[1..] == [];
    DecodeSplit(n, 1, n.point - 1);
    Assoc(Sign(n.negative), Chars(n.digits) + e, rest);
    Assoc(Chars(n.digits), e, rest);
  }

  /** Every finite number is recovered from its canonical text, whatever delimiter follows. */
  lemma ParsePrintedNumber(n: Num, rest: Text)
    requires Delimited(rest)
    ensures ParseNumber(PrintNumber(n) + rest) == Some((n, rest))
  {
    match n
    case Zero =>
      ParseLayout(false, [0], rest, [], rest, 0, rest);
      assert StripLeading([0] + []) == StripLeading([0][1..]) == [];
      assert Sign(false) + (Chars([0]) + rest) == PrintNumber(n) + rest;
    case Dec(negative, ds, point) =>
      if |ds| <= point <= 21 { ParsePrintedInteger(n, rest); }
      else if 0 < point <= 21 { ParsePrintedDecimal(n, rest); }
      else if -6 < point <= 0 { ParsePrintedSmall(n, rest); }
      else if |ds| > 1 { ParsePrintedScientific(n, rest); }
      else { ParsePrintedPower(n, rest); }
  }

  /** A number's text starts like a number and like no other JSON value. */
  lemma PrintedNumberStarts(n: Num)
    ensures PrintNumber(n) != []
    ensures IsDigit(PrintNumber(n)[0]) || PrintNumber(n)[0] == MINUS
  {
  }

  // ----- naturals as JSON numbers -----

  function OfNat(n: nat): Num {
    if n == 0 then Zero else Dec(false, StripTrailing(DigitsOf(n)), |DigitsOf(n)|)
  }

  lemma {:induction false} StrippedZeros(ds: seq<Digit>)
    ensures ds == StripTrailing(ds) + Zeros(|ds| - |StripTrailing(ds)|)
  {
    if ds != [] && ds[|ds| - 1] == 0 {
      StrippedZeros(ds[..|ds| - 1]);
      assert ds == ds[..|ds| - 1] + [0];
      assert Zeros(|ds| - |StripTrailing(ds)|) == Zeros(|ds| - 1 - |StripTrailing(ds)|) + [0];
    }
  }

  /** Different naturals are different numbers. */
  lemma OfNatIsInjective(m: nat, n: nat)
    requires OfNat(m) == OfNat(n)
    ensures m == n
  {
    if m != 0 && n != 0 {
      StrippedZeros(DigitsOf(m));
      StrippedZeros(DigitsOf(n));
      NatOfDigitsOf(m);
      NatOfDigitsOf(n);
    }
  }

  // ----- the real number a decimal stands for -----

  function Power10(e: int): real
    decreases if e < 0 then -e else e
  {
    if e == 0 then 1.0 else if e > 0 then 10.0 * Power10(e - 1) else Power10(e + 1) / 10.0
  }

  function ValueOf(n: Num): real {
    match n
    case Zero => 0.0
    case Dec(negative, ds, point) =>
      (if negative then -1.0 else 1.0) * (NatOf(ds) as real) * Power10(point - |ds|)
  }
}
