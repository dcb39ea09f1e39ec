/**
 The form of canonical text, said on the text and on the values it stands for, as RFC 8785 prescribes it: keys ascend by
 their code units (section 3.2.3), strings are escaped as section 3.2.2.2 says, numbers as ECMAScript prints them.
 */
module CanonicalForm {
  import opened Prelude
  import opened Texts
  import opened KeyedLists
  import opened CanonicalJson
  import opened CanonicalParser
  import opened Numbers
  import Strings

  // ----- keys -----

  /** One text is a proper prefix of another, or at the first place where they differ has the smaller code unit. */
  predicate PrecedesAt(k: Text, l: Text, n: nat) {
    n <= |k| && n <= |l| && k[..n] == l[..n] && (|k| == n < |l| || (n < |k| && n < |l| && (k[n] as int) < (l[n] as int)))
  }

  predicate Precedes(k: Text, l: Text) {
    exists n: nat :: n <= |k| && PrecedesAt(k, l, n)
  }

  lemma {:induction false} FirstDifference(k: Text, l: Text) returns (n: nat)
    requires Before(k, l)
    ensures PrecedesAt(k, l, n)
  {
    if k == [] || k[0] != l[0] {
      n := 0;
    } else {
      var m := FirstDifference(k[1..], l[1..]);
      n := m + 1;
      assert k[..n] == [k[0]] + k[1..][..m] && l[..n] == [l[0]] + l[1..][..m];
    }
  }

  lemma {:induction false} BeforeAtTheDifference(k: Text, l: Text, n: nat)
    requires PrecedesAt(k, l, n)
    ensures Before(k, l)
  {
    if n > 0 {
      assert k[0] == k[..n][0] && l[0] == l[..n][0];
      assert k[1..][..n - 1] == k[..n][1..] && l[1..][..n - 1] == l[..n][1..];
      BeforeAtTheDifference(k[1..], l[1..], n - 1);
    }
  }

  /** The order of the source is the order of code units. */
  lemma BeforeExactly(k: Text, l: Text)
    ensures Before(k, l) <==> Precedes(k, l)
  {
    if Before(k, l) { var n := FirstDifference(k, l); }
    if n: nat :| PrecedesAt(k, l, n) { BeforeAtTheDifference(k, l, n); }
  }

  /** At every level of a value the keys of an object ascend. */
  ghost predicate KeysAscend(v: Json) {
    match v
    case Arr(items) => forall i :: 0 <= i < |items| ==> KeysAscend(items[i])
    case Obj(ms) => Ascend(ms) && forall i :: 0 <= i < |ms| ==> KeysAscend(ms[i].value)
    case _ => true
  }

  predicate Ascend<T>(ms: seq<Keyed<T>>) {
    forall i, j :: 0 <= i < j < |ms| ==> Precedes(ms[i].key, ms[j].key)
  }

  lemma {:induction false} SortedKeysAscend<T>(ms: seq<Keyed<T>>, i: nat, j: nat)
    requires StrictlySorted(ms) && i < j < |ms|
    ensures Before(ms[i].key, ms[j].key)
  {
    if i > 0 {
      SortedKeysAscend(ms[1..], i - 1, j - 1);
    } else if j > 1 {
      SortedKeysAscend(ms[1..], 0, j - 1);
      BeforeIsTransitive(ms[0].key, ms[1].key, ms[j].key);
    }
  }

  lemma {:induction false} NormalizingKeepsDistinct(ms: seq<Keyed<Json>>)
    requires DistinctKeys(ms)
    ensures DistinctKeys(NormalizeMembers(ms))
  {
    if ms != [] {
      NormalizingKeepsDistinct(ms[1..]);
      NormalMembersLookups(ms[1..]);
      assert NormalizeMembers(ms)[1..] == NormalizeMembers(ms[1..]);
    }
  }

  lemma {:induction false} NormalKeysAscend(v: Json)
    requires Proper(v)
    ensures KeysAscend(Normalize(v))
  {
    match v
    case Arr(items) =>
      forall i | 0 <= i < |items| ensures KeysAscend(NormalizeItems(items)[i]) { NormalKeysAscend(items[i]); }
    case Obj(ms) =>
      var normal := NormalizeMembers(ms);
      NormalizingKeepsDistinct(ms);
      SortSorts(normal);
      SortAscends(Sort(normal));
      forall i | 0 <= i < |ms| ensures KeysAscend(normal[i].value) { NormalKeysAscend(ms[i].value); }
      SortKeepsAscending(normal);
    case _ =>
  }

  lemma SortAscends<T>(ms: seq<Keyed<T>>)
    requires StrictlySorted(ms)
    ensures Ascend(ms)
  {
    forall i, j | 0 <= i < j < |ms| ensures Precedes(ms[i].key, ms[j].key) {
      SortedKeysAscend(ms, i, j);
      BeforeExactly(ms[i].key, ms[j].key);
    }
  }

  lemma SortKeepsAscending(ms: seq<Keyed<Json>>)
    requires forall i :: 0 <= i < |ms| ==> KeysAscend(ms[i].value)
    ensures forall i :: 0 <= i < |ms| ==> KeysAscend(Sort(ms)[i].value)
  {
    SortHolds(ms);
    forall i | 0 <= i < |ms| ensures KeysAscend(Sort(ms)[i].value) {
      assert Sort(ms)[i] in Sort(ms);
    }
  }

  /** In the value that canonical text reads as, the keys of every object ascend by their code units. */
  lemma CanonicalKeysAscend(v: Json)
    requires Proper(v)
    ensures ParseValue(Canonicalize(v)).Some? && ParseValue(Canonicalize(v)).value.1 == []
    ensures KeysAscend(ParseValue(Canonicalize(v)).value.0)
  {
    ParseCanonical(v);
    NormalKeysAscend(v);
  }

  // ----- numbers -----

  lemma PowersArePositive(e: int)
    ensures Power10(e) > 0.0
    decreases if e < 0 then -e else e
  {
    if e > 0 { PowersArePositive(e - 1); } else if e < 0 { PowersArePositive(e + 1); }
  }

  lemma TenTimes(e: int)
    ensures Power10(e + 1) == 10.0 * Power10(e)
  {
  }

  lemma {:induction false} PowersGrow(a: int, b: int)
    requires a <= b
    ensures Power10(a) <= Power10(b)
    decreases b - a
  {
    if a < b {
      PowersGrow(a, b - 1);
      PowersArePositive(b - 1);
      TenTimes(b - 1);
    }
  }

  /** Powers of ten as naturals. */
  function TenToThe(k: nat): nat { if k == 0 then 1 else 10 * TenToThe(k - 1) }

  lemma {:induction false} PowersAreWhole(k: nat)
    ensures Power10(k) == TenToThe(k) as real
  {
    if k > 0 { PowersAreWhole(k - 1); }
  }

  lemma {:induction false} DigitsBound(ds: seq<Digit>)
    requires ds != [] && ds[0] != 0
    ensures TenToThe(|ds| - 1) <= NatOf(ds) < TenToThe(|ds|)
  {
    var front := ds[..|ds| - 1];
    if front == [] {
      assert NatOf(front) == 0 && TenToThe(1) == 10 * TenToThe(0);
    } else {
      DigitsBound(front);
    }
  }

  /** How large a number is, whatever its sign. */
  function Size(n: Num): real {
    if ValueOf(n) < 0.0 then -ValueOf(n) else ValueOf(n)
  }

  /** The digits of a number as a whole number. */
  function Whole(n: Num): real
    requires n.Dec?
  {
    NatOf(n.digits) as real
  }

  lemma WholesAreBounded(n: Num)
    requires n.Dec?
    ensures 0.0 < Power10(|n.digits| - 1) <= Whole(n) < Power10(|n.digits|)
  {
    DigitsBound(n.digits);
    PowersAreWhole(|n.digits| - 1);
    PowersAreWhole(|n.digits|);
    PowersArePositive(|n.digits| - 1);
  }

  lemma SizeOf(n: Num)
    requires n.Dec?
    ensures Size(n) == Whole(n) * Power10(n.point - |n.digits|)
  {
    WholesAreBounded(n);
    PowersArePositive(n.point - |n.digits|);
    var sign, w, p := if n.negative then -1.0 else 1.0, Whole(n), Power10(n.point - |n.digits|);
    assert ValueOf(n) == sign * w * p;
    SignedProduct(sign, w, p);
  }

  lemma SignedProduct(sign: real, a: real, b: real)
    requires (sign == 1.0 || sign == -1.0) && a > 0.0 && b > 0.0
    ensures a * b > 0.0
    ensures sign * a * b == if sign == 1.0 then a * b else -(a * b)
  {
  }

  lemma WholeSize(n: Num) returns (whole: real)
    requires n.Dec?
    ensures Power10(|n.digits| - 1) <= whole < Power10(|n.digits|)
    ensures Size(n) == whole * Power10(n.point - |n.digits|)
  {
    whole := Whole(n);
    SizeOf(n);
    WholesAreBounded(n);
  }

  // A scale is what steps by factors of ten, whatever else is known of it.

  predicate StepsByTen(scale: int -> real, e: int) {
    scale(e) > 0.0 && scale(e + 1) == 10.0 * scale(e)
  }

  ghost predicate IsScale(scale: int -> real) {
    scale(0) == 1.0 && forall e :: StepsByTen(scale, e)
  }

  lemma TenfoldBounds(low: real, w: real, p: real, high: real)
    ensures low <= w * p < high <==> 10.0 * low <= w * (10.0 * p) < 10.0 * high
  {
    assert w * (10.0 * p) == 10.0 * (w * p);
  }

  /** Bounds on a scale move with the point. */
  lemma {:induction false} ShiftedBounds(scale: int -> real, w: real, k: int, e: int)
    requires IsScale(scale) && scale(k - 1) <= w < scale(k)
    ensures scale(k - 1 + e) <= w * scale(e) < scale(k + e)
    decreases if e < 0 then -e else e
  {
    if e > 0 {
      ShiftedBounds(scale, w, k, e - 1);
      assert StepsByTen(scale, e - 1) && StepsByTen(scale, k - 1 + (e - 1)) && StepsByTen(scale, k + (e - 1));
      TenfoldBounds(scale(k - 1 + (e - 1)), w, scale(e - 1), scale(k + (e - 1)));
    } else if e < 0 {
      ShiftedBounds(scale, w, k, e + 1);
      assert StepsByTen(scale, e) && StepsByTen(scale, k - 1 + e) && StepsByTen(scale, k + e);
      TenfoldBounds(scale(k - 1 + e), w, scale(e), scale(k + e));
    }
  }

  lemma PointBounds(size: real, whole: real, k: int, e: int, point: int)
    requires Power10(k - 1) <= whole < Power10(k) && size == whole * Power10(e) && point == k + e
    ensures Power10(point - 1) <= size < Power10(point)
  {
    var scale: int -> real := i => Power10(i);
    forall i ensures StepsByTen(scale, i) {
      PowersArePositive(i);
      TenTimes(i);
    }
    ShiftedBounds(scale, whole, k, e);
    assert k - 1 + e == point - 1;
  }

  /** The point of a decimal says between which powers of ten its size lies. */
  lemma PointsTellTheSize(n: Num)
    requires n.Dec?
    ensures Power10(n.point - 1) <= Size(n) < Power10(n.point)
  {
    var whole := WholeSize(n);
    PointBounds(Size(n), whole, |n.digits|, n.point - |n.digits|, n.point);
  }

  lemma TheLimits()
    ensures Power10(21) == 1000000000000000000000.0 && Power10(-6) == 0.000001
  {
    assert Power10(10) == 10000000000.0;
    assert Power10(20) == 100000000000000000000.0;
    assert Power10(-3) == 0.001;
  }

  predicate HasExponent(n: Num) {
    n.Dec? && (Size(n) >= 1000000000000000000000.0 || Size(n) < 0.000001)
  }

  lemma ExponentsByPoint(n: Num)
    requires n.Dec?
    ensures HasExponent(n) <==> n.point > 21 || n.point <= -6
  {
    PointsTellTheSize(n);
    TheLimits();
    if n.point > 21 { PowersGrow(21, n.point - 1); } else { PowersGrow(n.point, 21); }
    if n.point <= -6 { PowersGrow(n.point, -6); } else { PowersGrow(-6, n.point - 1); }
  }

  predicate OfDigits(t: Text) { forall i :: 0 <= i < |t| ==> ZERO <= t[i] < ZERO + 10 }

  /** The exponent says how far the first digit is from the point, with its sign. */
  lemma ExponentIsWritten(n: Num)
    requires HasExponent(n)
    ensures var e := n.point - 1;
      var (mantissa, digits) := (Sign(n.negative) + (if |n.digits| == 1 then Chars(n.digits) else Chars(n.digits[..1]) + ([DOT] + Chars(n.digits[1..]))),
                                 Chars(DigitsOf(if e < 0 then -e else e)));
      PrintNumber(n) == mantissa + ([LETTER_E, if Size(n) >= 1.0 then PLUS else MINUS] + digits)
  {
    ExponentsByPoint(n);
    PointsTellTheSize(n);
    if n.point > 21 { PowersGrow(0, n.point - 1); } else { PowersGrow(n.point, 0); }
    var e := PrintExponent(n.point - 1);
    if |n.digits| == 1 {
      Assoc(Sign(n.negative), Chars(n.digits), e);
    } else {
      Assoc(Chars(n.digits[..1]), [DOT] + Chars(n.digits[1..]), e);
      Assoc(Sign(n.negative), Chars(n.digits[..1]) + ([DOT] + Chars(n.digits[1..])), e);
    }
  }

  lemma NoExponentIsWritten(n: Num)
    requires !HasExponent(n)
    ensures forall i :: 0 <= i < |PrintNumber(n)| ==> PrintNumber(n)[i] != LETTER_E
  {
    if n.Dec? {
      ExponentsByPoint(n);
      PlainMagnitude(n.digits, n.point);
    }
  }

  lemma PlainMagnitude(ds: seq<Digit>, point: int)
    requires ds != [] && -6 < point <= 21
    ensures forall i :: 0 <= i < |PrintMagnitude(ds, point)| ==> PrintMagnitude(ds, point)[i] != LETTER_E
  {
  }

  /** A number is written with an exponent exactly when it is at least 1e21 or, not being zero, smaller than 1e-6. */
  lemma ExponentsAppearExactly(n: Num)
    ensures LETTER_E in PrintNumber(n) <==> HasExponent(n)
  {
    if HasExponent(n) {
      ExponentIsWritten(n);
    } else {
      NoExponentIsWritten(n);
    }
  }

  /** Digits in front of the point and behind it, with no zero to spare. */
  predicate IsMinimal(whole: seq<Digit>, fraction: seq<Digit>) {
    && whole != [] && (whole[0] == 0 ==> |whole| == 1)
    && (fraction != [] ==> fraction[|fraction| - 1] != 0)
  }

  function Pointed(whole: seq<Digit>, fraction: seq<Digit>): Text {
    Chars(whole) + (if fraction == [] then [] else [DOT] + Chars(fraction))
  }

  lemma PlainMagnitudesAreMinimal(ds: seq<Digit>, point: int) returns (whole: seq<Digit>, fraction: seq<Digit>)
    requires ds != [] && ds[0] != 0 && ds[|ds| - 1] != 0 && -6 < point <= 21
    ensures PrintMagnitude(ds, point) == Pointed(whole, fraction) && IsMinimal(whole, fraction)
  {
    if |ds| <= point {
      whole, fraction := ds + Zeros(point - |ds|), [];
      assert Chars(whole) + [] == Chars(whole);
    } else if 0 < point {
      whole, fraction := ds[..point], ds[point..];
    } else {
      whole, fraction := [0], Zeros(-point) + ds;
    }
  }

  /** A number in plain layout has no zero to spare: none before another digit in front, none at the end of a fraction. */
  lemma PlainNumbersAreMinimal(n: Num) returns (whole: seq<Digit>, fraction: seq<Digit>)
    requires !HasExponent(n)
    ensures PrintNumber(n) == Sign(ValueOf(n) < 0.0) + Pointed(whole, fraction) && IsMinimal(whole, fraction)
  {
    match n
    case Zero =>
      whole, fraction := [0], [];
      assert Chars([0]) + [] == Chars([0]);
    case Dec(negative, ds, point) =>
      ExponentsByPoint(n);
      SignOf(n);
      whole, fraction := PlainMagnitudesAreMinimal(ds, point);
  }

  lemma SignOf(n: Num)
    requires n.Dec?
    ensures ValueOf(n) < 0.0 <==> n.negative
  {
    var sign, w, p := if n.negative then -1.0 else 1.0, Whole(n), Power10(n.point - |n.digits|);
    WholesAreBounded(n);
    PowersArePositive(n.point - |n.digits|);
    assert ValueOf(n) == sign * w * p;
    SignedProduct(sign, w, p);
  }

  // ----- strings -----

  /** The value of a text as a number in base 16, if it has lower-case digits only. */
  function HexOf(t: Text): Option<nat> {
    if t == [] then Some(0)
    else
      var (u, front) := (t[|t| - 1], HexOf(t[..|t| - 1]));
      if front.None? then None
      else if 0x30 <= u <= 0x39 then Some(16 * front.value + (u - 0x30))
      else if 0x61 <= u <= 0x66 then Some(16 * front.value + (u - 0x61 + 10))
      else None
  }

  lemma HexDigitsCount(t: Text, d: nat)
    requires d < 16 && HexOf(t).Some?
    ensures HexOf(t + [Strings.HexDigit(d)]) == Some(16 * HexOf(t).value + d)
  {
    assert (t + [Strings.HexDigit(d)])[..|t|] == t;
  }

  lemma EscapedInHex(u: Unit)
    ensures HexOf(Strings.EscapeHex(u)[2..]) == Some(u)
  {
    var a, b, c, d := u / 4096, u / 256 % 16, u / 16 % 16, u % 16;
    HexDigitsCount([], a);
    var ta := [] + [Strings.HexDigit(a)];
    HexDigitsCount(ta, b);
    var tb := ta + [Strings.HexDigit(b)];
    HexDigitsCount(tb, c);
    var tc := tb + [Strings.HexDigit(c)];
    HexDigitsCount(tc, d);
    Strings.FourDigits(u);
    assert Strings.EscapeHex(u)[2..] == tc + [Strings.HexDigit(d)];
  }

  /**
   How a code unit is written: the two-character escapes, four lower-case hexadecimal digits for the other control
   characters and for surrogates without partner, and everything else as it is.
   */
  lemma EscapesFollowTheStandard(u: Unit)
    ensures var e := Strings.EscapeUnit(u);
      if u == 8 then e == Ascii("\\b")
      else if u == 9 then e == Ascii("\\t")
      else if u == 10 then e == Ascii("\\n")
      else if u == 12 then e == Ascii("\\f")
      else if u == 13 then e == Ascii("\\r")
      else if u == 0x22 then e == Ascii("\\\"")
      else if u == 0x5C then e == Ascii("\\\\")
      else if u < 0x20 || 0xD800 <= u < 0xE000 then
        |e| == 6 && e[..2] == Ascii("\\u") && HexOf(e[2..]) == Some(u)
      else e == [u]
  {
    EscapedInHex(u);
  }
}
