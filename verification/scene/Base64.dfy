/**
 Base64 as `btoa` and `atob` do it, and the URL-safe form without padding that the source makes of it
 (packages/core/src/sceneSerializer.ts; RFC 4648, sections 4 and 5).
 */
module Base64 {
  import opened Prelude
  import opened Texts

  import Utf8

  type Byte = Utf8.Byte

  type Sextet = v: int | 0 <= v < 64

  const SLASH: Unit := 47
  const EQUALS: Unit := 61
  const UNDERSCORE: Unit := 95

  /** The alphabet of RFC 4648, section 4. */
  function Symbol(v: Sextet): Unit {
    if v < 26 then 65 + v
    else if v < 52 then 97 + (v - 26)
    else if v < 62 then 48 + (v - 52)
    else if v == 62 then PLUS
    else SLASH
  }

  function SextetOf(u: Unit): Option<Sextet> {
    if 65 <= u < 91 then Some(u - 65)
    else if 97 <= u < 123 then Some(u - 97 + 26)
    else if 48 <= u < 58 then Some(u - 48 + 52)
    else if u == PLUS then Some(62)
    else if u == SLASH then Some(63)
    else None
  }

  /** The bits of the bytes in groups of six, the last group filled up with zeros. */
  function Sextets(bytes: seq<Byte>): (r: seq<Sextet>)
    ensures |r| == (|bytes| * 4 + 2) / 3
  {
    if bytes == [] then []
    else if |bytes| == 1 then [bytes[0] / 4, bytes[0] % 4 * 16]
    else if |bytes| == 2 then [bytes[0] / 4, bytes[0] % 4 * 16 + bytes[1] / 16, bytes[1] % 16 * 4]
    else
      [bytes[0] / 4, bytes[0] % 4 * 16 + bytes[1] / 16, bytes[1] % 16 * 4 + bytes[2] / 64, bytes[2] % 64]
      + Sextets(bytes[3..])
  }

  /** The bytes of groups of six bits; bits that fill no byte are dropped, a single group is no byte. */
  function Bytes(vs: seq<Sextet>): Option<seq<Byte>> {
    if vs == [] then Some([])
    else if |vs| == 1 then None
    else
      var first: Byte := (vs[0] as int) * 4 + (vs[1] as int) / 16;
      if |vs| == 2 then Some([first])
      else
        var second: Byte := (vs[1] as int) % 16 * 16 + (vs[2] as int) / 4;
        if |vs| == 3 then Some([first, second])
        else match Bytes(vs[4..])
          case None => None
          case Some(rest) => Some([first, second, (vs[2] as int) % 4 * 64 + (vs[3] as int)] + rest)
  }

  function Spelled(vs: seq<Sextet>, f: Sextet -> Unit): (t: Text)
    ensures |t| == |vs| && forall i :: 0 <= i < |vs| ==> t[i] == f(vs[i])
  {
    seq(|vs|, i requires 0 <= i < |vs| => f(vs[i]))
  }

  function Unspelled(t: Text): (r: Option<seq<Sextet>>)
    ensures r.Some? <==> forall i :: 0 <= i < |t| ==> SextetOf(t[i]).Some?
    ensures r.Some? ==> |r.value| == |t| && forall i :: 0 <= i < |t| ==> SextetOf(t[i]) == Some(r.value[i])
  {
    if t == [] then Some([])
    else match (SextetOf(t[0]), Unspelled(t[1..]))
      case (Some(v), Some(rest)) => Some([v] + rest)
      case _ => None
  }

  function Pads(n: nat): Text { seq(n, i => EQUALS) }

  /** How many padding signs complete an encoding of n bytes. */
  function PadCount(n: nat): nat {
    if n % 3 == 0 then 0 else 3 - n % 3
  }

  /** `btoa`. */
  function Encode(bytes: seq<Byte>): Text {
    Spelled(Sextets(bytes), Symbol) + Pads(PadCount(|bytes|))
  }

  function DecodeBare(t: Text): Option<seq<Byte>> {
    match Unspelled(t)
    case None => None
    case Some(vs) => Bytes(vs)
  }

  /** `atob`: a text of whole groups may end in up to two padding signs. */
  function Decode(t: Text): Option<seq<Byte>> {
    if |t| % 4 == 0 && |t| > 0 && t[|t| - 1] == EQUALS then
      if t[|t| - 2] == EQUALS then DecodeBare(t[..|t| - 2]) else DecodeBare(t[..|t| - 1])
    else DecodeBare(t)
  }

  // ----- the URL-safe form -----

  function UrlSymbol(u: Unit): Unit {
    if u == PLUS then MINUS else if u == SLASH then UNDERSCORE else u
  }

  function StandardSymbol(u: Unit): Unit {
    if u == MINUS then PLUS else if u == UNDERSCORE then SLASH else u
  }

  function Mapped(f: Unit -> Unit, t: Text): (r: Text)
    ensures |r| == |t| && forall i :: 0 <= i < |t| ==> r[i] == f(t[i])
  {
    seq(|t|, i requires 0 <= i < |t| => f(t[i]))
  }

  /** Removes the padding signs at the end. */
  function Stripped(t: Text): Text {
    if t != [] && t[|t| - 1] == EQUALS then Stripped(t[..|t| - 1]) else t
  }

  /** Appends padding signs up to a whole number of groups. */
  function Padded(t: Text): (r: Text)
    ensures |r| % 4 == 0 && t <= r
    decreases (4 - |t| % 4) % 4
  {
    if |t| % 4 == 0 then t else Padded(t + [EQUALS])
  }

  function ToUrl(bytes: seq<Byte>): Text {
    Stripped(Mapped(UrlSymbol, Encode(bytes)))
  }

  function FromUrl(t: Text): Option<seq<Byte>> {
    Decode(Padded(Mapped(StandardSymbol, t)))
  }

  // ----- what it comes to -----

  /** The alphabet of RFC 4648, section 5. */
  function UrlAlphabet(v: Sextet): Unit {
    if v < 26 then 65 + v
    else if v < 52 then 97 + (v - 26)
    else if v < 62 then 48 + (v - 52)
    else if v == 62 then MINUS
    else UNDERSCORE
  }

  lemma {:induction false} StrippedPads(t: Text, n: nat)
    requires t == [] || t[|t| - 1] != EQUALS
    ensures Stripped(t + Pads(n)) == t
  {
    if n > 0 {
      StrippedPads(t, n - 1);
      assert (t + Pads(n))[..|t| + n - 1] == t + Pads(n - 1);
    } else {
      assert t + Pads(0) == t;
    }
  }

  /** What the source makes by replacing and stripping is the unpadded form of RFC 4648, section 5. */
  lemma UrlFormFollowsTheStandard(bytes: seq<Byte>)
    ensures ToUrl(bytes) == Spelled(Sextets(bytes), UrlAlphabet)
  {
    var vs, n := Sextets(bytes), PadCount(|bytes|);
    var t := Spelled(vs, UrlAlphabet);
    assert Mapped(UrlSymbol, Encode(bytes)) == t + Pads(n);
    StrippedPads(t, n);
  }

  lemma AlphabetIsUrlSafe(vs: seq<Sextet>)
    ensures forall i :: 0 <= i < |vs| ==> UrlSafe(Spelled(vs, UrlAlphabet)[i])
  {
  }

  /** The URL form uses letters, digits, '-' and '_' only, and is never one more than whole groups long. */
  lemma UrlFormIsUrlSafe(bytes: seq<Byte>)
    ensures |ToUrl(bytes)| % 4 != 1
    ensures forall i :: 0 <= i < |ToUrl(bytes)| ==> UrlSafe(ToUrl(bytes)[i])
    ensures ToUrl(bytes) == [] <==> bytes == []
  {
    UrlFormFollowsTheStandard(bytes);
    AlphabetIsUrlSafe(Sextets(bytes));
  }

  predicate UrlSafe(u: Unit) {
    65 <= u < 91 || 97 <= u < 123 || 48 <= u < 58 || u == MINUS || u == UNDERSCORE
  }

  lemma SymbolsRoundTrip(v: Sextet)
    ensures SextetOf(Symbol(v)) == Some(v)
  {
  }

  lemma BitsRoundTrip(x: Byte, y: Byte, z: Byte)
    ensures x / 4 * 4 + (x % 4 * 16 + y / 16) / 16 == x && x / 4 * 4 + (x % 4 * 16) / 16 == x
    ensures (x % 4 * 16 + y / 16) % 16 * 16 + (y % 16 * 4 + z / 64) / 4 == y
    ensures (x % 4 * 16 + y / 16) % 16 * 16 + (y % 16 * 4) / 4 == y
    ensures (y % 16 * 4 + z / 64) % 4 * 64 + z % 64 == z
  {
  }

  lemma {:induction false} SextetsRoundTrip(bytes: seq<Byte>)
    ensures Bytes(Sextets(bytes)) == Some(bytes)
  {
    if |bytes| >= 3 {
      BitsRoundTrip(bytes[0], bytes[1], bytes[2]);
      SextetsRoundTrip(bytes[3..]);
      assert Sextets(bytes)[4..] == Sextets(bytes[3..]);
      assert bytes == [bytes[0], bytes[1], bytes[2]] + bytes[3..];
    } else if |bytes| == 2 {
      BitsRoundTrip(bytes[0], bytes[1], 0);
      assert bytes == [bytes[0], bytes[1]];
    } else if |bytes| == 1 {
      BitsRoundTrip(bytes[0], 0, 0);
      assert bytes == [bytes[0]];
    }
  }

  lemma DecodeSpelled(bytes: seq<Byte>)
    ensures DecodeBare(Spelled(Sextets(bytes), Symbol)) == Some(bytes)
  {
    var vs := Sextets(bytes);
    var t := Spelled(vs, Symbol);
    forall i | 0 <= i < |vs| ensures SextetOf(t[i]) == Some(vs[i]) { SymbolsRoundTrip(vs[i]); }
    assert Unspelled(t).value == vs;
    SextetsRoundTrip(bytes);
  }

  /** How many padding signs complete n symbols. */
  function Missing(n: nat): nat {
    if n % 4 == 0 then 0 else 4 - n % 4
  }

  lemma {:induction false} PaddedAddsPads(t: Text)
    ensures Padded(t) == t + Pads(Missing(|t|))
    decreases Missing(|t|)
  {
    if |t| % 4 == 0 {
      assert t + Pads(0) == t;
    } else {
      PaddedAddsPads(t + [EQUALS]);
      assert Missing(|t|) == Missing(|t| + 1) + 1;
      assert t + [EQUALS] + Pads(Missing(|t| + 1)) == t + Pads(Missing(|t|));
    }
  }

  lemma DecodePadded(t: Text)
    requires |t| % 4 != 1 && (t == [] || t[|t| - 1] != EQUALS)
    ensures Decode(t + Pads(Missing(|t|))) == DecodeBare(t)
  {
    var n := Missing(|t|);
    var p := t + Pads(n);
    assert |p| % 4 == 0;
    if n == 0 {
      assert p == t;
    } else if n == 1 {
      assert p[|p| - 1] == EQUALS && p[|p| - 2] == t[|t| - 1];
      assert p[..|p| - 1] == t;
    } else {
      assert p[|p| - 1] == EQUALS && p[|p| - 2] == EQUALS;
      assert p[..|p| - 2] == t;
    }
  }

  /** Encoding, making it URL safe and stripping it, then restoring, padding and decoding gives the bytes back. */
  lemma UrlRoundTrip(bytes: seq<Byte>)
    ensures FromUrl(ToUrl(bytes)) == Some(bytes)
  {
    UrlFormFollowsTheStandard(bytes);
    RestoredSymbols(Sextets(bytes));
    SextetsMakeBytes(|bytes|);
    PaddedAddsPads(Spelled(Sextets(bytes), Symbol));
    DecodePadded(Spelled(Sextets(bytes), Symbol));
    DecodeSpelled(bytes);
  }

  lemma SextetsMakeBytes(n: nat)
    ensures ((n * 4 + 2) / 3) % 4 != 1
  {
    SymbolCount(n / 3, n % 3);
  }

  lemma RestoredSymbols(vs: seq<Sextet>)
    ensures Mapped(StandardSymbol, Spelled(vs, UrlAlphabet)) == Spelled(vs, Symbol)
  {
  }

  lemma SymbolCount(q: nat, r: nat)
    requires r < 3
    ensures ((3 * q + r) * 4 + 2) / 3 == 4 * q + if r == 0 then 0 else r + 1
  {
    assert (3 * q + r) * 4 + 2 == 3 * (4 * q) + (4 * r + 2);
  }

  lemma MissingOfGroups(q: nat, k: nat)
    requires k < 4
    ensures Missing(4 * q + k) == if k == 0 then 0 else 4 - k
  {
    assert (4 * q + k) % 4 == k;
  }

  lemma MissingPads(n: nat)
    ensures Missing((n * 4 + 2) / 3) == PadCount(n)
  {
    var q, r := n / 3, n % 3;
    assert n == 3 * q + r;
    SymbolCount(q, r);
    MissingOfGroups(q, if r == 0 then 0 else r + 1);
  }

  /** Restoring the alphabet and padding gives back the very text `btoa` made: any decoder of standard base64 will do. */
  lemma RestoredIsStandard(bytes: seq<Byte>)
    ensures Padded(Mapped(StandardSymbol, ToUrl(bytes))) == Encode(bytes)
  {
    UrlFormFollowsTheStandard(bytes);
    RestoredSymbols(Sextets(bytes));
    PaddedAddsPads(Spelled(Sextets(bytes), Symbol));
    MissingPads(|bytes|);
  }

  // ----- the loops of the source -----

  /** The encoder: collects the bytes into a binary string, then encodes, replaces and strips. */
  method BytesToBase64Url(bytes: array<Byte>) returns (url: Text)
    ensures url == ToUrl(bytes[..])
    ensures FromUrl(url) == Some(bytes[..])
  {
    var binary: seq<Byte> := [];
    for i := 0 to bytes.Length
      invariant binary == bytes[..i]
    {
      binary := binary + [bytes[i]];
    }
    assert bytes[..bytes.Length] == bytes[..];
    url := Stripped(Mapped(UrlSymbol, Encode(binary)));
    UrlRoundTrip(bytes[..]);
  }

  lemma OneCloser(n: nat)
    requires n % 4 != 0
    ensures (4 - (n + 1) % 4) % 4 < (4 - n % 4) % 4
  {
  }

  lemma PaddingGoesOn(t: Text)
    requires |t| % 4 != 0
    ensures Padded(t + [EQUALS]) == Padded(t)
  {
  }

  lemma PaddingEnds(t: Text)
    requires |t| % 4 == 0
    ensures Padded(t) == t
  {
  }

  /** The decoder: restores the alphabet, pads in a loop, decodes and fills a byte array. */
  method Base64UrlToBytes(url: Text) returns (bytes: Option<array<Byte>>)
    ensures bytes.Some? <==> FromUrl(url).Some?
    ensures bytes.Some? ==> fresh(bytes.value) && Some(bytes.value[..]) == FromUrl(url)
  {
    var base64 := Mapped(StandardSymbol, url);
    ghost var padded := Padded(base64);
    while |base64| % 4 != 0
      invariant Padded(base64) == padded
      decreases (4 - |base64| % 4) % 4
    {
      PaddingGoesOn(base64);
      OneCloser(|base64|);
      base64 := base64 + [EQUALS];
    }
    PaddingEnds(base64);
    match Decode(base64) {
      case None => bytes := None;
      case Some(binary) =>
        var a := Filled(binary);
        bytes := Some(a);
    }
  }

  method Filled(binary: seq<Byte>) returns (a: array<Byte>)
    ensures fresh(a) && a[..] == binary
  {
    a := new Byte[|binary|];
    for i := 0 to |binary|
      invariant a[..i] == binary[..i]
    {
      a[i] := binary[i];
    }
    assert a[..] == binary;
  }

  // ----- the bits -----

  /** Digits in a base as a number. */
  function NumberIn(b: nat, ds: seq<nat>): nat {
    if ds == [] then 0 else NumberIn(b, ds[..|ds| - 1]) * b + ds[|ds| - 1]
  }

  function Power(b: nat, k: nat): nat { if k == 0 then 1 else b * Power(b, k - 1) }

  lemma {:induction false} NumberOfConcat(b: nat, x: seq<nat>, y: seq<nat>)
    ensures NumberIn(b, x + y) == NumberIn(b, x) * Power(b, |y|) + NumberIn(b, y)
  {
    if y == [] {
      assert x + y == x;
    } else {
      var front, last := y[..|y| - 1], y[|y| - 1];
      assert (x + y)[..|x + y| - 1] == x + front;
      NumberOfConcat(b, x, front);
      Regroup(NumberIn(b, x), Power(b, |front|), NumberIn(b, front), b, last);
    }
  }

  lemma Regroup(x: nat, p: nat, y: nat, b: nat, d: nat)
    ensures (x * p + y) * b + d == x * (b * p) + (y * b + d)
  {
  }

  /** What the zeros that fill up the last group multiply a number by. */
  function Fill(n: nat): nat {
    if n % 3 == 0 then 1 else if n % 3 == 1 then 16 else 4
  }

  predicate FitsTheFill(n: nat) {
    Power(64, (n * 4 + 2) / 3) == Power(256, n) * Fill(n)
  }

  lemma FillGoesOn(n: nat, m: nat)
    requires FitsTheFill(n) && m == (n * 4 + 2) / 3
    ensures Power(64, m + 4) == Power(256, n + 3) * Fill(n)
  {
    PowersOf64(m);
    PowersOf256(n);
    Threefold(Power(256, n), Fill(n));
  }

  lemma GroupCount(n: nat)
    ensures ((n + 3) * 4 + 2) / 3 == (n * 4 + 2) / 3 + 4
  {
  }

  lemma {:induction false} FillFits(n: nat)
    ensures FitsTheFill(n)
  {
    if n >= 3 {
      FillFits(n - 3);
      GroupCount(n - 3);
      FillOfMore(n - 3);
      FillGoesOn(n - 3, ((n - 3) * 4 + 2) / 3);
    } else {
      FewFit(n);
    }
  }

  lemma FewFit(n: nat)
    requires n < 3
    ensures FitsTheFill(n)
  {
    SmallPowers();
  }

  lemma SmallPowers()
    ensures Power(64, 0) == 1 && Power(64, 2) == 4096 && Power(64, 3) == 262144
    ensures Power(256, 0) == 1 && Power(256, 1) == 256 && Power(256, 2) == 65536
  {
    assert Power(64, 1) == 64 && Power(64, 2) == 64 * Power(64, 1) && Power(64, 3) == 64 * Power(64, 2);
    assert Power(256, 1) == 256 && Power(256, 2) == 256 * Power(256, 1);
  }

  lemma Threefold(p: nat, f: nat)
    ensures 16777216 * (p * f) == (16777216 * p) * f
  {
  }

  lemma PowersOf64(n: nat)
    ensures Power(64, n + 4) == 16777216 * Power(64, n)
  {
    assert Power(64, n + 1) == 64 * Power(64, n);
    assert Power(64, n + 2) == 64 * Power(64, n + 1);
    assert Power(64, n + 3) == 64 * Power(64, n + 2);
  }

  lemma PowersOf256(n: nat)
    ensures Power(256, n + 3) == 16777216 * Power(256, n)
  {
    assert Power(256, n + 1) == 256 * Power(256, n);
    assert Power(256, n + 2) == 256 * Power(256, n + 1);
  }

  lemma NumberSnoc(b: nat, ds: seq<nat>, d: nat)
    ensures NumberIn(b, ds + [d]) == NumberIn(b, ds) * b + d
  {
    assert (ds + [d])[..|ds|] == ds;
  }

  lemma NumberOfTwo(b: nat, x: nat, y: nat)
    ensures NumberIn(b, [x]) == x && NumberIn(b, [x, y]) == x * b + y
  {
    NumberSnoc(b, [], x);
    NumberSnoc(b, [x], y);
    assert [] + [x] == [x] && [x] + [y] == [x, y];
  }

  lemma NumberOfThree(b: nat, x: nat, y: nat, z: nat)
    ensures NumberIn(b, [x, y, z]) == (x * b + y) * b + z
  {
    NumberOfTwo(b, x, y);
    NumberSnoc(b, [x, y], z);
    assert [x, y] + [z] == [x, y, z];
  }

  lemma NumberOfFour(b: nat, w: nat, x: nat, y: nat, z: nat)
    ensures NumberIn(b, [w, x, y, z]) == ((w * b + x) * b + y) * b + z
  {
    NumberOfThree(b, w, x, y);
    NumberSnoc(b, [w, x, y], z);
    assert [w, x, y] + [z] == [w, x, y, z];
  }

  /** Three bytes in four groups. */
  function Group(a: Byte, b: Byte, c: Byte): seq<nat> {
    [a / 4, a % 4 * 16 + b / 16, b % 16 * 4 + c / 64, c % 64]
  }

  lemma OneGroup(a: Byte, b: Byte, c: Byte)
    ensures NumberIn(64, Group(a, b, c)) == NumberIn(256, [a, b, c])
  {
    NumberOfFour(64, a / 4, a % 4 * 16 + b / 16, b % 16 * 4 + c / 64, c % 64);
    NumberOfThree(256, a, b, c);
  }

  lemma OneByte(a: Byte)
    ensures NumberIn(64, [a / 4, a % 4 * 16]) == NumberIn(256, [a]) * 16
  {
    NumberOfTwo(64, a / 4, a % 4 * 16);
    NumberOfTwo(256, a, 0);
  }

  lemma TwoBytes(a: Byte, b: Byte)
    ensures NumberIn(64, [a / 4, a % 4 * 16 + b / 16, b % 16 * 4]) == NumberIn(256, [a, b]) * 4
  {
    NumberOfThree(64, a / 4, a % 4 * 16 + b / 16, b % 16 * 4);
    NumberOfTwo(256, a, b);
  }

  /** Two numbers that are put together alike, one of them with room for zeros behind. */
  lemma PutTogether(h: nat, p: nat, f: nat, r: nat, wide: nat, narrow: nat, wideShift: nat, wideRest: nat)
    requires wideShift == p * f && wideRest == r * f
    requires wide == h * wideShift + wideRest && narrow == h * p + r
    ensures wide == narrow * f
  {
    assert h * (p * f) == (h * p) * f;
    assert narrow * f == (h * p) * f + r * f;
  }

  /** Groups and bytes with the same bits, followed by others. */
  lemma GroupsGoOn(group: seq<nat>, head: seq<nat>, sextets: seq<nat>, rest: seq<nat>, f: nat)
    requires NumberIn(64, group) == NumberIn(256, head) && NumberIn(64, sextets) == NumberIn(256, rest) * f
    requires Power(64, |sextets|) == Power(256, |rest|) * f
    ensures NumberIn(64, group + sextets) == NumberIn(256, head + rest) * f
  {
    NumberOfConcat(64, group, sextets);
    NumberOfConcat(256, head, rest);
    PutTogether(NumberIn(256, head), Power(256, |rest|), f, NumberIn(256, rest), NumberIn(64, group + sextets),
                NumberIn(256, head + rest), Power(64, |sextets|), NumberIn(64, sextets));
  }

  lemma SextetsOfMany(bytes: seq<Byte>)
    requires |bytes| >= 3
    ensures Sextets(bytes) == Group(bytes[0], bytes[1], bytes[2]) + Sextets(bytes[3..])
  {
  }

  lemma FillOfMore(n: nat)
    ensures Fill(n + 3) == Fill(n)
  {
  }

  lemma FrontOf(bytes: seq<Byte>)
    requires |bytes| >= 3
    ensures bytes == [bytes[0], bytes[1], bytes[2]] + bytes[3..]
  {
  }

  lemma SextetsOfOne(a: Byte)
    ensures Sextets([a]) == [a / 4, a % 4 * 16]
  {
  }

  lemma SextetsOfTwo(a: Byte, b: Byte)
    ensures Sextets([a, b]) == [a / 4, a % 4 * 16 + b / 16, b % 16 * 4]
  {
  }

  lemma OneByteKeepsItsBits(a: Byte)
    ensures NumberIn(64, Sextets([a])) == NumberIn(256, [a]) * 16
  {
    OneByte(a);
    SextetsOfOne(a);
  }

  lemma TwoBytesKeepTheirBits(a: Byte, b: Byte)
    ensures NumberIn(64, Sextets([a, b])) == NumberIn(256, [a, b]) * 4
  {
    TwoBytes(a, b);
    SextetsOfTwo(a, b);
  }

  /** A number followed by the zeros that fill up the last group of n bytes: four after one byte, two after two. */
  function ZeroFilled(x: nat, n: nat): nat {
    if n % 3 == 0 then x else if n % 3 == 1 then x * 16 else x * 4
  }

  lemma ZeroFilledIsTimes(x: nat, n: nat)
    ensures ZeroFilled(x, n) == x * Fill(n)
  {
  }

  predicate KeepsTheBits(bytes: seq<Byte>) {
    NumberIn(64, Sextets(bytes)) == ZeroFilled(NumberIn(256, bytes), |bytes|)
  }

  lemma NoByteKeepsTheBits()
    ensures KeepsTheBits([])
  {
  }

  lemma OneByteKeepsTheBits(a: Byte)
    ensures KeepsTheBits([a])
  {
    OneByteKeepsItsBits(a);
  }

  lemma TwoBytesKeepTheBits(a: Byte, b: Byte)
    ensures KeepsTheBits([a, b])
  {
    TwoBytesKeepTheirBits(a, b);
  }

  lemma FewBytes(bytes: seq<Byte>)
    requires |bytes| < 3
    ensures bytes == [] || bytes == [bytes[0]] || bytes == [bytes[0], bytes[1]]
  {
  }

  lemma FewSextets(bytes: seq<Byte>)
    requires |bytes| < 3
    ensures KeepsTheBits(bytes)
  {
    FewBytes(bytes);
    if bytes == [] { NoByteKeepsTheBits(); }
    else if |bytes| == 1 { OneByteKeepsTheBits(bytes[0]); }
    else { TwoBytesKeepTheBits(bytes[0], bytes[1]); }
  }

  /** The groups of six bits are the bits of the bytes, one after the other, with zeros at the end. */
  lemma {:induction false} SextetsKeepTheBits(bytes: seq<Byte>)
    ensures NumberIn(64, Sextets(bytes)) == ZeroFilled(NumberIn(256, bytes), |bytes|)
  {
    if |bytes| < 3 {
      FewSextets(bytes);
    } else {
      var rest := bytes[3..];
      SextetsKeepTheBits(rest);
      FillFits(|rest|);
      OneGroup(bytes[0], bytes[1], bytes[2]);
      ZeroFilledIsTimes(NumberIn(256, rest), |rest|);
      GroupsGoOn(Group(bytes[0], bytes[1], bytes[2]), [bytes[0], bytes[1], bytes[2]], Sextets(rest), rest, Fill(|rest|));
      SextetsOfMany(bytes);
      FrontOf(bytes);
      FillOfMore(|rest|);
      ZeroFilledIsTimes(NumberIn(256, bytes), |bytes|);
    }
  }
}
