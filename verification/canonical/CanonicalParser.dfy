/**
 A parser for canonical JSON and the proof that it inverts the printer, hence that canonical text is unambiguous.
 */
module CanonicalParser {
  import opened Prelude
  import opened Texts
  import opened KeyedLists
  import opened CanonicalJson
  import Numbers
  import Strings

  function StripPrefix(prefix: Text, s: Text): (r: Option<Text>)
    ensures r.Some? ==> |r.value| + |prefix| == |s|
  {
    if prefix <= s then Some(s[|prefix|..]) else None
  }

  function ParseValue(s: Text): (r: Option<(Json, Text)>)
    ensures r.Some? ==> |r.value.1| < |s|
    decreases |s|, 2
  {
    if s == [] then None
    else if s[0] == LETTER_N then
      match StripPrefix(NULL_TEXT, s) { case Some(rest) => Some((Null, rest)) case None => None }
    else if s[0] == LETTER_T then
      match StripPrefix(TRUE_TEXT, s) { case Some(rest) => Some((Bool(true), rest)) case None => None }
    else if s[0] == LETTER_F then
      match StripPrefix(FALSE_TEXT, s) { case Some(rest) => Some((Bool(false), rest)) case None => None }
    else if s[0] == QUOTE then
      match Strings.ParseString(s) { case Some((t, rest)) => Some((Str(t), rest)) case None => None }
    else if s[0] == OPEN_BRACKET then
      if |s| > 1 && s[1] == CLOSE_BRACKET then Some((Arr([]), s[2..]))
      else match ParseItems(s[1..]) { case Some((items, rest)) => Some((Arr(items), rest)) case None => None }
    else if s[0] == OPEN_BRACE then
      if |s| > 1 && s[1] == CLOSE_BRACE then Some((Obj([]), s[2..]))
      else match ParseMembers(s[1..]) { case Some((ms, rest)) => Some((Obj(ms), rest)) case None => None }
    else
      match Numbers.ParseNumber(s) { case Some((n, rest)) => Some((Number(n), rest)) case None => None }
  }

  /** One or more values, separated by commas and closed by a bracket. */
  function ParseItems(s: Text): (r: Option<(seq<Json>, Text)>)
    ensures r.Some? ==> |r.value.1| < |s|
    decreases |s|, 3
  {
    match ParseValue(s)
    case None => None
    case Some((v, s1)) =>
      if s1 == [] then None
      else if s1[0] == CLOSE_BRACKET then Some(([v], s1[1..]))
      else if s1[0] != COMMA then None
      else match ParseItems(s1[1..])
        case None => None
        case Some((items, rest)) => Some(([v] + items, rest))
  }

  function ParseMember(s: Text): (r: Option<(Keyed<Json>, Text)>)
    ensures r.Some? ==> |r.value.1| < |s|
    decreases |s|, 0
  {
    match Strings.ParseString(s)
    case None => None
    case Some((k, s1)) =>
      if s1 == [] || s1[0] != COLON then None
      else match ParseValue(s1[1..])
        case None => None
        case Some((v, rest)) => Some((Keyed(k, v), rest))
  }

  /** One or more members, separated by commas and closed by a brace. */
  function ParseMembers(s: Text): (r: Option<(seq<Keyed<Json>>, Text)>)
    ensures r.Some? ==> |r.value.1| < |s|
    decreases |s|, 1
  {
    match ParseMember(s)
    case None => None
    case Some((m, s1)) =>
      if s1 == [] then None
      else if s1[0] == CLOSE_BRACE then Some(([m], s1[1..]))
      else if s1[0] != COMMA then None
      else match ParseMembers(s1[1..])
        case None => None
        case Some((ms, rest)) => Some(([m] + ms, rest))
  }

  // ----- the parser inverts the printer -----

  lemma ParseLiteral(v: Json, rest: Text)
    requires v.Null? || v.Bool?
    ensures ParseValue(Print(v) + rest) == Some((v, rest))
  {
    var t := Print(v);
    DropPrefix(t, rest);
    assert (t + rest)[0] == t[0];
    assert t <= t + rest;
  }

  lemma FirstOfPrinted(v: Json)
    ensures Print(v) != [] && Print(v)[0] != CLOSE_BRACKET && Print(v)[0] != CLOSE_BRACE
    ensures v.Number? ==> StartsNumber(Print(v)[0])
  {
    if v.Number? { Numbers.PrintedNumberStarts(v.n); }
  }

  /** What no text of another kind begins with. */
  predicate StartsNumber(u: Unit) {
    u != LETTER_N && u != LETTER_T && u != LETTER_F && u != QUOTE && u != OPEN_BRACKET && u != OPEN_BRACE
  }

  lemma OtherTextsAreNumbers(s: Text, n: Numbers.Num, rest: Text)
    requires s != [] && StartsNumber(s[0])
    requires Numbers.ParseNumber(s) == Some((n, rest))
    ensures ParseValue(s) == Some((Number(n), rest))
  {
  }

  lemma ParseNumberValue(v: Json, rest: Text)
    requires v.Number? && Numbers.Delimited(rest)
    ensures ParseValue(Print(v) + rest) == Some((v, rest))
  {
    var t := Print(v) + rest;
    FirstOfPrinted(v);
    assert t[0] == Print(v)[0];
    Numbers.ParsePrintedNumber(v.n, rest);
    OtherTextsAreNumbers(t, v.n, rest);
  }

  lemma ParseStringValue(v: Json, rest: Text)
    requires v.Str?
    ensures ParseValue(Print(v) + rest) == Some((v, rest))
  {
    assert (Print(v) + rest)[0] == QUOTE;
    Strings.ParseQuoted(v.t, rest);
  }

  lemma ParseEmpty(v: Json, rest: Text)
    requires v == Arr([]) || v == Obj([])
    ensures ParseValue(Print(v) + rest) == Some((v, rest))
  {
    var t := Print(v);
    assert |t| == 2;
    DropPrefix(t, rest);
    assert (t + rest)[0] == t[0] && (t + rest)[1] == t[1];
  }

  /** The parser recovers every value from its text, whatever delimiter follows. */
  lemma {:induction false} ParsePrinted(v: Json, rest: Text)
    requires Numbers.Delimited(rest)
    ensures ParseValue(Print(v) + rest) == Some((v, rest))
    decreases v, 2
  {
    match v
    case Null => ParseLiteral(v, rest);
    case Bool(_) => ParseLiteral(v, rest);
    case Number(_) => ParseNumberValue(v, rest);
    case Str(_) => ParseStringValue(v, rest);
    case Arr(items) =>
      if items == [] { ParseEmpty(v, rest); } else { ParsePrintedArray(items, rest); }
    case Obj(ms) =>
      if ms == [] { ParseEmpty(v, rest); } else { ParsePrintedObject(ms, rest); }
  }

  lemma {:induction false} ParsePrintedArray(items: seq<Json>, rest: Text)
    requires items != []
    ensures ParseValue(Print(Arr(items)) + rest) == Some((Arr(items), rest))
    decreases items, 1
  {
    var body := JoinItems(PrintItems(items)) + ([CLOSE_BRACKET] + rest);
    ParsePrintedItems(items, rest);
    Assoc([OPEN_BRACKET], JoinItems(PrintItems(items)) + [CLOSE_BRACKET], rest);
    Assoc(JoinItems(PrintItems(items)), [CLOSE_BRACKET], rest);
    DropPrefix([OPEN_BRACKET], body);
    FirstOfPrinted(items[0]);
    assert body[0] == Print(items[0])[0];
  }

  lemma {:induction false} ParsePrintedItems(items: seq<Json>, rest: Text)
    requires items != []
    ensures ParseItems(JoinItems(PrintItems(items)) + ([CLOSE_BRACKET] + rest)) == Some((items, rest))
    decreases items, 0
  {
    var tail := [CLOSE_BRACKET] + rest;
    var p := Print(items[0]);
    DropPrefix([CLOSE_BRACKET], rest);
    if |items| == 1 {
      ParsePrinted(items[0], tail);
      assert items == [items[0]];
    } else {
      var more := JoinItems(PrintItems(items[1..])) + tail;
      assert PrintItems(items)[1..] == PrintItems(items[1..]);
      ParsePrinted(items[0], [COMMA] + more);
      DropPrefix([COMMA], more);
      ParsePrintedItems(items[1..], rest);
      Assoc(p, [COMMA] + JoinItems(PrintItems(items[1..])), tail);
      Assoc([COMMA], JoinItems(PrintItems(items[1..])), tail);
      assert items == [items[0]] + items[1..];
    }
  }

  lemma {:induction false} ParsePrintedObject(ms: seq<Keyed<Json>>, rest: Text)
    requires ms != []
    ensures ParseValue(Print(Obj(ms)) + rest) == Some((Obj(ms), rest))
    decreases ms, 2
  {
    var body := JoinMembers(PrintMembers(ms)) + ([CLOSE_BRACE] + rest);
    ParsePrintedMembers(ms, rest);
    Assoc([OPEN_BRACE], JoinMembers(PrintMembers(ms)) + [CLOSE_BRACE], rest);
    Assoc(JoinMembers(PrintMembers(ms)), [CLOSE_BRACE], rest);
    DropPrefix([OPEN_BRACE], body);
    assert body[0] == QUOTE;
  }

  lemma {:induction false} ParsePrintedMember(m: Keyed<Json>, tail: Text)
    requires Numbers.Delimited(tail)
    ensures ParseMember(Pair(Keyed(m.key, Print(m.value))) + tail) == Some((m, tail))
    decreases m, 0
  {
    var p := Print(m.value);
    Assoc(Strings.Quote(m.key), [COLON] + p, tail);
    Assoc([COLON], p, tail);
    Strings.ParseQuoted(m.key, [COLON] + (p + tail));
    DropPrefix([COLON], p + tail);
    ParsePrinted(m.value, tail);
  }

  lemma LastMember(s: Text, m: Keyed<Json>, rest: Text)
    requires ParseMember(s) == Some((m, [CLOSE_BRACE] + rest))
    ensures ParseMembers(s) == Some(([m], rest))
  {
    DropPrefix([CLOSE_BRACE], rest);
  }

  lemma OneMoreMember(s: Text, m: Keyed<Json>, more: Text, ms: seq<Keyed<Json>>, rest: Text)
    requires ParseMember(s) == Some((m, [COMMA] + more)) && ParseMembers(more) == Some((ms, rest))
    ensures ParseMembers(s) == Some(([m] + ms, rest))
  {
    DropPrefix([COMMA], more);
  }

  lemma JoinedMembers(ms: seq<Keyed<Json>>, tail: Text)
    requires |ms| > 1
    ensures JoinMembers(PrintMembers(ms)) + tail
         == Pair(Keyed(ms[0].key, Print(ms[0].value))) + ([COMMA] + (JoinMembers(PrintMembers(ms[1..])) + tail))
  {
    assert PrintMembers(ms)[1..] == PrintMembers(ms[1..]);
    var joined := JoinMembers(PrintMembers(ms[1..]));
    Assoc(Pair(Keyed(ms[0].key, Print(ms[0].value))), [COMMA] + joined, tail);
    Assoc([COMMA], joined, tail);
  }

  lemma MembersGoOn(ms: seq<Keyed<Json>>, tail: Text, all: Text, more: Text, rest: Text)
    requires |ms| > 1 && all == JoinMembers(PrintMembers(ms)) + tail && more == JoinMembers(PrintMembers(ms[1..])) + tail
    requires ParseMember(Pair(Keyed(ms[0].key, Print(ms[0].value))) + ([COMMA] + more)) == Some((ms[0], [COMMA] + more))
    requires ParseMembers(more) == Some((ms[1..], rest))
    ensures ParseMembers(all) == Some((ms, rest))
  {
    JoinedMembers(ms, tail);
    OneMoreMember(all, ms[0], more, ms[1..], rest);
    assert ms == [ms[0]] + ms[1..];
  }

  lemma {:induction false} ParsePrintedMembers(ms: seq<Keyed<Json>>, rest: Text)
    requires ms != []
    ensures ParseMembers(JoinMembers(PrintMembers(ms)) + ([CLOSE_BRACE] + rest)) == Some((ms, rest))
    decreases ms, 1
  {
    var tail := [CLOSE_BRACE] + rest;
    var all := JoinMembers(PrintMembers(ms)) + tail;
    if |ms| == 1 {
      ParsePrintedMember(ms[0], tail);
      LastMember(all, ms[0], rest);
      assert ms == [ms[0]];
    } else {
      var more := JoinMembers(PrintMembers(ms[1..])) + tail;
      ParsePrintedMember(ms[0], [COMMA] + more);
      ParsePrintedMembers(ms[1..], rest);
      MembersGoOn(ms, tail, all, more, rest);
    }
  }

  // ----- unambiguity -----

  /** Parsing canonical text gives the value back, its objects sorted. */
  lemma ParseCanonical(v: Json)
    ensures ParseValue(Canonicalize(v)) == Some((Normalize(v), []))
  {
    CanonicalizePrintsNormalForm(v);
    ParsePrinted(Normalize(v), []);
    assert Canonicalize(v) + [] == Canonicalize(v);
  }

  /** Equal normal forms are the same as being the same value: arrays item by item, objects as finite maps. */
  lemma {:induction false} NormalFormsOfSameValue(v: Json, w: Json)
    requires Proper(v) && Proper(w)
    ensures SameValue(v, w) <==> Normalize(v) == Normalize(w)
    decreases v
  {
    match (v, w)
    case (Arr(a), Arr(b)) =>
      if |a| == |b| {
        forall i | 0 <= i < |a| ensures SameValue(a[i], b[i]) <==> Normalize(a[i]) == Normalize(b[i]) {
          NormalFormsOfSameValue(a[i], b[i]);
        }
        assert NormalizeItems(a) == NormalizeItems(b) <==> forall i :: 0 <= i < |a| ==> NormalizeItems(a)[i] == NormalizeItems(b)[i];
      }
    case (Obj(a), Obj(b)) =>
      NormalMembersLookups(a);
      NormalMembersLookups(b);
      var na, nb := NormalizeMembers(a), NormalizeMembers(b);
      SortSorts(na);
      SortSorts(nb);
      forall i | 0 <= i < |a| && Lookup(b, a[i].key).Some?
        ensures SameValue(a[i].value, Lookup(b, a[i].key).value)
           <==> Normalize(a[i].value) == Normalize(Lookup(b, a[i].key).value)
      {
        LookupFinds(b, a[i].key);
        NormalFormsOfSameValue(a[i].value, Lookup(b, a[i].key).value);
      }
      if SameValue(v, w) {
        SameObjectsSameLookups(a, b);
        LookupsDetermineSorted(Sort(na), Sort(nb));
      }
      if Normalize(v) == Normalize(w) {
        assert SameLookups(na, nb) by {
          forall k ensures Lookup(na, k) == Lookup(nb, k) {
            assert Lookup(Sort(na), k) == Lookup(na, k) && Lookup(Sort(nb), k) == Lookup(nb, k);
          }
        }
        SameLookupsSameObjects(a, b);
      }
    case _ =>
  }

  lemma {:induction false} LookupFinds<T>(ms: seq<Keyed<T>>, k: Text)
    requires Lookup(ms, k).Some?
    ensures exists i :: 0 <= i < |ms| && ms[i].key == k && ms[i].value == Lookup(ms, k).value
  {
    if ms[0].key != k {
      LookupFinds(ms[1..], k);
      var i :| 0 <= i < |ms[1..]| && ms[1..][i].key == k && ms[1..][i].value == Lookup(ms[1..], k).value;
      assert ms[i + 1] == ms[1..][i];
    }
  }

  lemma {:induction false} LookupMember<T>(ms: seq<Keyed<T>>, i: nat)
    requires i < |ms| && DistinctKeys(ms)
    ensures Lookup(ms, ms[i].key) == Some(ms[i].value)
  {
    if i > 0 {
      LookupMember(ms[1..], i - 1);
      assert ms[1..][i - 1] == ms[i];
    }
  }

  function NormalLookup(o: Option<Json>): Option<Json> {
    match o { case None => None case Some(v) => Some(Normalize(v)) }
  }

  lemma {:induction false} NormalMembersLookups(ms: seq<Keyed<Json>>)
    requires DistinctKeys(ms)
    ensures DistinctKeys(NormalizeMembers(ms))
    ensures forall k :: Lookup(NormalizeMembers(ms), k) == NormalLookup(Lookup(ms, k))
  {
    if ms != [] {
      NormalMembersLookups(ms[1..]);
      assert NormalizeMembers(ms)[1..] == NormalizeMembers(ms[1..]);
    }
  }

  lemma SameObjectsSameLookups(a: seq<Keyed<Json>>, b: seq<Keyed<Json>>)
    requires DistinctKeys(a) && DistinctKeys(b)
    requires forall k :: Lookup(a, k).Some? <==> Lookup(b, k).Some?
    requires forall i :: 0 <= i < |a| ==> Lookup(b, a[i].key).Some? && Normalize(a[i].value) == Normalize(Lookup(b, a[i].key).value)
    ensures SameLookups(Sort(NormalizeMembers(a)), Sort(NormalizeMembers(b)))
  {
    NormalMembersLookups(a);
    NormalMembersLookups(b);
    SortSorts(NormalizeMembers(a));
    SortSorts(NormalizeMembers(b));
    forall k ensures Lookup(Sort(NormalizeMembers(a)), k) == Lookup(Sort(NormalizeMembers(b)), k) {
      assert Lookup(Sort(NormalizeMembers(a)), k) == NormalLookup(Lookup(a, k));
      assert Lookup(Sort(NormalizeMembers(b)), k) == NormalLookup(Lookup(b, k));
      if Lookup(a, k).Some? {
        LookupFinds(a, k);
        var i :| 0 <= i < |a| && a[i].key == k && a[i].value == Lookup(a, k).value;
        assert Normalize(a[i].value) == Normalize(Lookup(b, a[i].key).value);
      }
    }
  }

  lemma SameLookupsSameObjects(a: seq<Keyed<Json>>, b: seq<Keyed<Json>>)
    requires DistinctKeys(a) && DistinctKeys(b)
    requires SameLookups(NormalizeMembers(a), NormalizeMembers(b))
    ensures forall k :: Lookup(a, k).Some? <==> Lookup(b, k).Some?
    ensures forall i :: 0 <= i < |a| ==> Lookup(b, a[i].key).Some? && Normalize(a[i].value) == Normalize(Lookup(b, a[i].key).value)
  {
    NormalMembersLookups(a);
    NormalMembersLookups(b);
    forall k ensures NormalLookup(Lookup(a, k)) == NormalLookup(Lookup(b, k)) {
      assert Lookup(NormalizeMembers(a), k) == Lookup(NormalizeMembers(b), k);
    }
    forall i | 0 <= i < |a|
      ensures Lookup(b, a[i].key).Some? && Normalize(a[i].value) == Normalize(Lookup(b, a[i].key).value)
    {
      LookupMember(a, i);
      assert NormalLookup(Lookup(a, a[i].key)) == NormalLookup(Lookup(b, a[i].key));
    }
  }

  /** Canonical text identifies the value, and nothing but the value: insertion order of keys does not show. */
  lemma CanonicalTextIdentifiesValue(v: Json, w: Json)
    requires Proper(v) && Proper(w)
    ensures Canonicalize(v) == Canonicalize(w) <==> SameValue(v, w)
  {
    ParseCanonical(v);
    ParseCanonical(w);
    NormalFormsOfSameValue(v, w);
    if SameValue(v, w) {
      CanonicalizePrintsNormalForm(v);
      CanonicalizePrintsNormalForm(w);
    }
  }

  /** Two objects written with the same keys in the same order have equal texts only if their values match up. */
  lemma SameShapeSameValues(a: seq<Keyed<Json>>, b: seq<Keyed<Json>>)
    requires Keys(a) == Keys(b)
    requires Canonicalize(Obj(a)) == Canonicalize(Obj(b))
    ensures forall i :: 0 <= i < |a| ==> Normalize(a[i].value) == Normalize(b[i].value)
  {
    ParseCanonical(Obj(a));
    ParseCanonical(Obj(b));
    var na, nb := NormalizeMembers(a), NormalizeMembers(b);
    assert Keys(na) == Keys(a) && Keys(nb) == Keys(b);
    SortIsInjective(na, nb);
    forall i | 0 <= i < |a| ensures Normalize(a[i].value) == Normalize(b[i].value) {
      assert na[i] == nb[i];
    }
  }

  /** Objects with the same keys in the same order and the same normal values have the same text. */
  lemma SameNormalValuesSameText(a: seq<Keyed<Json>>, b: seq<Keyed<Json>>)
    requires Keys(a) == Keys(b)
    requires forall i :: 0 <= i < |a| ==> Normalize(a[i].value) == Normalize(b[i].value)
    ensures Canonicalize(Obj(a)) == Canonicalize(Obj(b))
  {
    CanonicalizePrintsNormalForm(Obj(a));
    CanonicalizePrintsNormalForm(Obj(b));
    assert |a| == |Keys(a)| == |Keys(b)| == |b|;
    forall i | 0 <= i < |a| ensures a[i].key == b[i].key {
      assert Keys(a)[i] == Keys(b)[i];
    }
    assert NormalizeMembers(a) == NormalizeMembers(b);
  }

  // ----- canonical text is well-formed UTF-16 -----

  lemma {:induction false} PrintedIsWellFormed(v: Json)
    ensures Strings.WellFormed(Print(v))
    decreases v, 1
  {
    match v
    case Null => Strings.AsciiIsWellFormed(NULL_TEXT);
    case Bool(_) => Strings.AsciiIsWellFormed(Print(v));
    case Number(n) => NumberIsAscii(n); Strings.AsciiIsWellFormed(Print(v));
    case Str(t) => QuotedIsWellFormed(t);
    case Arr(items) =>
      ItemsAreWellFormed(items);
      Enclosed(OPEN_BRACKET, JoinItems(PrintItems(items)), CLOSE_BRACKET);
    case Obj(ms) =>
      MembersAreWellFormed(ms);
      Enclosed(OPEN_BRACE, JoinMembers(PrintMembers(ms)), CLOSE_BRACE);
  }

  predicate IsAscii(t: Text) {
    forall i :: 0 <= i < |t| ==> t[i] < 128
  }

  lemma CharsAreAscii(ds: seq<Numbers.Digit>)
    ensures IsAscii(Numbers.Chars(ds))
  {
  }

  lemma AsciiConcat(a: Text, b: Text)
    requires IsAscii(a) && IsAscii(b)
    ensures IsAscii(a + b)
  {
  }

  lemma ExponentIsAscii(e: int)
    ensures IsAscii(Numbers.PrintExponent(e))
  {
    CharsAreAscii(Numbers.DigitsOf(if e < 0 then -e else e));
  }

  lemma MagnitudeIsAscii(ds: seq<Numbers.Digit>, point: int)
    requires ds != []
    ensures IsAscii(Numbers.PrintMagnitude(ds, point))
  {
    if |ds| <= point <= 21 {
      CharsAreAscii(ds + Numbers.Zeros(point - |ds|));
    } else if 0 < point <= 21 {
      CharsAreAscii(ds[..point]);
      CharsAreAscii(ds[point..]);
      AsciiConcat([DOT], Numbers.Chars(ds[point..]));
      AsciiConcat(Numbers.Chars(ds[..point]), [DOT] + Numbers.Chars(ds[point..]));
    } else if -6 < point <= 0 {
      CharsAreAscii(Numbers.Zeros(-point) + ds);
      CharsAreAscii([0]);
      AsciiConcat([DOT], Numbers.Chars(Numbers.Zeros(-point) + ds));
      AsciiConcat(Numbers.Chars([0]), [DOT] + Numbers.Chars(Numbers.Zeros(-point) + ds));
    } else {
      ExponentIsAscii(point - 1);
      CharsAreAscii(ds);
      CharsAreAscii(ds[..1]);
      CharsAreAscii(ds[1..]);
      AsciiConcat(Numbers.Chars(ds), Numbers.PrintExponent(point - 1));
      AsciiConcat([DOT], Numbers.Chars(ds[1..]));
      AsciiConcat([DOT] + Numbers.Chars(ds[1..]), Numbers.PrintExponent(point - 1));
      AsciiConcat(Numbers.Chars(ds[..1]), [DOT] + Numbers.Chars(ds[1..]) + Numbers.PrintExponent(point - 1));
    }
  }

  lemma NumberIsAscii(n: Numbers.Num)
    ensures IsAscii(Numbers.PrintNumber(n))
  {
    match n
    case Zero => CharsAreAscii([0]);
    case Dec(negative, ds, point) =>
      MagnitudeIsAscii(ds, point);
      AsciiConcat(Numbers.Sign(negative), Numbers.PrintMagnitude(ds, point));
  }

  lemma Enclosed(open: Unit, t: Text, close: Unit)
    requires open < 128 && close < 128 && Strings.WellFormed(t)
    ensures Strings.WellFormed([open] + (t + [close]))
  {
    Strings.WellFormedConcat(t, [close]);
    Strings.WellFormedConcat([open], t + [close]);
  }

  lemma QuotedIsWellFormed(t: Text)
    ensures Strings.WellFormed(Strings.Quote(t))
  {
    Strings.EscapedIsWellFormed(t);
    Enclosed(QUOTE, Strings.Escape(t), QUOTE);
  }

  lemma {:induction false} ItemsAreWellFormed(items: seq<Json>)
    ensures Strings.WellFormed(JoinItems(PrintItems(items)))
    decreases items, 0
  {
    if items != [] {
      PrintedIsWellFormed(items[0]);
      if |items| > 1 {
        ItemsAreWellFormed(items[1..]);
        assert PrintItems(items)[1..] == PrintItems(items[1..]);
        Strings.WellFormedConcat([COMMA], JoinItems(PrintItems(items[1..])));
        Strings.WellFormedConcat(Print(items[0]), [COMMA] + JoinItems(PrintItems(items[1..])));
      }
    }
  }

  lemma {:induction false} MembersAreWellFormed(ms: seq<Keyed<Json>>)
    ensures Strings.WellFormed(JoinMembers(PrintMembers(ms)))
    decreases ms, 0
  {
    if ms != [] {
      var p := Print(ms[0].value);
      PrintedIsWellFormed(ms[0].value);
      QuotedIsWellFormed(ms[0].key);
      Strings.WellFormedConcat([COLON], p);
      Strings.WellFormedConcat(Strings.Quote(ms[0].key), [COLON] + p);
      if |ms| > 1 {
        MembersAreWellFormed(ms[1..]);
        assert PrintMembers(ms)[1..] == PrintMembers(ms[1..]);
        Strings.WellFormedConcat([COMMA], JoinMembers(PrintMembers(ms[1..])));
        Strings.WellFormedConcat(Pair(Keyed(ms[0].key, p)), [COMMA] + JoinMembers(PrintMembers(ms[1..])));
      }
    }
  }

  /** No lone surrogate reaches the hash: encoding canonical text as UTF-8 loses nothing. */
  lemma CanonicalTextIsWellFormed(v: Json)
    ensures Strings.WellFormed(Canonicalize(v))
  {
    CanonicalizePrintsNormalForm(v);
    PrintedIsWellFormed(Normalize(v));
  }
}
