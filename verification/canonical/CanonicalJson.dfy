/**
 `canonicalizeJson` and what it promises: a text that a parser inverts, that equals another canonical text exactly
 when the two values are the same, and that does not depend on the order in which object keys were inserted.
 */
module CanonicalJson {
  import opened Prelude
  import opened Texts
  import opened KeyedLists
  import Numbers
  import Strings

  /** A JSON value. An object lists its members in insertion order. */
  datatype Json =
    | Null
    | Bool(b: bool)
    | Number(n: Numbers.Num)
    | Str(t: Text)
    | Arr(items: seq<Json>)
    | Obj(members: seq<Keyed<Json>>)

  const NULL_TEXT: Text := [LETTER_N, LETTER_U, LETTER_L, LETTER_L]
  const TRUE_TEXT: Text := [LETTER_T, LETTER_R, LETTER_U, LETTER_E]
  const FALSE_TEXT: Text := [LETTER_F, LETTER_A, LETTER_L, LETTER_S, LETTER_E]

  // ----- the printer of the source -----

  function Canonicalize(v: Json): Text
    decreases v, 1
  {
    match v
    case Null => NULL_TEXT
    case Bool(b) => if b then TRUE_TEXT else FALSE_TEXT
    case Number(n) => Numbers.PrintNumber(n)
    case Str(t) => Strings.Quote(t)
    case Arr(items) => [OPEN_BRACKET] + (JoinItems(CanonicalizeItems(items)) + [CLOSE_BRACKET])
    case Obj(members) => [OPEN_BRACE] + (JoinMembers(Sort(CanonicalizeMembers(members))) + [CLOSE_BRACE])
  }

  function CanonicalizeItems(items: seq<Json>): (r: seq<Text>)
    decreases items, 0
  {
    if items == [] then [] else [Canonicalize(items[0])] + CanonicalizeItems(items[1..])
  }

  function CanonicalizeMembers(members: seq<Keyed<Json>>): (r: seq<Keyed<Text>>)
    ensures Keys(r) == Keys(members)
    decreases members, 0
  {
    if members == [] then []
    else
      var m := Keyed(members[0].key, Canonicalize(members[0].value));
      var rest := CanonicalizeMembers(members[1..]);
      assert Keys([m] + rest) == [m.key] + Keys(rest);
      assert Keys(members) == [members[0].key] + Keys(members[1..]);
      [m] + rest
  }

  function JoinItems(ts: seq<Text>): Text {
    if ts == [] then []
    else if |ts| == 1 then ts[0]
    else ts[0] + ([COMMA] + JoinItems(ts[1..]))
  }

  function Pair(m: Keyed<Text>): Text {
    Strings.Quote(m.key) + ([COLON] + m.value)
  }

  function JoinMembers(ms: seq<Keyed<Text>>): Text {
    if ms == [] then []
    else if |ms| == 1 then Pair(ms[0])
    else Pair(ms[0]) + ([COMMA] + JoinMembers(ms[1..]))
  }

  // ----- the same value -----

  /** A value as the parser of JavaScript may build it: no object holds a key twice. */
  predicate Proper(v: Json) {
    match v
    case Arr(items) => forall i :: 0 <= i < |items| ==> Proper(items[i])
    case Obj(ms) => DistinctKeys(ms) && forall i :: 0 <= i < |ms| ==> Proper(ms[i].value)
    case _ => true
  }

  /** Equality of JSON values: arrays item by item, objects as finite maps. */
  ghost predicate SameValue(v: Json, w: Json) {
    match (v, w)
    case (Arr(a), Arr(b)) => |a| == |b| && forall i :: 0 <= i < |a| ==> SameValue(a[i], b[i])
    case (Obj(a), Obj(b)) =>
      (forall k :: Lookup(a, k).Some? <==> Lookup(b, k).Some?) &&
      (forall i :: 0 <= i < |a| ==> Lookup(b, a[i].key).Some? && SameValue(a[i].value, Lookup(b, a[i].key).value))
    case _ => v == w
  }

  // ----- normal forms: objects sorted by key, at every level -----

  function Normalize(v: Json): Json
    decreases v, 1
  {
    match v
    case Arr(items) => Arr(NormalizeItems(items))
    case Obj(members) => Obj(Sort(NormalizeMembers(members)))
    case _ => v
  }

  function NormalizeItems(items: seq<Json>): (r: seq<Json>)
    ensures |r| == |items|
    ensures forall i :: 0 <= i < |items| ==> r[i] == Normalize(items[i])
    decreases items, 0
  {
    if items == [] then [] else [Normalize(items[0])] + NormalizeItems(items[1..])
  }

  function NormalizeMembers(ms: seq<Keyed<Json>>): (r: seq<Keyed<Json>>)
    ensures |r| == |ms|
    ensures forall i :: 0 <= i < |ms| ==> r[i] == Keyed(ms[i].key, Normalize(ms[i].value))
    decreases ms, 0
  {
    if ms == [] then [] else [Keyed(ms[0].key, Normalize(ms[0].value))] + NormalizeMembers(ms[1..])
  }

  /** Prints a value with its members in the order they stand. */
  function Print(v: Json): Text
    decreases v, 1
  {
    match v
    case Null => NULL_TEXT
    case Bool(b) => if b then TRUE_TEXT else FALSE_TEXT
    case Number(n) => Numbers.PrintNumber(n)
    case Str(t) => Strings.Quote(t)
    case Arr(items) => [OPEN_BRACKET] + (JoinItems(PrintItems(items)) + [CLOSE_BRACKET])
    case Obj(members) => [OPEN_BRACE] + (JoinMembers(PrintMembers(members)) + [CLOSE_BRACE])
  }

  function PrintItems(items: seq<Json>): (r: seq<Text>)
    ensures |r| == |items|
    decreases items, 0
  {
    if items == [] then [] else [Print(items[0])] + PrintItems(items[1..])
  }

  function PrintMembers(ms: seq<Keyed<Json>>): (r: seq<Keyed<Text>>)
    ensures |r| == |ms|
    decreases ms, 0
  {
    if ms == [] then [] else [Keyed(ms[0].key, Print(ms[0].value))] + PrintMembers(ms[1..])
  }

  lemma {:induction false} PrintCommutesWithInsert(m: Keyed<Json>, ms: seq<Keyed<Json>>)
    ensures PrintMembers(Insert(m, ms)) == Insert(Keyed(m.key, Print(m.value)), PrintMembers(ms))
  {
    if ms == [] {
      assert [m][1..] == [];
    } else {
      var pm, ps := Keyed(m.key, Print(m.value)), PrintMembers(ms);
      assert ps[0].key == ms[0].key && ps[1..] == PrintMembers(ms[1..]);
      if Before(m.key, ms[0].key) {
        assert ([m] + ms)[1..] == ms;
      } else {
        PrintCommutesWithInsert(m, ms[1..]);
        assert ([ms[0]] + Insert(m, ms[1..]))[1..] == Insert(m, ms[1..]);
      }
    }
  }

  lemma {:induction false} PrintCommutesWithSort(ms: seq<Keyed<Json>>)
    ensures PrintMembers(Sort(ms)) == Sort(PrintMembers(ms))
  {
    if ms != [] {
      PrintCommutesWithSort(ms[1..]);
      PrintCommutesWithInsert(ms[0], Sort(ms[1..]));
      assert PrintMembers(ms)[1..] == PrintMembers(ms[1..]);
    }
  }

  /** What the source prints is the plain print of the normal form. */
  lemma {:induction false} CanonicalizePrintsNormalForm(v: Json)
    ensures Canonicalize(v) == Print(Normalize(v))
    decreases v, 1
  {
    match v
    case Arr(items) => ItemsPrintNormalForms(items);
    case Obj(ms) =>
      MembersPrintNormalForms(ms);
      PrintCommutesWithSort(NormalizeMembers(ms));
    case _ =>
  }

  lemma {:induction false} ItemsPrintNormalForms(items: seq<Json>)
    ensures CanonicalizeItems(items) == PrintItems(NormalizeItems(items))
    decreases items, 0
  {
    if items != [] {
      CanonicalizePrintsNormalForm(items[0]);
      ItemsPrintNormalForms(items[1..]);
      assert NormalizeItems(items)[1..] == NormalizeItems(items[1..]);
    }
  }

  lemma {:induction false} MembersPrintNormalForms(ms: seq<Keyed<Json>>)
    ensures CanonicalizeMembers(ms) == PrintMembers(NormalizeMembers(ms))
    decreases ms, 0
  {
    if ms != [] {
      CanonicalizePrintsNormalForm(ms[0].value);
      MembersPrintNormalForms(ms[1..]);
      assert NormalizeMembers(ms)[1..] == NormalizeMembers(ms[1..]);
    }
  }
}
