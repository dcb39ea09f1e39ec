/**
 JSON values whose arrays may have holes, as `map` keeps them, and what `canonicalizeJson` makes of those
 (packages/governance/src/canonicalJson.ts:24-26): `join` writes nothing in the place of a hole.
 */
module SparseJson {
  import opened Prelude
  import opened Texts
  import opened KeyedLists
  import J = CanonicalJson
  import Numbers
  import Strings

  /** A value of the sanitizer. A hole stands for an item that is not there. */
  datatype Sparse =
    | Hole
    | Null
    | Bool(b: bool)
    | Number(n: Numbers.Num)
    | Str(t: Text)
    | Arr(items: seq<Sparse>)
    | Obj(members: seq<Keyed<Sparse>>)

  function Canonicalize(v: Sparse): Text
    decreases v, 1
  {
    match v
    case Hole => []
    case Null => J.NULL_TEXT
    case Bool(b) => if b then J.TRUE_TEXT else J.FALSE_TEXT
    case Number(n) => Numbers.PrintNumber(n)
    case Str(t) => Strings.Quote(t)
    case Arr(items) => [OPEN_BRACKET] + (J.JoinItems(CanonicalizeItems(items)) + [CLOSE_BRACKET])
    case Obj(members) => [OPEN_BRACE] + (J.JoinMembers(Sort(CanonicalizeMembers(members))) + [CLOSE_BRACE])
  }

  function CanonicalizeItems(items: seq<Sparse>): (r: seq<Text>)
    ensures |r| == |items|
    decreases items, 0
  {
    if items == [] then [] else [Canonicalize(items[0])] + CanonicalizeItems(items[1..])
  }

  function CanonicalizeMembers(members: seq<Keyed<Sparse>>): (r: seq<Keyed<Text>>)
    ensures |r| == |members|
    decreases members, 0
  {
    if members == [] then [] else [Keyed(members[0].key, Canonicalize(members[0].value))] + CanonicalizeMembers(members[1..])
  }

  // ----- holes -----

  /** No array has a hole. */
  predicate Whole(v: Sparse) {
    match v
    case Hole => false
    case Arr(items) => forall i :: 0 <= i < |items| ==> Whole(items[i])
    case Obj(ms) => forall i :: 0 <= i < |ms| ==> Whole(ms[i].value)
    case _ => true
  }

  /** The only holes are those that are all of their array. */
  predicate Solid(v: Sparse) {
    match v
    case Hole => false
    case Arr(items) => items == [Hole] || forall i :: 0 <= i < |items| ==> Solid(items[i])
    case Obj(ms) => forall i :: 0 <= i < |ms| ==> Solid(ms[i].value)
    case _ => true
  }

  /** A value with the holes that are all of their array taken away. */
  function Closed(v: Sparse): J.Json
    requires Solid(v)
    decreases v, 1
  {
    match v
    case Null => J.Null
    case Bool(b) => J.Bool(b)
    case Number(n) => J.Number(n)
    case Str(t) => J.Str(t)
    case Arr(items) => if items == [Hole] then J.Arr([]) else J.Arr(ClosedItems(items))
    case Obj(ms) => J.Obj(ClosedMembers(ms))
  }

  function ClosedItems(items: seq<Sparse>): (r: seq<J.Json>)
    requires forall i :: 0 <= i < |items| ==> Solid(items[i])
    ensures |r| == |items|
    decreases items, 0
  {
    if items == [] then [] else [Closed(items[0])] + ClosedItems(items[1..])
  }

  function ClosedMembers(ms: seq<Keyed<Sparse>>): (r: seq<Keyed<J.Json>>)
    requires forall i :: 0 <= i < |ms| ==> Solid(ms[i].value)
    ensures |r| == |ms|
    decreases ms, 0
  {
    if ms == [] then [] else [Keyed(ms[0].key, Closed(ms[0].value))] + ClosedMembers(ms[1..])
  }

  lemma {:induction false} WholeIsSolid(v: Sparse)
    requires Whole(v)
    ensures Solid(v)
  {
    match v
    case Arr(items) => forall i | 0 <= i < |items| ensures Solid(items[i]) { WholeIsSolid(items[i]); }
    case Obj(ms) => forall i | 0 <= i < |ms| ensures Solid(ms[i].value) { WholeIsSolid(ms[i].value); }
    case _ =>
  }

  /** The value as it would be written with holes where they were: what was there before closing. */
  function Opened(v: J.Json): Sparse
    decreases v, 1
  {
    match v
    case Null => Null
    case Bool(b) => Bool(b)
    case Number(n) => Number(n)
    case Str(t) => Str(t)
    case Arr(items) => Arr(OpenedItems(items))
    case Obj(ms) => Obj(OpenedMembers(ms))
  }

  function OpenedItems(items: seq<J.Json>): (r: seq<Sparse>)
    decreases items, 0
  {
    if items == [] then [] else [Opened(items[0])] + OpenedItems(items[1..])
  }

  function OpenedMembers(ms: seq<Keyed<J.Json>>): (r: seq<Keyed<Sparse>>)
    decreases ms, 0
  {
    if ms == [] then [] else [Keyed(ms[0].key, Opened(ms[0].value))] + OpenedMembers(ms[1..])
  }

  /** Closing changes a value exactly when it has a hole. */
  lemma {:induction false} ClosingKeepsWholeValues(v: Sparse)
    requires Solid(v)
    ensures Opened(Closed(v)) == v <==> Whole(v)
    decreases v, 1
  {
    match v
    case Arr(items) => if items != [Hole] { ClosingKeepsWholeItems(items); } else { assert !Whole(items[0]); }
    case Obj(ms) => ClosingKeepsWholeMembers(ms);
    case _ =>
  }

  lemma {:induction false} ClosingKeepsWholeItems(items: seq<Sparse>)
    requires forall i :: 0 <= i < |items| ==> Solid(items[i])
    ensures OpenedItems(ClosedItems(items)) == items <==> forall i :: 0 <= i < |items| ==> Whole(items[i])
    decreases items, 0
  {
    if items != [] {
      ClosingKeepsWholeValues(items[0]);
      ClosingKeepsWholeItems(items[1..]);
      assert items == [items[0]] + items[1..];
      assert OpenedItems(ClosedItems(items)) == [Opened(Closed(items[0]))] + OpenedItems(ClosedItems(items[1..]));
      assert (forall i :: 0 <= i < |items| ==> Whole(items[i])) <==>
        (Whole(items[0]) && forall i :: 0 <= i < |items[1..]| ==> Whole(items[1..][i])) by {
        forall i | 0 < i < |items| ensures items[i] == items[1..][i - 1] { }
      }
    }
  }

  lemma {:induction false} ClosingKeepsWholeMembers(ms: seq<Keyed<Sparse>>)
    requires forall i :: 0 <= i < |ms| ==> Solid(ms[i].value)
    ensures OpenedMembers(ClosedMembers(ms)) == ms <==> forall i :: 0 <= i < |ms| ==> Whole(ms[i].value)
    decreases ms, 0
  {
    if ms != [] {
      ClosingKeepsWholeValues(ms[0].value);
      ClosingKeepsWholeMembers(ms[1..]);
      assert ms == [ms[0]] + ms[1..];
      assert OpenedMembers(ClosedMembers(ms)) == [Keyed(ms[0].key, Opened(Closed(ms[0].value)))] + OpenedMembers(ClosedMembers(ms[1..]));
      assert (forall i :: 0 <= i < |ms| ==> Whole(ms[i].value)) <==>
        (Whole(ms[0].value) && forall i :: 0 <= i < |ms[1..]| ==> Whole(ms[1..][i].value)) by {
        forall i | 0 < i < |ms| ensures ms[i] == ms[1..][i - 1] { }
      }
    }
  }

  /** A solid value is printed as its closed form. */
  lemma {:induction false} SolidTextIsClosedText(v: Sparse)
    requires Solid(v)
    ensures Canonicalize(v) == J.Canonicalize(Closed(v))
    decreases v, 1
  {
    match v
    case Arr(items) =>
      if items == [Hole] {
        assert CanonicalizeItems(items) == [[]];
      } else {
        SolidItemTexts(items);
      }
    case Obj(ms) => SolidMemberTexts(ms);
    case _ =>
  }

  lemma {:induction false} SolidItemTexts(items: seq<Sparse>)
    requires forall i :: 0 <= i < |items| ==> Solid(items[i])
    ensures CanonicalizeItems(items) == J.CanonicalizeItems(ClosedItems(items))
    decreases items, 0
  {
    if items != [] {
      SolidTextIsClosedText(items[0]);
      SolidItemTexts(items[1..]);
      assert ClosedItems(items)[1..] == ClosedItems(items[1..]);
    }
  }

  lemma {:induction false} SolidMemberTexts(ms: seq<Keyed<Sparse>>)
    requires forall i :: 0 <= i < |ms| ==> Solid(ms[i].value)
    ensures CanonicalizeMembers(ms) == J.CanonicalizeMembers(ClosedMembers(ms))
    decreases ms, 0
  {
    if ms != [] {
      SolidTextIsClosedText(ms[0].value);
      SolidMemberTexts(ms[1..]);
      assert ClosedMembers(ms)[1..] == ClosedMembers(ms[1..]);
    }
  }

  // ----- printing and sorting -----

  lemma {:induction false} TextsCommuteWithInsert(m: Keyed<Sparse>, ms: seq<Keyed<Sparse>>)
    ensures CanonicalizeMembers(Insert(m, ms)) == Insert(Keyed(m.key, Canonicalize(m.value)), CanonicalizeMembers(ms))
  {
    if ms == [] {
      assert [m][1..] == [];
    } else {
      var ts := CanonicalizeMembers(ms);
      assert ts[0].key == ms[0].key && ts[1..] == CanonicalizeMembers(ms[1..]);
      if Before(m.key, ms[0].key) {
        assert ([m] + ms)[1..] == ms;
      } else {
        TextsCommuteWithInsert(m, ms[1..]);
        assert ([ms[0]] + Insert(m, ms[1..]))[1..] == Insert(m, ms[1..]);
      }
    }
  }

  lemma {:induction false} TextsCommuteWithSort(ms: seq<Keyed<Sparse>>)
    ensures CanonicalizeMembers(Sort(ms)) == Sort(CanonicalizeMembers(ms))
  {
    if ms != [] {
      TextsCommuteWithSort(ms[1..]);
      TextsCommuteWithInsert(ms[0], Sort(ms[1..]));
      assert CanonicalizeMembers(ms)[1..] == CanonicalizeMembers(ms[1..]);
    }
  }
}
