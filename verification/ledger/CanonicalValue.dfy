/**
 `isCanonicalJsonValue`: which object graphs the ledger accepts as the input of a request
 (packages/contracts/src/ledger.ts:40-79). The walk keeps the objects on its path in a set; it accepts exactly the
 graphs that unfold to a finite JSON value.
 */
module CanonicalValue {
  import opened Prelude
  import opened Texts
  import opened KeyedLists
  import opened CanonicalJson
  import Numbers

  type Id = nat

  datatype Value =
    | VNull
    | VBool(b: bool)
    | VText(t: Text)
    | VNumber(n: Numbers.Num)
    | VNonFinite
    | VUndefined
    | VOther
    | VObject(id: Id)

  /** An array, whose slots may be holes; an object with the plain prototype or none; any other object. */
  datatype Node =
    | ArrayNode(slots: seq<Option<Value>>)
    | PlainObject(members: seq<Keyed<Value>>)
    | Exotic

  type Heap = map<Id, Node>

  predicate InHeap(h: Heap, v: Value) { v.VObject? ==> v.id in h }

  /** Every reference leads to an object. */
  ghost predicate Closed(h: Heap) {
    forall id :: id in h ==> ClosedNode(h, h[id])
  }

  predicate ClosedNode(h: Heap, n: Node) {
    match n
    case ArrayNode(slots) => forall i :: 0 <= i < |slots| && slots[i].Some? ==> InHeap(h, slots[i].value)
    case PlainObject(ms) => forall i :: 0 <= i < |ms| ==> InHeap(h, ms[i].value)
    case Exotic => true
  }

  /** The values an object holds; a hole is no value. */
  function Slots(n: Node): seq<Option<Value>> {
    match n
    case ArrayNode(slots) => slots
    case PlainObject(ms) => seq(|ms|, i requires 0 <= i < |ms| => Some(ms[i].value))
    case Exotic => [None]
  }

  // ----- the specification of the walk -----

  predicate IsCanonical(h: Heap, v: Value, seen: set<Id>)
    requires Closed(h) && InHeap(h, v)
    decreases h.Keys - seen, 0
  {
    match v
    case VNull => true
    case VBool(_) => true
    case VText(_) => true
    case VNumber(_) => true
    case VObject(id) =>
      if id in seen then false
      else
        assert ClosedNode(h, h[id]);
        AllCanonical(h, Slots(h[id]), seen + {id})
    case _ => false
  }

  predicate AllCanonical(h: Heap, slots: seq<Option<Value>>, seen: set<Id>)
    requires Closed(h) && forall i :: 0 <= i < |slots| && slots[i].Some? ==> InHeap(h, slots[i].value)
    decreases h.Keys - seen, 1 + |slots|
  {
    slots == [] ||
    (var last := slots[|slots| - 1];
     AllCanonical(h, slots[..|slots| - 1], seen) && last.Some? && IsCanonical(h, last.value, seen))
  }

  // ----- the loops of the source -----

  class Seen {
    var ids: set<Id>

    constructor ()
      ensures ids == {}
    {
      ids := {};
    }
  }

  method IsCanonicalJsonValue(h: Heap, v: Value, seen: Seen) returns (ok: bool)
    requires Closed(h) && InHeap(h, v)
    modifies seen
    ensures ok == IsCanonical(h, v, old(seen.ids)) && seen.ids == old(seen.ids)
    decreases h.Keys - seen.ids, 0
  {
    match v {
      case VNull => ok := true;
      case VBool(_) => ok := true;
      case VText(_) => ok := true;
      case VNumber(_) => ok := true;
      case VObject(id) =>
        if id in seen.ids {
          return false;
        }
        seen.ids := seen.ids + {id};
        assert ClosedNode(h, h[id]);
        ok := AllSlotsAreCanonical(h, Slots(h[id]), seen);
        seen.ids := seen.ids - {id};
        assert seen.ids == old(seen.ids);
      case _ => ok := false;
    }
  }

  method AllSlotsAreCanonical(h: Heap, slots: seq<Option<Value>>, seen: Seen) returns (ok: bool)
    requires Closed(h) && forall i :: 0 <= i < |slots| && slots[i].Some? ==> InHeap(h, slots[i].value)
    modifies seen
    ensures ok == AllCanonical(h, slots, old(seen.ids)) && seen.ids == old(seen.ids)
    decreases h.Keys - seen.ids, 1
  {
    for i := 0 to |slots|
      invariant AllCanonical(h, slots[..i], old(seen.ids)) && seen.ids == old(seen.ids)
    {
      var slot := slots[i];
      assert slots[..i + 1][..i] == slots[..i];
      ok := false;
      if slot.Some? {
        ok := IsCanonicalJsonValue(h, slot.value, seen);
      }
      if !ok {
        OneBadSlot(h, slots, i + 1, old(seen.ids));
        return false;
      }
    }
    assert slots[..|slots|] == slots;
    ok := true;
  }

  lemma {:induction false} OneBadSlot(h: Heap, slots: seq<Option<Value>>, n: nat, seen: set<Id>)
    requires Closed(h) && forall i :: 0 <= i < |slots| && slots[i].Some? ==> InHeap(h, slots[i].value)
    requires n <= |slots| && !AllCanonical(h, slots[..n], seen)
    ensures !AllCanonical(h, slots, seen)
    decreases |slots| - n
  {
    if n == |slots| {
      assert slots[..n] == slots;
    } else {
      assert slots[..n + 1][..n] == slots[..n];
      OneBadSlot(h, slots, n + 1, seen);
    }
  }

  // ----- what it accepts -----

  /** The value unfolds to a finite JSON value. */
  predicate Denotes(h: Heap, v: Value, j: Json)
    decreases j
  {
    match v
    case VNull => j == Null
    case VBool(b) => j == Bool(b)
    case VText(t) => j == Str(t)
    case VNumber(n) => j == Number(n)
    case VObject(id) =>
      id in h &&
      (match h[id]
       case ArrayNode(slots) =>
         j.Arr? && |j.items| == |slots|
         && forall i :: 0 <= i < |slots| ==> slots[i].Some? && Denotes(h, slots[i].value, j.items[i])
       case PlainObject(ms) =>
         j.Obj? && |j.members| == |ms|
         && forall i :: 0 <= i < |ms| ==> j.members[i].key == ms[i].key && Denotes(h, ms[i].value, j.members[i].value)
       case Exotic => false)
    case _ => false
  }

  /** The JSON value of an accepted graph. */
  function ToJson(h: Heap, v: Value, seen: set<Id>): Json
    requires Closed(h) && InHeap(h, v) && IsCanonical(h, v, seen)
    decreases h.Keys - seen, 0
  {
    match v
    case VNull => Null
    case VBool(b) => Bool(b)
    case VText(t) => Str(t)
    case VNumber(n) => Number(n)
    case VObject(id) =>
      assert ClosedNode(h, h[id]);
      var js := ToJsons(h, Slots(h[id]), seen + {id});
      match h[id]
      case ArrayNode(_) => Arr(js)
      case PlainObject(ms) => Obj(seq(|ms|, i requires 0 <= i < |ms| => Keyed(ms[i].key, js[i])))
      case Exotic => Null
  }

  function ToJsons(h: Heap, slots: seq<Option<Value>>, seen: set<Id>): (r: seq<Json>)
    requires Closed(h) && forall i :: 0 <= i < |slots| && slots[i].Some? ==> InHeap(h, slots[i].value)
    requires AllCanonical(h, slots, seen)
    ensures |r| == |slots|
    decreases h.Keys - seen, 1 + |slots|
  {
    if slots == [] then [] else ToJsons(h, slots[..|slots| - 1], seen) + [ToJson(h, slots[|slots| - 1].value, seen)]
  }

  lemma {:induction false} AcceptedDenotes(h: Heap, v: Value, seen: set<Id>)
    requires Closed(h) && InHeap(h, v) && IsCanonical(h, v, seen)
    ensures Denotes(h, v, ToJson(h, v, seen))
    decreases h.Keys - seen, 0
  {
    if v.VObject? {
      assert ClosedNode(h, h[v.id]);
      var slots := Slots(h[v.id]);
      AllAcceptedDenote(h, slots, seen + {v.id});
      match h[v.id]
      case ArrayNode(_) =>
      case PlainObject(ms) =>
        forall i | 0 <= i < |ms| ensures Denotes(h, ms[i].value, ToJson(h, v, seen).members[i].value) {
          assert slots[i] == Some(ms[i].value);
        }
      case Exotic =>
    }
  }

  lemma {:induction false} AllAcceptedDenote(h: Heap, slots: seq<Option<Value>>, seen: set<Id>)
    requires Closed(h) && forall i :: 0 <= i < |slots| && slots[i].Some? ==> InHeap(h, slots[i].value)
    requires AllCanonical(h, slots, seen)
    ensures forall i :: 0 <= i < |slots| ==> slots[i].Some? && Denotes(h, slots[i].value, ToJsons(h, slots, seen)[i])
    decreases h.Keys - seen, 1 + |slots|
  {
    if slots != [] {
      AllAcceptedDenote(h, slots[..|slots| - 1], seen);
      AcceptedDenotes(h, slots[|slots| - 1].value, seen);
    }
  }

  /** A graph unfolds to at most one JSON value. */
  lemma {:induction false} UnfoldingIsUnique(h: Heap, v: Value, j: Json, k: Json)
    requires Denotes(h, v, j) && Denotes(h, v, k)
    ensures j == k
    decreases j
  {
    if v.VObject? {
      match h[v.id]
      case ArrayNode(slots) =>
        forall i | 0 <= i < |slots| ensures j.items[i] == k.items[i] {
          UnfoldingIsUnique(h, slots[i].value, j.items[i], k.items[i]);
        }
      case PlainObject(ms) =>
        forall i | 0 <= i < |ms| ensures j.members[i] == k.members[i] {
          UnfoldingIsUnique(h, ms[i].value, j.members[i].value, k.members[i].value);
        }
    }
  }

  /** How deep a JSON value is. */
  function Depth(j: Json): nat
    decreases j, 1
  {
    match j
    case Arr(items) => 1 + ItemsDepth(items)
    case Obj(ms) => 1 + MembersDepth(ms)
    case _ => 0
  }

  function Max(a: nat, b: nat): nat { if a >= b then a else b }

  function ItemsDepth(items: seq<Json>): (r: nat)
    ensures forall i :: 0 <= i < |items| ==> Depth(items[i]) <= r
    decreases items, 0
  {
    if items == [] then 0 else Max(Depth(items[0]), ItemsDepth(items[1..]))
  }

  function MembersDepth(ms: seq<Keyed<Json>>): (r: nat)
    ensures forall i :: 0 <= i < |ms| ==> Depth(ms[i].value) <= r
    decreases ms, 0
  {
    if ms == [] then 0 else Max(Depth(ms[0].value), MembersDepth(ms[1..]))
  }

  /** Every object on the path unfolds to something deeper than a bound. */
  ghost predicate Deeper(h: Heap, seen: set<Id>, d: nat) {
    forall id :: id in seen ==> exists j :: Denotes(h, VObject(id), j) && Depth(j) > d
  }

  lemma DeeperWith(h: Heap, seen: set<Id>, id: Id, j: Json, d: nat)
    requires Deeper(h, seen, Depth(j)) && Denotes(h, VObject(id), j) && d < Depth(j)
    ensures Deeper(h, seen + {id}, d)
  {
    forall s | s in seen + {id} ensures exists k :: Denotes(h, VObject(s), k) && Depth(k) > d {
      if s in seen {
        var k :| Denotes(h, VObject(s), k) && Depth(k) > Depth(j);
        assert Denotes(h, VObject(s), k) && Depth(k) > d;
      } else {
        assert Denotes(h, VObject(s), j) && Depth(j) > d;
      }
    }
  }

  lemma NotOnItsOwnPath(h: Heap, seen: set<Id>, id: Id, j: Json)
    requires Deeper(h, seen, Depth(j)) && Denotes(h, VObject(id), j)
    ensures id !in seen
  {
    if id in seen {
      var k :| Denotes(h, VObject(id), k) && Depth(k) > Depth(j);
      UnfoldingIsUnique(h, VObject(id), j, k);
    }
  }

  /** The parts of what an object unfolds to. */
  function Parts(j: Json): seq<Json> {
    match j
    case Arr(items) => items
    case Obj(ms) => seq(|ms|, i requires 0 <= i < |ms| => ms[i].value)
    case _ => []
  }

  lemma PartsAreShallower(j: Json, i: nat)
    requires i < |Parts(j)|
    ensures Depth(Parts(j)[i]) < Depth(j)
  {
  }

  lemma SlotsDenoteParts(h: Heap, id: Id, j: Json)
    requires Denotes(h, VObject(id), j)
    ensures var slots := Slots(h[id]);
      |slots| == |Parts(j)| && forall i :: 0 <= i < |slots| ==> slots[i].Some? && Denotes(h, slots[i].value, Parts(j)[i])
  {
  }

  lemma {:induction false} DenotedIsAccepted(h: Heap, v: Value, j: Json, seen: set<Id>)
    requires Closed(h) && InHeap(h, v) && Denotes(h, v, j) && Deeper(h, seen, Depth(j))
    ensures IsCanonical(h, v, seen)
    decreases h.Keys - seen, 0
  {
    if v.VObject? {
      assert ClosedNode(h, h[v.id]);
      NotOnItsOwnPath(h, seen, v.id, j);
      SlotsDenoteParts(h, v.id, j);
      forall i | 0 <= i < |Parts(j)| ensures Deeper(h, seen + {v.id}, Depth(Parts(j)[i])) {
        PartsAreShallower(j, i);
        DeeperWith(h, seen, v.id, j, Depth(Parts(j)[i]));
      }
      AllDenotedAreAccepted(h, Slots(h[v.id]), Parts(j), seen + {v.id});
    }
  }

  lemma {:induction false} AllDenotedAreAccepted(h: Heap, slots: seq<Option<Value>>, js: seq<Json>, seen: set<Id>)
    requires Closed(h) && forall i :: 0 <= i < |slots| && slots[i].Some? ==> InHeap(h, slots[i].value)
    requires |js| == |slots|
    requires forall i :: 0 <= i < |slots| ==>
      slots[i].Some? && Denotes(h, slots[i].value, js[i]) && Deeper(h, seen, Depth(js[i]))
    ensures AllCanonical(h, slots, seen)
    decreases h.Keys - seen, 1 + |slots|
  {
    if slots != [] {
      var n := |slots| - 1;
      AllDenotedAreAccepted(h, slots[..n], js[..n], seen);
      DenotedIsAccepted(h, slots[n].value, js[n], seen);
    }
  }

  /** The walk accepts exactly the values that unfold to a finite JSON value: no cycles, holes, or foreign objects. */
  lemma AcceptsExactlyJson(h: Heap, v: Value)
    requires Closed(h) && InHeap(h, v)
    ensures IsCanonical(h, v, {}) <==> exists j :: Denotes(h, v, j)
  {
    if IsCanonical(h, v, {}) {
      AcceptedDenotes(h, v, {});
      assert Denotes(h, v, ToJson(h, v, {}));
    }
    if exists j :: Denotes(h, v, j) {
      var j :| Denotes(h, v, j);
      DenotedIsAccepted(h, v, j, {});
    }
  }
}
