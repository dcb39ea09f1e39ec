/** Sorting of numbers, rising or falling, as `Array.prototype.sort` does it with a numeric comparison. */
module Sorting {

  datatype Order = Rising | Falling

  /** A number comes strictly before another. */
  predicate Precedes(o: Order, x: real, y: real) {
    match o
    case Rising => x < y
    case Falling => x > y
  }

  function Insert(o: Order, x: real, s: seq<real>): (r: seq<real>)
    ensures |r| == |s| + 1
  {
    if s == [] || Precedes(o, x, s[0]) then [x] + s else [s[0]] + Insert(o, x, s[1..])
  }

  function Sorted(o: Order, s: seq<real>): (r: seq<real>)
    ensures |r| == |s|
  {
    if s == [] then [] else Insert(o, s[|s| - 1], Sorted(o, s[..|s| - 1]))
  }

  predicate InOrder(o: Order, s: seq<real>) {
    forall i, j :: 0 <= i < j < |s| ==> !Precedes(o, s[j], s[i])
  }

  lemma {:induction false} InsertKeepsOrder(o: Order, x: real, s: seq<real>)
    requires InOrder(o, s)
    ensures InOrder(o, Insert(o, x, s))
    ensures forall y :: y in Insert(o, x, s) <==> y == x || y in s
  {
    if s != [] && !Precedes(o, x, s[0]) {
      InsertKeepsOrder(o, x, s[1..]);
      assert forall y :: y in s <==> y == s[0] || y in s[1..];
      var r := Insert(o, x, s[1..]);
      forall i | 0 <= i < |r| ensures !Precedes(o, r[i], s[0]) {
        assert r[i] in r;
      }
    }
  }

  /** The sorted sequence is in order and holds the same numbers. */
  lemma {:induction false} SortedIsInOrder(o: Order, s: seq<real>)
    ensures InOrder(o, Sorted(o, s))
    ensures forall y :: y in Sorted(o, s) <==> y in s
  {
    if s != [] {
      SortedIsInOrder(o, s[..|s| - 1]);
      InsertKeepsOrder(o, s[|s| - 1], Sorted(o, s[..|s| - 1]));
      assert forall y :: y in s <==> y == s[|s| - 1] || y in s[..|s| - 1];
    }
  }

  method Sort(o: Order, s: seq<real>) returns (sorted: seq<real>)
    ensures sorted == Sorted(o, s)
  {
    sorted := [];
    for i := 0 to |s|
      invariant sorted == Sorted(o, s[..i])
    {
      assert s[..i + 1][..i] == s[..i];
      sorted := Insert(o, s[i], sorted);
    }
    assert s[..|s|] == s;
  }
}
