/**
 Lists of keyed values and their sorting by key, as `Object.keys(value).sort()` does it.
 */
module KeyedLists {
  import opened Prelude
  import opened Texts

  datatype Keyed<+T> = Keyed(key: Text, value: T)

  function Keys<T>(ms: seq<Keyed<T>>): (ks: seq<Text>)
    ensures |ks| == |ms|
    ensures forall i :: 0 <= i < |ms| ==> ks[i] == ms[i].key
  {
    seq(|ms|, i requires 0 <= i < |ms| => ms[i].key)
  }

  /** The value under a key. */
  function Lookup<T>(ms: seq<Keyed<T>>, k: Text): Option<T> {
    if ms == [] then None
    else if ms[0].key == k then Some(ms[0].value)
    else Lookup(ms[1..], k)
  }

  /** What every JavaScript object guarantees: no key twice. */
  predicate DistinctKeys<T>(ms: seq<Keyed<T>>) {
    ms == [] || (Lookup(ms[1..], ms[0].key).None? && DistinctKeys(ms[1..]))
  }

  /** Puts a member after every member whose key is not greater. */
  function Insert<T>(m: Keyed<T>, ms: seq<Keyed<T>>): (r: seq<Keyed<T>>)
    ensures |r| == |ms| + 1
  {
    if ms == [] then [m]
    else if Before(m.key, ms[0].key) then [m] + ms
    else [ms[0]] + Insert(m, ms[1..])
  }

  function Sort<T>(ms: seq<Keyed<T>>): (r: seq<Keyed<T>>)
    ensures |r| == |ms|
  {
    if ms == [] then [] else Insert(ms[0], Sort(ms[1..]))
  }

  predicate StrictlySorted<T>(ms: seq<Keyed<T>>) {
    |ms| <= 1 || (Before(ms[0].key, ms[1].key) && StrictlySorted(ms[1..]))
  }

  /** Two lists hold the same value under every key. */
  ghost predicate SameLookups<T>(ms: seq<Keyed<T>>, ns: seq<Keyed<T>>) {
    forall k :: Lookup(ms, k) == Lookup(ns, k)
  }

  lemma {:induction false} InsertAddsKey<T>(m: Keyed<T>, ms: seq<Keyed<T>>, k: Text)
    requires Lookup(ms, m.key).None?
    ensures Lookup(Insert(m, ms), k) == if k == m.key then Some(m.value) else Lookup(ms, k)
  {
    if ms != [] {
      if Before(m.key, ms[0].key) {
        assert ([m] + ms)[1..] == ms;
      } else {
        InsertAddsKey(m, ms[1..], k);
        assert ([ms[0]] + Insert(m, ms[1..]))[1..] == Insert(m, ms[1..]);
      }
    }
  }

  lemma {:induction false} InsertKeepsSorted<T>(m: Keyed<T>, ms: seq<Keyed<T>>)
    requires StrictlySorted(ms) && Lookup(ms, m.key).None?
    ensures StrictlySorted(Insert(m, ms))
    ensures Insert(m, ms)[0] == m || (ms != [] && Insert(m, ms)[0] == ms[0])
  {
    if ms == [] {
    } else if Before(m.key, ms[0].key) {
      assert ([m] + ms)[1..] == ms;
    } else {
      BeforeIsTotal(m.key, ms[0].key);
      InsertKeepsSorted(m, ms[1..]);
      assert ([ms[0]] + Insert(m, ms[1..]))[1..] == Insert(m, ms[1..]);
    }
  }

  /** Sorting an object by its keys keeps every lookup and puts the keys in order. */
  lemma {:induction false} SortSorts<T>(ms: seq<Keyed<T>>)
    requires DistinctKeys(ms)
    ensures StrictlySorted(Sort(ms))
    ensures SameLookups(Sort(ms), ms)
  {
    if ms != [] {
      SortSorts(ms[1..]);
      assert Lookup(Sort(ms[1..]), ms[0].key) == Lookup(ms[1..], ms[0].key);
      InsertKeepsSorted(ms[0], Sort(ms[1..]));
      forall k ensures Lookup(Sort(ms), k) == Lookup(ms, k) {
        InsertAddsKey(ms[0], Sort(ms[1..]), k);
        assert Lookup(Sort(ms[1..]), k) == Lookup(ms[1..], k);
      }
    }
  }

  lemma {:induction false} InsertHolds<T>(m: Keyed<T>, ms: seq<Keyed<T>>)
    ensures forall x :: x in Insert(m, ms) <==> x == m || x in ms
  {
    if ms != [] && !Before(m.key, ms[0].key) {
      InsertHolds(m, ms[1..]);
      assert ms == [ms[0]] + ms[1..];
    }
  }

  /** Sorting keeps the members. */
  lemma {:induction false} SortHolds<T>(ms: seq<Keyed<T>>)
    ensures forall x :: x in Sort(ms) <==> x in ms
  {
    if ms != [] {
      SortHolds(ms[1..]);
      InsertHolds(ms[0], Sort(ms[1..]));
      assert ms == [ms[0]] + ms[1..];
    }
  }

  lemma {:induction false} HeadIsLeast<T>(ms: seq<Keyed<T>>, k: Text)
    requires ms != [] && StrictlySorted(ms) && Lookup(ms[1..], k).Some?
    ensures Before(ms[0].key, k)
  {
    if ms[1].key != k {
      HeadIsLeast(ms[1..], k);
      BeforeIsTransitive(ms[0].key, ms[1].key, k);
    }
  }

  /** A sorted list is determined by its lookups: the sorted form of an object is unique. */
  lemma {:induction false} LookupsDetermineSorted<T>(ms: seq<Keyed<T>>, ns: seq<Keyed<T>>)
    requires StrictlySorted(ms) && StrictlySorted(ns) && SameLookups(ms, ns)
    ensures ms == ns
  {
    assert ns != [] ==> Lookup(ms, ns[0].key) == Lookup(ns, ns[0].key);
    if ms != [] {
      assert Lookup(ms, ms[0].key) == Lookup(ns, ms[0].key);
      if ms[0].key != ns[0].key {
        HeadIsLeast(ns, ms[0].key);
        HeadIsLeast(ms, ns[0].key);
        BeforeIsTotal(ms[0].key, ns[0].key);
      }
      forall k ensures Lookup(ms[1..], k) == Lookup(ns[1..], k) {
        assert Lookup(ms, k) == Lookup(ns, k);
        if k == ms[0].key {
          BeforeIsTotal(k, k);
          if Lookup(ms[1..], k).Some? { HeadIsLeast(ms, k); }
          if Lookup(ns[1..], k).Some? { HeadIsLeast(ns, k); }
        }
      }
      LookupsDetermineSorted(ms[1..], ns[1..]);
      assert ms == [ms[0]] + ms[1..] && ns == [ns[0]] + ns[1..];
    }
  }

  /** Where a member goes depends on keys alone. */
  lemma KeysOfCons<T>(m: Keyed<T>, ms: seq<Keyed<T>>)
    ensures Keys([m] + ms) == [m.key] + Keys(ms)
  {
  }

  lemma {:induction false} InsertDependsOnKeys<S, T>(m: Keyed<S>, ms: seq<Keyed<S>>, n: Keyed<T>, ns: seq<Keyed<T>>)
    requires m.key == n.key && Keys(ms) == Keys(ns)
    ensures Keys(Insert(m, ms)) == Keys(Insert(n, ns))
  {
    KeysOfCons(m, ms);
    KeysOfCons(n, ns);
    if ms != [] {
      assert Keys(ms)[0] == Keys(ns)[0];
      if !Before(m.key, ms[0].key) {
        assert Keys(ms[1..]) == Keys(ms)[1..] == Keys(ns)[1..] == Keys(ns[1..]);
        InsertDependsOnKeys(m, ms[1..], n, ns[1..]);
        KeysOfCons(ms[0], Insert(m, ms[1..]));
        KeysOfCons(ns[0], Insert(n, ns[1..]));
      }
    }
  }

  lemma {:induction false} SortDependsOnKeys<S, T>(ms: seq<Keyed<S>>, ns: seq<Keyed<T>>)
    requires Keys(ms) == Keys(ns)
    ensures Keys(Sort(ms)) == Keys(Sort(ns))
  {
    if ms != [] {
      assert Keys(ms)[0] == Keys(ns)[0];
      assert Keys(ms[1..]) == Keys(ms)[1..] == Keys(ns)[1..] == Keys(ns[1..]);
      SortDependsOnKeys(ms[1..], ns[1..]);
      InsertDependsOnKeys(ms[0], Sort(ms[1..]), ns[0], Sort(ns[1..]));
    }
  }

  lemma {:induction false} InsertIsInjective<T>(m: Keyed<T>, ms: seq<Keyed<T>>, n: Keyed<T>, ns: seq<Keyed<T>>)
    requires m.key == n.key && Keys(ms) == Keys(ns)
    requires Insert(m, ms) == Insert(n, ns)
    ensures m == n && ms == ns
  {
    if ms != [] {
      assert Keys(ms)[0] == Keys(ns)[0];
      if Before(m.key, ms[0].key) {
        assert ([m] + ms)[0] == ([n] + ns)[0] && ([m] + ms)[1..] == ([n] + ns)[1..];
        assert ([m] + ms)[1..] == ms && ([n] + ns)[1..] == ns;
      } else {
        var a, b := Insert(m, ms[1..]), Insert(n, ns[1..]);
        assert ([ms[0]] + a)[0] == ([ns[0]] + b)[0] && ([ms[0]] + a)[1..] == ([ns[0]] + b)[1..];
        assert ([ms[0]] + a)[1..] == a && ([ns[0]] + b)[1..] == b;
        assert Keys(ms[1..]) == Keys(ms)[1..] == Keys(ns)[1..] == Keys(ns[1..]);
        InsertIsInjective(m, ms[1..], n, ns[1..]);
        assert ms == [ms[0]] + ms[1..] && ns == [ns[0]] + ns[1..];
      }
    } else {
      assert |ns| == |Keys(ns)| == 0;
    }
  }

  /** Two objects written with the same keys in the same order, equal after sorting, were equal before. */
  lemma {:induction false} SortIsInjective<T>(ms: seq<Keyed<T>>, ns: seq<Keyed<T>>)
    requires Keys(ms) == Keys(ns)
    requires Sort(ms) == Sort(ns)
    ensures ms == ns
  {
    if ms != [] {
      assert Keys(ms)[0] == Keys(ns)[0];
      assert Keys(ms[1..]) == Keys(ms)[1..] == Keys(ns)[1..] == Keys(ns[1..]);
      SortDependsOnKeys(ms[1..], ns[1..]);
      InsertIsInjective(ms[0], Sort(ms[1..]), ns[0], Sort(ns[1..]));
      SortIsInjective(ms[1..], ns[1..]);
      assert ms == [ms[0]] + ms[1..] && ns == [ns[0]] + ns[1..];
    } else {
      assert |ns| == |Keys(ns)| == 0;
    }
  }
}
