/**
 What does not show in a sanitized value: nothing that stands under a sensitive key, and nothing that the redaction of
 texts takes out, wherever it stands.
 */
module SanitizerSecrets {
  import opened Prelude
  import opened Texts
  import opened KeyedLists
  import opened SparseJson
  import opened Sanitizer

  /** Two values that are the same, or texts that are redacted alike. */
  predicate SameButCleaned(rules: Rules, v: Value, w: Value) {
    v == w || (v.VText? && w.VText? && rules.clean(v.t) == rules.clean(w.t))
  }

  /** Two keys that are redacted alike and treated alike. */
  predicate AlikeKeys(rules: Rules, k: JsText, l: JsText) {
    rules.clean(k) == rules.clean(l) && rules.sensitive(k) == rules.sensitive(l) && Forbidden(k) == Forbidden(l)
  }

  /** Two entries whose keys are alike and whose values are redacted alike or stand under sensitive keys. */
  predicate AlikeEntries(rules: Rules, e: Entry, f: Entry) {
    AlikeKeys(rules, e.key, f.key) && (SameButCleaned(rules, e.value, f.value) || rules.sensitive(e.key))
  }

  /** Corresponding entries, alike and in the same order. */
  type Pairs = seq<(Entry, Entry)>

  predicate AlikePairs(rules: Rules, ps: Pairs) {
    && (forall p :: p in ps ==> AlikeEntries(rules, p.0, p.1))
    && (forall p, q :: p in ps && q in ps ==> rules.before(p.0.key, q.0.key) == rules.before(p.1.key, q.1.key))
  }

  function Zipped(a: seq<Entry>, b: seq<Entry>): (ps: Pairs)
    requires |a| == |b|
    ensures |ps| == |a|
    ensures forall i :: 0 <= i < |a| ==> ps[i] == (a[i], b[i])
  {
    seq(|a|, i requires 0 <= i < |a| => (a[i], b[i]))
  }

  function Firsts(ps: Pairs): (r: seq<Entry>)
    ensures |r| == |ps|
    ensures forall i :: 0 <= i < |r| ==> r[i] == ps[i].0
  {
    seq(|ps|, i requires 0 <= i < |ps| => ps[i].0)
  }

  function Seconds(ps: Pairs): (r: seq<Entry>)
    ensures |r| == |ps|
    ensures forall i :: 0 <= i < |r| ==> r[i] == ps[i].1
  {
    seq(|ps|, i requires 0 <= i < |ps| => ps[i].1)
  }

  predicate SameButCleanedPlace(rules: Rules, x: Option<Value>, y: Option<Value>) {
    x == y || (x.Some? && y.Some? && SameButCleaned(rules, x.value, y.value))
  }

  ghost predicate SameButCleanedItems(rules: Rules, a: seq<Option<Value>>, b: seq<Option<Value>>) {
    |a| == |b| && forall i :: 0 <= i < |a| ==> SameButCleanedPlace(rules, a[i], b[i])
  }

  ghost predicate SameButHiddenNodes(rules: Rules, n: Node, m: Node) {
    match (n, m)
    case (ArrayNode(a), ArrayNode(b)) => SameButCleanedItems(rules, a, b)
    case (ObjectNode(a), ObjectNode(b)) => |a| == |b| && AlikePairs(rules, Zipped(a, b))
    case _ => false
  }

  /** Two graphs that differ only in texts, keys among them, that are redacted alike and in what stands under sensitive keys. */
  ghost predicate SameButHiddenHeaps(rules: Rules, h: Heap, k: Heap) {
    forall id: Id :: SameButHiddenNodes(rules, h(id), k(id))
  }

  // ----- sorting -----

  function InsertPair(rules: Rules, p: (Entry, Entry), ps: Pairs): (r: Pairs)
    ensures forall q :: q in r ==> q == p || q in ps
  {
    if ps == [] || rules.before(p.0.key, ps[0].0.key) then [p] + ps else [ps[0]] + InsertPair(rules, p, ps[1..])
  }

  function SortPairs(rules: Rules, ps: Pairs): (r: Pairs)
    ensures forall q :: q in r ==> q in ps
  {
    if ps == [] then [] else InsertPair(rules, ps[|ps| - 1], SortPairs(rules, ps[..|ps| - 1]))
  }

  lemma PairsCons(p: (Entry, Entry), ps: Pairs)
    ensures Firsts([p] + ps) == [p.0] + Firsts(ps) && Seconds([p] + ps) == [p.1] + Seconds(ps)
  {
  }

  lemma PairsSnoc(ps: Pairs, p: (Entry, Entry))
    ensures Firsts(ps + [p]) == Firsts(ps) + [p.0] && Seconds(ps + [p]) == Seconds(ps) + [p.1]
  {
  }

  /** A pair compares alike with each of others. */
  predicate ComparesAlike(rules: Rules, p: (Entry, Entry), ps: Pairs) {
    forall i :: 0 <= i < |ps| ==> rules.before(p.0.key, ps[i].0.key) == rules.before(p.1.key, ps[i].1.key)
  }

  lemma {:induction false} InsertedPairs(rules: Rules, p: (Entry, Entry), ps: Pairs)
    requires ComparesAlike(rules, p, ps)
    ensures Firsts(InsertPair(rules, p, ps)) == InsertEntry(rules, p.0, Firsts(ps))
    ensures Seconds(InsertPair(rules, p, ps)) == InsertEntry(rules, p.1, Seconds(ps))
  {
    if ps == [] || rules.before(p.0.key, ps[0].0.key) {
      PairsCons(p, ps);
    } else {
      InsertedPairs(rules, p, ps[1..]);
      PairsCons(ps[0], ps[1..]);
      PairsCons(ps[0], InsertPair(rules, p, ps[1..]));
      assert [ps[0]] + ps[1..] == ps;
    }
  }

  lemma PairsCompareAlike(rules: Rules, all: Pairs, p: (Entry, Entry), ps: Pairs)
    requires AlikePairs(rules, all) && p in all && forall q :: q in ps ==> q in all
    ensures ComparesAlike(rules, p, ps)
  {
    forall i | 0 <= i < |ps| ensures rules.before(p.0.key, ps[i].0.key) == rules.before(p.1.key, ps[i].1.key) {
      assert ps[i] in ps;
    }
  }

  lemma SortSnoc(rules: Rules, es: seq<Entry>, e: Entry)
    ensures SortEntries(rules, es + [e]) == InsertEntry(rules, e, SortEntries(rules, es))
  {
    assert (es + [e])[..|es|] == es;
  }

  lemma SortPairsSnoc(rules: Rules, ps: Pairs, p: (Entry, Entry))
    ensures SortPairs(rules, ps + [p]) == InsertPair(rules, p, SortPairs(rules, ps))
  {
    assert (ps + [p])[..|ps|] == ps;
  }

  predicate SortedAlike(rules: Rules, ps: Pairs) {
    && Firsts(SortPairs(rules, ps)) == SortEntries(rules, Firsts(ps))
    && Seconds(SortPairs(rules, ps)) == SortEntries(rules, Seconds(ps))
  }

  lemma OneMoreSortedPair(rules: Rules, ps: Pairs, p: (Entry, Entry))
    requires SortedAlike(rules, ps) && ComparesAlike(rules, p, SortPairs(rules, ps))
    ensures SortedAlike(rules, ps + [p])
  {
    PairsSnoc(ps, p);
    SortPairsSnoc(rules, ps, p);
    SortSnoc(rules, Firsts(ps), p.0);
    SortSnoc(rules, Seconds(ps), p.1);
    InsertedPairs(rules, p, SortPairs(rules, ps));
  }

  lemma {:induction false} SortedPairs(rules: Rules, all: Pairs, ps: Pairs)
    requires AlikePairs(rules, all) && forall q :: q in ps ==> q in all
    ensures SortedAlike(rules, ps)
  {
    if ps != [] {
      var front, last := ps[..|ps| - 1], ps[|ps| - 1];
      SortedPairs(rules, all, front);
      PairsCompareAlike(rules, all, last, SortPairs(rules, front));
      OneMoreSortedPair(rules, front, last);
      assert front + [last] == ps;
    }
  }

  // ----- the walk -----

  /** Texts and keys show only as they are redacted, and what stands under sensitive keys, anywhere in the graph, not at all. */
  lemma {:induction false} OnlyCleanedTextsShow(rules: Rules, h: Heap, k: Heap, v: Value, w: Value, depth: nat, path: set<Id>)
    requires SameButHiddenHeaps(rules, h, k) && SameButCleaned(rules, v, w)
    ensures Sanitize(rules, h, v, depth, path) == Sanitize(rules, k, w, depth, path)
    decreases Max(0, MAX_DEPTH - depth), 0
  {
    if v.VObject? && depth < MAX_DEPTH && v.id !in path {
      assert SameButHiddenNodes(rules, h(v.id), k(v.id));
      NodesHide(rules, h, k, h(v.id), k(v.id), depth + 1, path + {v.id});
    }
  }

  lemma {:induction false} NodesHide(rules: Rules, h: Heap, k: Heap, n: Node, m: Node, depth: nat, path: set<Id>)
    requires SameButHiddenHeaps(rules, h, k) && SameButHiddenNodes(rules, n, m)
    ensures SanitizeNode(rules, h, n, depth, path) == SanitizeNode(rules, k, m, depth, path)
    decreases Max(0, MAX_DEPTH - depth), 100
  {
    match (n, m)
    case (ArrayNode(a), ArrayNode(b)) =>
      ItemsHide(rules, h, k, Front(a, MAX_ARRAY_ITEMS), Front(b, MAX_ARRAY_ITEMS), depth, path);
    case (ObjectNode(a), ObjectNode(b)) =>
      var ps := Zipped(a, b);
      var sorted := SortPairs(rules, ps);
      assert Firsts(ps) == a && Seconds(ps) == b;
      SortedPairs(rules, ps, ps);
      var front := Front(sorted, MAX_OBJECT_KEYS);
      assert Firsts(front) == Front(SortEntries(rules, a), MAX_OBJECT_KEYS);
      assert Seconds(front) == Front(SortEntries(rules, b), MAX_OBJECT_KEYS);
      PairsHide(rules, h, k, front, depth, path);
  }

  lemma {:induction false} ItemsHide(rules: Rules, h: Heap, k: Heap, a: seq<Option<Value>>, b: seq<Option<Value>>, depth: nat, path: set<Id>)
    requires SameButHiddenHeaps(rules, h, k) && SameButCleanedItems(rules, a, b)
    ensures SanitizeItems(rules, h, a, depth, path) == SanitizeItems(rules, k, b, depth, path)
    decreases Max(0, MAX_DEPTH - depth), 1 + |a|
  {
    if a != [] {
      var last := |a| - 1;
      ItemsHide(rules, h, k, a[..last], b[..last], depth, path);
      assert SameButCleanedPlace(rules, a[last], b[last]);
      if a[last].Some? { OnlyCleanedTextsShow(rules, h, k, a[last].value, b[last].value, depth, path); }
    }
  }

  lemma {:induction false} PairsHide(rules: Rules, h: Heap, k: Heap, ps: Pairs, depth: nat, path: set<Id>)
    requires SameButHiddenHeaps(rules, h, k) && forall p :: p in ps ==> AlikeEntries(rules, p.0, p.1)
    ensures SanitizeEntries(rules, h, Firsts(ps), depth, path) == SanitizeEntries(rules, k, Seconds(ps), depth, path)
    decreases Max(0, MAX_DEPTH - depth), 1 + |ps|
  {
    if ps != [] {
      var front, last := ps[..|ps| - 1], ps[|ps| - 1];
      assert last in ps;
      PairsHide(rules, h, k, front, depth, path);
      PairsSnoc(front, last);
      assert front + [last] == ps;
      if !rules.sensitive(last.0.key) { OnlyCleanedTextsShow(rules, h, k, last.0.value, last.1.value, depth, path); }
    }
  }

  // ----- sensitive keys -----

  /** Two graphs that differ only in what stands under sensitive keys. */
  ghost predicate SameButSecrets(rules: Rules, h: Heap, k: Heap) {
    forall id: Id :: SameButSecretNodes(rules, h(id), k(id))
  }

  ghost predicate SameButSecretNodes(rules: Rules, n: Node, m: Node) {
    match (n, m)
    case (ArrayNode(a), ArrayNode(b)) => a == b
    case (ObjectNode(a), ObjectNode(b)) =>
      |a| == |b| && forall i :: 0 <= i < |a| ==> a[i].key == b[i].key && (a[i].value == b[i].value || rules.sensitive(a[i].key))
    case _ => false
  }

  lemma SecretNodesAreAlike(rules: Rules, n: Node, m: Node)
    requires SameButSecretNodes(rules, n, m)
    ensures SameButHiddenNodes(rules, n, m)
  {
  }

  /** What stands under sensitive keys, anywhere in the graph, does not show in the sanitized value. */
  lemma SecretsDoNotShow(rules: Rules, h: Heap, k: Heap, v: Value, depth: nat, path: set<Id>)
    requires SameButSecrets(rules, h, k)
    ensures Sanitize(rules, h, v, depth, path) == Sanitize(rules, k, v, depth, path)
  {
    forall id: Id ensures SameButHiddenNodes(rules, h(id), k(id)) {
      assert SameButSecretNodes(rules, h(id), k(id));
      SecretNodesAreAlike(rules, h(id), k(id));
    }
    OnlyCleanedTextsShow(rules, h, k, v, v, depth, path);
  }
}
