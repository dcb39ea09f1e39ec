/**
 What becomes of sparse arrays in audited values: the sanitizer keeps their holes, the canonical text writes nothing in
 their place, and a stored row may then not be read back (packages/governance/src/auditRedaction.ts:118-125,
 canonicalJson.ts:24-26, auditChainHash.ts:128-153).
 */
module SparsePayloads {
  import opened Prelude
  import opened Texts
  import opened KeyedLists
  import opened SparseJson
  import opened Sanitizer
  import opened Hashing
  import SanitizerLaws
  import SparseParser
  import CanonicalParser
  import Numbers
  import Utf8
  import AuditHash
  import E = AuditEntries
  import J = CanonicalJson

  // ----- which graphs print JSON -----

  lemma SanitizedIsNoHole(rules: Rules, heap: Heap, v: Value, depth: nat, path: set<Id>)
    ensures !Sanitize(rules, heap, v, depth, path).Hole?
  {
  }

  /** The first 64 places of an array hold values, and each of them prints JSON. */
  ghost predicate ItemsPrintJson(rules: Rules, heap: Heap, items: seq<Option<Value>>, depth: nat, path: set<Id>) {
    forall i :: 0 <= i < |items| ==> items[i].Some? && Solid(Sanitize(rules, heap, items[i].value, depth, path))
  }

  lemma SolidItemsExactly(rules: Rules, heap: Heap, items: seq<Option<Value>>, depth: nat, path: set<Id>)
    ensures AllSolid(SanitizeItems(rules, heap, items, depth, path)) <==> ItemsPrintJson(rules, heap, items, depth, path)
  {
    var r := SanitizeItems(rules, heap, items, depth, path);
    forall i | 0 <= i < |items|
      ensures Solid(r[i]) <==> items[i].Some? && Solid(Sanitize(rules, heap, items[i].value, depth, path))
    {
      SanitizerLaws.SanitizedItemAt(rules, heap, items, depth, path, i);
    }
    if AllSolid(r) {
      forall i | 0 <= i < |items| ensures items[i].Some? && Solid(Sanitize(rules, heap, items[i].value, depth, path)) {
        assert Solid(r[i]);
      }
    } else {
      var i :| 0 <= i < |r| && !Solid(r[i]);
      assert items[i].None? || !Solid(Sanitize(rules, heap, items[i].value, depth, path));
    }
  }

  predicate AllSolid(vs: seq<Sparse>) {
    forall i :: 0 <= i < |vs| ==> Solid(vs[i])
  }

  lemma OmittedItemsAreSolid(total: nat)
    ensures AllSolid(OmittedItems(total))
  {
  }

  lemma SolidConcat(a: seq<Sparse>, b: seq<Sparse>)
    requires AllSolid(b) && (a == [Hole] ==> b == [])
    ensures Solid(Arr(a + b)) <==> (a == [Hole] || AllSolid(a))
  {
    if a == [Hole] {
      assert a + b == [Hole];
    } else if AllSolid(a) {
      assert AllSolid(a + b);
    } else {
      var i :| 0 <= i < |a| && !Solid(a[i]);
      assert (a + b)[i] == a[i];
      if |a| > 1 { assert |a + b| > 1; } else { assert a == [a[0]]; }
      NotSolid(a + b, i);
    }
  }

  lemma NotSolid(vs: seq<Sparse>, i: nat)
    requires i < |vs| && !Solid(vs[i]) && vs != [Hole]
    ensures !Solid(Arr(vs))
  {
  }

  /**
   A sanitized array prints JSON exactly when none of its first 64 places is a hole and what they hold prints JSON, or when
   it is a hole and nothing else.
   */
  lemma ArraysPrintJsonExactly(rules: Rules, heap: Heap, items: Items, depth: nat, path: set<Id>)
    ensures Solid(SanitizeNode(rules, heap, ArrayNode(items), depth, path))
      <==> (items == [None] || ItemsPrintJson(rules, heap, Front(items, MAX_ARRAY_ITEMS), depth, path))
  {
    var front := Front(items, MAX_ARRAY_ITEMS);
    var kept := SanitizeItems(rules, heap, front, depth, path);
    OmittedItemsAreSolid(|items|);
    if |front| == 1 {
      SanitizerLaws.SanitizedItemAt(rules, heap, front, depth, path, 0);
      if front[0].Some? { SanitizedIsNoHole(rules, heap, front[0].value, depth, path); }
      assert |items| == 1 && items == [items[0]] && kept == [kept[0]];
    }
    SolidConcat(kept, OmittedItems(|items|));
    SolidItemsExactly(rules, heap, front, depth, path);
  }

  /** No array has a hole among its first 64 places. */
  ghost predicate Dense(heap: Heap) {
    forall id: Id :: DenseNode(heap(id))
  }

  ghost predicate DenseNode(node: Node) {
    node.ArrayNode? ==> forall i :: 0 <= i < |node.items| && i < MAX_ARRAY_ITEMS ==> node.items[i].Some?
  }

  predicate WholeMembers(ms: seq<Keyed<Sparse>>) {
    forall i :: 0 <= i < |ms| ==> Whole(ms[i].value)
  }

  lemma {:induction false} PutKeepsWhole(ms: seq<Keyed<Sparse>>, key: Text, v: Sparse)
    requires WholeMembers(ms) && Whole(v)
    ensures WholeMembers(Put(ms, key, v))
  {
    if ms != [] && ms[0].key != key { PutKeepsWhole(ms[1..], key, v); }
  }

  /** Graphs without such holes are sanitized to values without holes. */
  lemma {:induction false} DenseGraphsAreWhole(rules: Rules, heap: Heap, v: Value, depth: nat, path: set<Id>) returns (r: Sparse)
    requires Dense(heap)
    ensures r == Sanitize(rules, heap, v, depth, path) && Whole(r)
    decreases Max(0, MAX_DEPTH - depth), 0
  {
    if v.VObject? && depth < MAX_DEPTH && v.id !in path {
      r := DenseNodesAreWhole(rules, heap, v.id, depth + 1, path + {v.id});
      SanitizerLaws.ObjectsAreNodes(rules, heap, v.id, depth, path, r);
    } else {
      r := Sanitize(rules, heap, v, depth, path);
    }
  }

  lemma {:induction false} DenseNodesAreWhole(rules: Rules, heap: Heap, id: Id, depth: nat, path: set<Id>) returns (r: Sparse)
    requires Dense(heap)
    ensures r == SanitizeNode(rules, heap, heap(id), depth, path) && Whole(r)
    decreases Max(0, MAX_DEPTH - depth), 100
  {
    assert DenseNode(heap(id));
    match heap(id) {
      case ArrayNode(items) =>
        var front := Front(items, MAX_ARRAY_ITEMS);
        DenseItemsAreWhole(rules, heap, front, depth, path);
        r := Arr(SanitizeItems(rules, heap, front, depth, path) + OmittedItems(|items|));
      case ObjectNode(entries) =>
        var sorted := Front(SortEntries(rules, entries), MAX_OBJECT_KEYS);
        DenseEntriesAreWhole(rules, heap, sorted, depth, path);
        OmittedKeysKeepWhole(SanitizeEntries(rules, heap, sorted, depth, path), |entries|);
        r := ObjectOf(SanitizeEntries(rules, heap, sorted, depth, path), |entries|);
    }
  }

  lemma OmittedKeysKeepWhole(ms: seq<Keyed<Sparse>>, total: nat)
    requires WholeMembers(ms)
    ensures WholeMembers(WithOmittedKeys(ms, total))
  {
    if total > MAX_OBJECT_KEYS {
      PutKeepsWhole(ms, Ascii("_audit_omitted_keys"), Number(Numbers.OfNat(total - MAX_OBJECT_KEYS)));
    }
  }

  lemma {:induction false} DenseItemsAreWhole(rules: Rules, heap: Heap, items: seq<Option<Value>>, depth: nat, path: set<Id>)
    requires Dense(heap) && forall i :: 0 <= i < |items| ==> items[i].Some?
    ensures forall i :: 0 <= i < |items| ==> Whole(SanitizeItems(rules, heap, items, depth, path)[i])
    decreases Max(0, MAX_DEPTH - depth), 1 + |items|
  {
    if items != [] {
      DenseItemsAreWhole(rules, heap, items[..|items| - 1], depth, path);
      var last := DenseGraphsAreWhole(rules, heap, items[|items| - 1].value, depth, path);
    }
  }

  lemma {:induction false} DenseEntriesAreWhole(rules: Rules, heap: Heap, entries: seq<Entry>, depth: nat, path: set<Id>)
    requires Dense(heap)
    ensures WholeMembers(SanitizeEntries(rules, heap, entries, depth, path))
    decreases Max(0, MAX_DEPTH - depth), 1 + |entries|
  {
    if entries != [] {
      var e := entries[|entries| - 1];
      DenseEntriesAreWhole(rules, heap, entries[..|entries| - 1], depth, path);
      var value := DenseGraphsAreWhole(rules, heap, e.value, depth, path);
      PutKeepsWhole(SanitizeEntries(rules, heap, entries[..|entries| - 1], depth, path), RedactText(rules, e.key, MAX_KEY_BYTES),
                    EntryValue(rules, heap, e, depth, path));
    }
  }

  // ----- rows with such payloads -----

  /** A row with the text of a sanitized payload. */
  function WithPayload(e: E.AuditEntry, rowId: Text, v: Sparse): AuditHash.EventRow {
    var row := E.ToRow(e, rowId);
    if e.Intent? then row.(params := Some(Canonicalize(v))) else row.(result := Some(Canonicalize(v)))
  }

  function EntryWith(e: E.AuditEntry, v: J.Json): E.AuditEntry {
    if e.Intent? then e.(params := Some(v)) else e.(result := Some(v))
  }

  lemma PayloadTextsParseExactly(v: Sparse)
    ensures E.Parsed(Canonicalize(v)) == if Solid(v) then Some(J.Normalize(Closed(v))) else None
  {
    SparseParser.SparseTextsParseExactly(v);
  }

  /**
   A stored row is read back exactly when every hole of its payload is all of its array. The entry read is then the one
   written without those holes, hence the one written exactly when there were none.
   */
  lemma SparseEntriesRoundTripExactly(e: E.AuditEntry, rowId: Text, v: Sparse)
    ensures E.FromRow(WithPayload(e, rowId, v)) == if Solid(v) then Some(E.Sorted(EntryWith(e, Closed(v)))) else None
    ensures Whole(v) <==> Solid(v) && Opened(Closed(v)) == v
  {
    E.KindsDiffer();
    PayloadTextsParseExactly(v);
    if Whole(v) { WholeIsSolid(v); }
    if Solid(v) { ClosingKeepsWholeValues(v); }
  }

  lemma DigestsAreWhole(bytes: nat, digest: Digest)
    ensures Whole(Digested(bytes, digest))
  {
  }

  /** For graphs without holes the audited value is stored and read back. */
  lemma DenseValuesAreReadBack(sha: Hash, rules: Rules, heap: Heap, v: Value, e: E.AuditEntry, rowId: Text)
    requires Dense(heap)
    ensures var audited := SanitizeAuditValue(sha, rules, heap, v);
      Whole(audited) && Solid(audited) && E.FromRow(WithPayload(e, rowId, audited)) == Some(E.Sorted(EntryWith(e, Closed(audited))))
  {
    var audited := SanitizeAuditValue(sha, rules, heap, v);
    var sanitized := DenseGraphsAreWhole(rules, heap, v, 0, {});
    var canonical := Canonicalize(sanitized);
    DigestsAreWhole(Utf8.ByteLength(canonical), sha(canonical));
    WholeIsSolid(audited);
    SparseEntriesRoundTripExactly(e, rowId, audited);
  }

  /** An array of a hole and a number, under a key of its own: its text is no JSON. */
  lemma SparseArraysAreNotReadBack(e: E.AuditEntry, rowId: Text, n: Numbers.Num)
    ensures E.FromRow(WithPayload(e, rowId, Arr([Hole, Number(n)]))) == None
  {
    assert !Solid(Arr([Hole, Number(n)])) by { assert [Hole, Number(n)][0] == Hole; }
    SparseEntriesRoundTripExactly(e, rowId, Arr([Hole, Number(n)]));
  }
}
