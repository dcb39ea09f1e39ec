/**
 What the sanitizer guarantees for every object graph, cyclic or not: the shape and the size of its result.
 */
module SanitizerLaws {
  import opened Prelude
  import opened Texts
  import opened KeyedLists
  import opened SparseJson
  import J = CanonicalJson
  import opened Hashing
  import opened Sanitizer
  import Numbers
  import Strings
  import Utf8

  // ----- items -----

  /** The sanitized items, place by place. */
  lemma {:induction false} SanitizedItemAt(rules: Rules, heap: Heap, items: seq<Option<Value>>, depth: nat, path: set<Id>, i: nat)
    requires i < |items|
    ensures SanitizeItems(rules, heap, items, depth, path)[i]
      == match items[i] { case None => Hole case Some(v) => Sanitize(rules, heap, v, depth, path) }
  {
    if i < |items| - 1 { SanitizedItemAt(rules, heap, items[..|items| - 1], depth, path, i); }
  }

  // ----- shape -----

  /** A value with at most n containers inside each other, each with at most 65 entries, and with short strings and keys. */
  predicate Tame(v: Sparse, n: nat) {
    match v
    case Hole => true
    case Null => true
    case Bool(_) => true
    case Number(m) => |Numbers.PrintNumber(m)| <= 25
    case Str(t) => Utf8.ByteLength(t) <= MAX_STRING_BYTES
    case Arr(items) => n > 0 && |items| <= MAX_ARRAY_ITEMS + 1 && TameItems(items, n - 1)
    case Obj(ms) => n > 0 && |ms| <= MAX_OBJECT_KEYS + 1 && TameMembers(ms, n - 1)
  }

  predicate TameItems(items: seq<Sparse>, n: nat) {
    forall i :: 0 <= i < |items| ==> Tame(items[i], n)
  }

  predicate TameMembers(ms: seq<Keyed<Sparse>>, n: nat) {
    forall i :: 0 <= i < |ms| ==> Utf8.ByteLength(ms[i].key) <= MAX_KEY_BYTES && Tame(ms[i].value, n)
  }

  lemma {:induction false} DigitCount(n: nat, k: nat)
    requires 0 < k && n < Power(k)
    ensures |Numbers.DigitsOf(n)| <= k
  {
    if n >= 10 {
      DigitCount(n / 10, k - 1);
    }
  }

  function Power(k: nat): nat { if k == 0 then 1 else 10 * Power(k - 1) }

  lemma NaturalsAreShort(n: nat, k: nat)
    requires 0 < k <= 21 && n < Power(k)
    ensures |Numbers.PrintNumber(Numbers.OfNat(n))| <= k
  {
    DigitCount(n, k);
  }

  lemma AsciiIsShort(s: string)
    ensures Utf8.ByteLength(Ascii(s)) <= 3 * |s|
  {
    Utf8.LengthIsBounded(Ascii(s));
  }

  lemma RedactedIsShort(rules: Rules, t: JsText, maxBytes: nat)
    requires maxBytes >= 256
    ensures Utf8.ByteLength(RedactText(rules, t, maxBytes)) <= maxBytes
  {
    var bytes := Utf8.ByteLength(rules.clean(t));
    if bytes > maxBytes {
      Utf8.LengthIsBounded(rules.clean(t));
      assert Power(10) == 10000000000;
      NaturalsAreShort(bytes, 10);
      Utf8.LengthIsBounded(OversizedText(bytes));
    }
  }

  lemma LeavesAreTame(rules: Rules, heap: Heap, v: Value, depth: nat, path: set<Id>)
    requires v.VObject? ==> depth >= MAX_DEPTH || v.id in path
    ensures Tame(Sanitize(rules, heap, v, depth, path), 0)
  {
    match v
    case VText(t) => RedactedIsShort(rules, t, MAX_STRING_BYTES);
    case VNonFinite => Utf8.LengthIsBounded(Omitted(Ascii("non-finite-number")));
    case VOther(kind) => Utf8.LengthIsBounded(Omitted(KindText(kind)));
    case VObject(_) =>
      Utf8.LengthIsBounded(Omitted(Ascii("depth-limit")));
      Utf8.LengthIsBounded(Omitted(Ascii("cyclic-reference")));
    case _ =>
  }

  lemma {:induction false} TameIsMonotone(v: Sparse, m: nat, n: nat)
    requires Tame(v, m) && m <= n
    ensures Tame(v, n)
    decreases v, 1
  {
    match v
    case Arr(items) => TameItemsGrow(items, m - 1, n - 1);
    case Obj(ms) => TameMembersGrow(ms, m - 1, n - 1);
    case _ =>
  }

  lemma {:induction false} TameItemsGrow(items: seq<Sparse>, m: nat, n: nat)
    requires TameItems(items, m) && m <= n
    ensures TameItems(items, n)
    decreases items, 0
  {
    forall i | 0 <= i < |items| ensures Tame(items[i], n) { TameIsMonotone(items[i], m, n); }
  }

  lemma {:induction false} TameMembersGrow(ms: seq<Keyed<Sparse>>, m: nat, n: nat)
    requires TameMembers(ms, m) && m <= n
    ensures TameMembers(ms, n)
    decreases ms, 0
  {
    forall i | 0 <= i < |ms| ensures Utf8.ByteLength(ms[i].key) <= MAX_KEY_BYTES && Tame(ms[i].value, n) {
      TameIsMonotone(ms[i].value, m, n);
    }
  }

  lemma {:induction false} PutKeepsTame(ms: seq<Keyed<Sparse>>, key: Text, v: Sparse, n: nat)
    requires TameMembers(ms, n) && Utf8.ByteLength(key) <= MAX_KEY_BYTES && Tame(v, n)
    ensures TameMembers(Put(ms, key, v), n) && |Put(ms, key, v)| <= |ms| + 1
  {
    if ms != [] && ms[0].key != key {
      PutKeepsTame(ms[1..], key, v, n);
    }
  }

  lemma OmittedNumbersAreTame(total: nat)
    requires total < 0x1_0000_0000
    ensures |Numbers.PrintNumber(Numbers.OfNat(total))| <= 10
  {
    assert Power(10) == 10000000000;
    NaturalsAreShort(total, 10);
  }

  lemma SingleMemberIsTame(key: Text, v: Sparse, o: Sparse)
    requires Utf8.ByteLength(key) <= MAX_KEY_BYTES && Tame(v, 0) && o == Obj([Keyed(key, v)])
    ensures Tame(o, 1)
  {
    assert TameMembers([Keyed(key, v)], 0);
  }

  lemma OmittedItemsAreTame(total: nat)
    requires total < 0x1_0000_0000
    ensures TameItems(OmittedItems(total), 1)
  {
    if total > MAX_ARRAY_ITEMS {
      var items := OmittedItems(total);
      OmittedNumbersAreTame(total - MAX_ARRAY_ITEMS);
      AsciiIsShort("_audit_omitted_items");
      SingleMemberIsTame(Ascii("_audit_omitted_items"), Number(Numbers.OfNat(total - MAX_ARRAY_ITEMS)), items[0]);
    }
  }

  lemma ConcatenatedItemsAreTame(a: seq<Sparse>, b: seq<Sparse>, n: nat, m: nat)
    requires TameItems(a, n) && TameItems(b, m) && m <= n && |a| + |b| <= MAX_ARRAY_ITEMS + 1
    ensures Tame(Arr(a + b), n + 1)
  {
    forall i | 0 <= i < |a + b| ensures Tame((a + b)[i], n) {
      if i >= |a| { TameIsMonotone((a + b)[i], m, n); }
    }
  }

  /** How many containers a sanitized value at a depth may still hold inside each other. */
  function Levels(depth: nat): nat { Max(0, MAX_DEPTH - depth) + 1 }

  lemma ObjectsAreNodes(rules: Rules, heap: Heap, id: Id, depth: nat, path: set<Id>, r: Sparse)
    requires depth < MAX_DEPTH && id !in path
    requires r == SanitizeNode(rules, heap, heap(id), depth + 1, path + {id})
    ensures r == Sanitize(rules, heap, VObject(id), depth, path)
  {
  }

  lemma LeafIsTame(rules: Rules, heap: Heap, v: Value, depth: nat, path: set<Id>, n: nat) returns (r: Sparse)
    requires v.VObject? ==> depth >= MAX_DEPTH || v.id in path
    ensures r == Sanitize(rules, heap, v, depth, path) && Tame(r, n)
  {
    r := Sanitize(rules, heap, v, depth, path);
    LeavesAreTame(rules, heap, v, depth, path);
    TameIsMonotone(r, 0, n);
  }

  /** Every graph is sanitized to a tame value: at most seven containers inside each other from the top. */
  lemma {:induction false} SanitizedIsTame(rules: Rules, heap: Heap, v: Value, depth: nat, path: set<Id>, n: nat) returns (r: Sparse)
    requires n == Levels(depth)
    ensures r == Sanitize(rules, heap, v, depth, path) && Tame(r, n)
    decreases Max(0, MAX_DEPTH - depth), 1
  {
    if v.VObject? && depth < MAX_DEPTH && v.id !in path {
      r := KeptIsTame(rules, heap, v.id, depth, path, n);
    } else {
      r := LeafIsTame(rules, heap, v, depth, path, n);
    }
  }

  lemma {:induction false} KeptIsTame(rules: Rules, heap: Heap, id: Id, depth: nat, path: set<Id>, n: nat) returns (r: Sparse)
    requires n == Levels(depth) && depth < MAX_DEPTH && id !in path
    ensures r == Sanitize(rules, heap, VObject(id), depth, path) && Tame(r, n)
    decreases Max(0, MAX_DEPTH - depth), 0
  {
    r := NodeIsTame(rules, heap, heap(id), depth + 1, path + {id}, n - 1);
    ObjectsAreNodes(rules, heap, id, depth, path, r);
  }

  lemma {:induction false} NodeIsTame(rules: Rules, heap: Heap, node: Node, depth: nat, path: set<Id>, n: nat) returns (r: Sparse)
    requires n == Levels(depth)
    ensures r == SanitizeNode(rules, heap, node, depth, path) && Tame(r, n + 1) && (r.Arr? || r.Obj?)
    decreases Max(0, MAX_DEPTH - depth), 100
  {
    match node {
      case ArrayNode(items) =>
        var front := Front(items, MAX_ARRAY_ITEMS);
        var kept, omitted := SanitizeItems(rules, heap, front, depth, path), OmittedItems(|items|);
        ItemsAreTame(rules, heap, front, depth, path);
        OmittedItemsAreTame(|items|);
        ConcatenatedItemsAreTame(kept, omitted, n, 1);
        r := Arr(kept + omitted);
      case ObjectNode(entries) =>
        var sorted := Front(SortEntries(rules, entries), MAX_OBJECT_KEYS);
        ObjectIsTame(rules, heap, sorted, |entries|, depth, path);
        r := ObjectOf(SanitizeEntries(rules, heap, sorted, depth, path), |entries|);
    }
  }

  lemma {:induction false} ItemsAreTame(rules: Rules, heap: Heap, items: seq<Option<Value>>, depth: nat, path: set<Id>)
    ensures TameItems(SanitizeItems(rules, heap, items, depth, path), Levels(depth))
    decreases Max(0, MAX_DEPTH - depth), 2 + |items|
  {
    if items != [] {
      ItemsAreTame(rules, heap, items[..|items| - 1], depth, path);
      if items[|items| - 1].Some? { var last := SanitizedIsTame(rules, heap, items[|items| - 1].value, depth, path, Levels(depth)); }
    }
  }

  lemma {:induction false} ObjectIsTame(rules: Rules, heap: Heap, sorted: seq<Entry>, total: nat, depth: nat, path: set<Id>)
    requires |sorted| <= MAX_OBJECT_KEYS && total < 0x1_0000_0000
    ensures var ms := WithOmittedKeys(SanitizeEntries(rules, heap, sorted, depth, path), total);
      |ms| <= MAX_OBJECT_KEYS + 1 && TameMembers(ms, Levels(depth))
    decreases Max(0, MAX_DEPTH - depth), 5 + |sorted|
  {
    EntriesAreTame(rules, heap, sorted, depth, path);
    OmittedKeysAreTame(SanitizeEntries(rules, heap, sorted, depth, path), total, Levels(depth));
  }

  lemma OmittedKeysAreTame(ms: seq<Keyed<Sparse>>, total: nat, n: nat)
    requires TameMembers(ms, n) && |ms| <= MAX_OBJECT_KEYS && total < 0x1_0000_0000
    ensures TameMembers(WithOmittedKeys(ms, total), n) && |WithOmittedKeys(ms, total)| <= MAX_OBJECT_KEYS + 1
  {
    if total > MAX_OBJECT_KEYS {
      OmittedNumbersAreTame(total - MAX_OBJECT_KEYS);
      AsciiIsShort("_audit_omitted_keys");
      PutKeepsTame(ms, Ascii("_audit_omitted_keys"), Number(Numbers.OfNat(total - MAX_OBJECT_KEYS)), n);
    }
  }

  lemma {:induction false} EntriesAreTame(rules: Rules, heap: Heap, entries: seq<Entry>, depth: nat, path: set<Id>)
    ensures TameMembers(SanitizeEntries(rules, heap, entries, depth, path), Levels(depth))
    ensures |SanitizeEntries(rules, heap, entries, depth, path)| <= |entries|
    decreases Max(0, MAX_DEPTH - depth), 3 + |entries|
  {
    if entries != [] {
      var e := entries[|entries| - 1];
      EntriesAreTame(rules, heap, entries[..|entries| - 1], depth, path);
      EntryIsTame(rules, heap, e, depth, path);
      RedactedIsShort(rules, e.key, MAX_KEY_BYTES);
      PutKeepsTame(SanitizeEntries(rules, heap, entries[..|entries| - 1], depth, path), RedactText(rules, e.key, MAX_KEY_BYTES),
                   EntryValue(rules, heap, e, depth, path), Levels(depth));
    }
  }

  lemma {:induction false} EntryIsTame(rules: Rules, heap: Heap, e: Entry, depth: nat, path: set<Id>)
    ensures Tame(EntryValue(rules, heap, e, depth, path), Levels(depth))
    decreases Max(0, MAX_DEPTH - depth), 2
  {
    var value := SanitizedIsTame(rules, heap, e.value, depth, path, Levels(depth));
    AsciiIsShort("[REDACTED]");
  }

  // ----- size -----

  lemma {:induction false} EscapeGrowth(t: Text)
    ensures Utf8.ByteLength(Strings.Escape(t)) <= 6 * Utf8.ByteLength(t)
    decreases |t|
  {
    if t == [] {
    } else if |t| > 1 && Strings.IsHigh(t[0]) && Strings.IsLow(t[1]) {
      EscapeGrowth(t[2..]);
      PairLength(t[0], t[1]);
      Utf8.LengthOfConcat([t[0], t[1]], Strings.Escape(t[2..]));
    } else {
      EscapeGrowth(t[1..]);
      EscapedUnitLength(t[0]);
      Utf8.LengthOfConcat(Strings.EscapeUnit(t[0]), Strings.Escape(t[1..]));
      UnitLength(t);
    }
  }

  lemma PairLength(high: Unit, low: Unit)
    requires Strings.IsHigh(high) && Strings.IsLow(low)
    ensures Utf8.ByteLength([high, low]) == 4
  {
    assert [high, low][2..] == [];
    assert Utf8.Encode([high, low]) == Utf8.EncodeScalar(Utf8.ScalarOf(high, low)) + Utf8.Encode([high, low][2..]);
  }

  /** The bytes of one unit. */
  function UnitBytes(u: Unit): nat { if u < 0x80 then 1 else if u < 0x800 then 2 else 3 }

  lemma UnitLength(t: Text)
    requires t != [] && !(|t| > 1 && Strings.IsHigh(t[0]) && Strings.IsLow(t[1]))
    ensures Utf8.ByteLength(t) == UnitBytes(t[0]) + Utf8.ByteLength(t[1..])
  {
  }

  lemma EscapedUnitLength(u: Unit)
    ensures Utf8.ByteLength(Strings.EscapeUnit(u)) <= 6 * UnitBytes(u)
  {
    var e := Strings.EscapeUnit(u);
    if |e| == 1 {
      UnitLength(e);
      assert e[1..] == [];
    } else {
      Utf8.LengthOfAscii(e);
    }
  }

  lemma QuotedLength(t: Text)
    ensures Utf8.ByteLength(Strings.Quote(t)) <= 6 * Utf8.ByteLength(t) + 2
  {
    EscapeGrowth(t);
    EnclosedLength(QUOTE, Strings.Escape(t), QUOTE);
  }

  lemma EnclosedLength(open: Unit, t: Text, close: Unit)
    requires open < 0x80 && close < 0x80
    ensures Utf8.ByteLength([open] + (t + [close])) <= Utf8.ByteLength(t) + 2
  {
    Utf8.LengthOfAscii([open]);
    Utf8.LengthOfAscii([close]);
    Utf8.LengthOfConcat(t, [close]);
    Utf8.LengthOfConcat([open], t + [close]);
  }

  /** The most bytes the canonical text of a tame value with n levels may take. */
  function Bound(n: nat): nat {
    if n == 0 then 6 * MAX_STRING_BYTES + 2
    else 2 + (MAX_OBJECT_KEYS + 1) * (PairBound(MAX_KEY_BYTES, Bound(n - 1)) + 1)
  }

  lemma {:induction false} BoundsGrow(n: nat)
    ensures Bound(n) >= 6 * MAX_STRING_BYTES + 2
  {
    if n > 0 { BoundsGrow(n - 1); }
  }

  lemma {:induction false} JoinedItemsLength(ts: seq<Text>, b: nat)
    requires forall i :: 0 <= i < |ts| ==> Utf8.ByteLength(ts[i]) <= b
    ensures Utf8.ByteLength(J.JoinItems(ts)) <= |ts| * (b + 1)
  {
    if |ts| > 1 {
      JoinedItemsLength(ts[1..], b);
      CommaLength(ts[0], J.JoinItems(ts[1..]));
      OneMore(|ts| - 1, b + 1);
    }
  }

  lemma CommaLength(a: Text, rest: Text)
    ensures Utf8.ByteLength(a + ([COMMA] + rest)) <= Utf8.ByteLength(a) + 1 + Utf8.ByteLength(rest)
  {
    Utf8.LengthOfAscii([COMMA]);
    Utf8.LengthOfConcat([COMMA], rest);
    Utf8.LengthOfConcat(a, [COMMA] + rest);
  }

  lemma PairedLength(m: Keyed<Text>)
    ensures Utf8.ByteLength(J.Pair(m)) <= 6 * Utf8.ByteLength(m.key) + 3 + Utf8.ByteLength(m.value)
  {
    QuotedLength(m.key);
    Utf8.LengthOfAscii([COLON]);
    Utf8.LengthOfConcat([COLON], m.value);
    Utf8.LengthOfConcat(Strings.Quote(m.key), [COLON] + m.value);
  }

  predicate ShortMembers(ms: seq<Keyed<Text>>, keyBytes: nat, valueBytes: nat) {
    forall i :: 0 <= i < |ms| ==> Utf8.ByteLength(ms[i].key) <= keyBytes && Utf8.ByteLength(ms[i].value) <= valueBytes
  }

  lemma OneMore(n: nat, c: nat)
    ensures (n + 1) * c == c + n * c
  {
  }

  lemma Scaled(a: nat, b: nat, c: nat)
    requires a <= b
    ensures a * c <= b * c
  {
  }

  /** The most bytes a key, a colon and a value may take. */
  function PairBound(keyBytes: nat, valueBytes: nat): nat { 6 * keyBytes + 3 + valueBytes }

  lemma FirstPairLength(ms: seq<Keyed<Text>>, k: nat, b: nat)
    requires ms != [] && ShortMembers(ms, k, b)
    ensures Utf8.ByteLength(J.Pair(ms[0])) <= PairBound(k, b) && ShortMembers(ms[1..], k, b)
  {
    PairedLength(ms[0]);
  }

  lemma {:induction false} MembersLength(ms: seq<Keyed<Text>>, k: nat, b: nat)
    requires ShortMembers(ms, k, b)
    ensures Utf8.ByteLength(J.JoinMembers(ms)) <= |ms| * (PairBound(k, b) + 1)
  {
    if ms != [] {
      FirstPairLength(ms, k, b);
      if |ms| > 1 {
        MembersLength(ms[1..], k, b);
        CommaLength(J.Pair(ms[0]), J.JoinMembers(ms[1..]));
        OneMore(|ms| - 1, PairBound(k, b) + 1);
      }
    }
  }

  lemma {:induction false} InsertKeepsShort(m: Keyed<Text>, ms: seq<Keyed<Text>>, k: nat, b: nat)
    requires ShortMembers([m], k, b) && ShortMembers(ms, k, b)
    ensures ShortMembers(Insert(m, ms), k, b)
  {
    assert Utf8.ByteLength([m][0].key) <= k && Utf8.ByteLength([m][0].value) <= b;
    if ms != [] && !Before(m.key, ms[0].key) { InsertKeepsShort(m, ms[1..], k, b); }
  }

  lemma {:induction false} SortKeepsShort(ms: seq<Keyed<Text>>, k: nat, b: nat)
    requires ShortMembers(ms, k, b)
    ensures ShortMembers(Sort(ms), k, b)
  {
    if ms != [] {
      SortKeepsShort(ms[1..], k, b);
      InsertKeepsShort(ms[0], Sort(ms[1..]), k, b);
    }
  }

  lemma LeafTextIsBounded(v: Sparse)
    requires Tame(v, 0)
    ensures Utf8.ByteLength(Canonicalize(v)) <= 6 * MAX_STRING_BYTES + 2
  {
    match v
    case Str(t) => QuotedLength(t);
    case _ => Utf8.LengthIsBounded(Canonicalize(v));
  }

  lemma LeafTextFits(v: Sparse, n: nat)
    requires !v.Arr? && !v.Obj? && Tame(v, n)
    ensures Utf8.ByteLength(Canonicalize(v)) <= Bound(n)
  {
    BoundsGrow(n);
    LeafTextIsBounded(v);
  }

  /** The canonical text of a tame value is bounded by its levels. */
  lemma {:induction false} TameTextsAreBounded(v: Sparse, n: nat)
    requires Tame(v, n)
    ensures Utf8.ByteLength(Canonicalize(v)) <= Bound(n)
    decreases v, 1
  {
    if v.Arr? || v.Obj? {
      NestedTextIsBounded(v, n - 1, Bound(n));
    } else {
      LeafTextFits(v, n);
    }
  }

  lemma {:induction false} NestedTextIsBounded(v: Sparse, n: nat, bound: nat)
    requires Tame(v, n + 1) && (v.Arr? || v.Obj?) && bound == Bound(n + 1)
    ensures Utf8.ByteLength(Canonicalize(v)) <= bound
    decreases v, 0
  {
    if v.Arr? {
      ArrayTextIsBounded(v.items, n);
    } else {
      ObjectTextIsBounded(v.members, n);
    }
  }

  lemma ArrayLength(items: seq<Sparse>, b: nat)
    requires forall i :: 0 <= i < |CanonicalizeItems(items)| ==> Utf8.ByteLength(CanonicalizeItems(items)[i]) <= b
    ensures Utf8.ByteLength(Canonicalize(Arr(items))) <= |CanonicalizeItems(items)| * (b + 1) + 2
  {
    var ts := CanonicalizeItems(items);
    JoinedItemsLength(ts, b);
    EnclosedLength(OPEN_BRACKET, J.JoinItems(ts), CLOSE_BRACKET);
  }

  lemma {:induction false} ArrayTextIsBounded(items: seq<Sparse>, n: nat)
    requires |items| <= MAX_ARRAY_ITEMS + 1 && TameItems(items, n)
    ensures Utf8.ByteLength(Canonicalize(Arr(items))) <= Bound(n + 1)
    decreases items, 2
  {
    ItemTextsAreBounded(items, n);
    ArrayLength(items, Bound(n));
    ItemsFitTheBound(n, |items|);
  }

  lemma ItemsFitTheBound(n: nat, count: nat)
    requires count <= MAX_ARRAY_ITEMS + 1
    ensures count * (Bound(n) + 1) + 2 <= Bound(n + 1)
  {
    Scaled(count, MAX_OBJECT_KEYS + 1, Bound(n) + 1);
    assert PairBound(MAX_KEY_BYTES, Bound(n)) >= Bound(n);
  }

  lemma {:induction false} ItemTextsAreBounded(items: seq<Sparse>, n: nat)
    requires TameItems(items, n)
    ensures |CanonicalizeItems(items)| == |items|
    ensures forall i :: 0 <= i < |items| ==> Utf8.ByteLength(CanonicalizeItems(items)[i]) <= Bound(n)
    decreases items, 1
  {
    if items != [] {
      TameTextsAreBounded(items[0], n);
      assert TameItems(items[1..], n);
      ItemTextsAreBounded(items[1..], n);
    }
  }

  lemma ObjectLength(ms: seq<Keyed<Sparse>>, k: nat, b: nat)
    requires ShortMembers(CanonicalizeMembers(ms), k, b)
    ensures Utf8.ByteLength(Canonicalize(Obj(ms))) <= |CanonicalizeMembers(ms)| * (PairBound(k, b) + 1) + 2
  {
    var ts := CanonicalizeMembers(ms);
    SortKeepsShort(ts, k, b);
    MembersLength(Sort(ts), k, b);
    EnclosedLength(OPEN_BRACE, J.JoinMembers(Sort(ts)), CLOSE_BRACE);
  }

  lemma {:induction false} ObjectTextIsBounded(ms: seq<Keyed<Sparse>>, n: nat)
    requires |ms| <= MAX_OBJECT_KEYS + 1 && TameMembers(ms, n)
    ensures Utf8.ByteLength(Canonicalize(Obj(ms))) <= Bound(n + 1)
    decreases ms, 2
  {
    MemberTextsAreBounded(ms, n);
    ObjectLength(ms, MAX_KEY_BYTES, Bound(n));
    Scaled(|ms|, MAX_OBJECT_KEYS + 1, PairBound(MAX_KEY_BYTES, Bound(n)) + 1);
  }

  lemma {:induction false} MemberTextsAreBounded(ms: seq<Keyed<Sparse>>, n: nat)
    requires TameMembers(ms, n)
    ensures |CanonicalizeMembers(ms)| == |ms|
    ensures ShortMembers(CanonicalizeMembers(ms), MAX_KEY_BYTES, Bound(n))
    decreases ms, 1
  {
    if ms != [] {
      TameTextsAreBounded(ms[0].value, n);
      assert TameMembers(ms[1..], n);
      MemberTextsAreBounded(ms[1..], n);
    }
  }

  // ----- the payload limit -----

  lemma SevenLevelsAreBounded()
    ensures Bound(7) == 67915924780581932
  {
    assert Bound(0) == 12290;
    assert Bound(1) == 898952;
    assert Bound(2) == 58531982;
    assert Bound(3) == 3804678932;
    assert Bound(4) == 247304230682;
    assert Bound(5) == 16074775094432;
    assert Bound(6) == 1044860381238182;
  }

  lemma SanitizedTextIsBounded(rules: Rules, heap: Heap, v: Value)
    ensures Utf8.ByteLength(Canonicalize(Sanitize(rules, heap, v, 0, {}))) <= 67915924780581932
  {
    var sanitized := SanitizedIsTame(rules, heap, v, 0, {}, 7);
    TameTextsAreBounded(sanitized, 7);
    SevenLevelsAreBounded();
  }

  lemma PowerOf21()
    ensures Power(21) == 1000000000000000000000
  {
    assert Power(10) == 10000000000;
    assert Power(20) == 100000000000000000000;
  }

  lemma DigestedTexts(bytes: nat, digest: Digest)
    requires bytes <= 67915924780581932
    ensures Utf8.ByteLength(Canonicalize(Str(Ascii("payload-limit")))) <= 1154
    ensures Utf8.ByteLength(Canonicalize(Number(Numbers.OfNat(bytes)))) <= 1154
    ensures Utf8.ByteLength(Canonicalize(Str(digest))) <= 1154
  {
    AsciiIsShort("payload-limit");
    QuotedLength(Ascii("payload-limit"));
    PowerOf21();
    NaturalsAreShort(bytes, 21);
    Utf8.LengthIsBounded(Canonicalize(Number(Numbers.OfNat(bytes))));
    Utf8.LengthIsBounded(digest);
    QuotedLength(digest);
  }

  lemma DigestedKeys()
    ensures Utf8.ByteLength(Ascii("_audit_omitted")) <= 48
    ensures Utf8.ByteLength(Ascii("sanitized_bytes")) <= 48
    ensures Utf8.ByteLength(Ascii("sanitized_sha256")) <= 48
  {
    AsciiIsShort("_audit_omitted");
    AsciiIsShort("sanitized_bytes");
    AsciiIsShort("sanitized_sha256");
  }

  lemma DigestedMembers(bytes: nat, digest: Digest)
    ensures CanonicalizeMembers(Digested(bytes, digest).members) ==
      [Keyed(Ascii("_audit_omitted"), Canonicalize(Str(Ascii("payload-limit")))),
       Keyed(Ascii("sanitized_bytes"), Canonicalize(Number(Numbers.OfNat(bytes)))),
       Keyed(Ascii("sanitized_sha256"), Canonicalize(Str(digest)))]
  {
    var ms := Digested(bytes, digest).members;
    assert ms[1..][1..] == ms[2..] && ms[2..][1..] == [];
    assert CanonicalizeMembers(ms[2..]) == [Keyed(ms[2].key, Canonicalize(ms[2].value))];
    assert CanonicalizeMembers(ms[1..]) == [Keyed(ms[1].key, Canonicalize(ms[1].value))] + CanonicalizeMembers(ms[2..]);
  }

  lemma ThreeShortMembers(ms: seq<Keyed<Text>>, a: Keyed<Text>, b: Keyed<Text>, c: Keyed<Text>, keyBytes: nat, valueBytes: nat)
    requires ms == [a, b, c]
    requires Utf8.ByteLength(a.key) <= keyBytes && Utf8.ByteLength(b.key) <= keyBytes && Utf8.ByteLength(c.key) <= keyBytes
    requires Utf8.ByteLength(a.value) <= valueBytes && Utf8.ByteLength(b.value) <= valueBytes && Utf8.ByteLength(c.value) <= valueBytes
    ensures ShortMembers(ms, keyBytes, valueBytes) && |ms| == 3
  {
  }

  lemma DigestedMembersAreShort(bytes: nat, digest: Digest)
    requires bytes <= 67915924780581932
    ensures ShortMembers(CanonicalizeMembers(Digested(bytes, digest).members), 48, 1154)
    ensures |CanonicalizeMembers(Digested(bytes, digest).members)| == 3
  {
    DigestedMembers(bytes, digest);
    DigestedTexts(bytes, digest);
    DigestedKeys();
    ThreeShortMembers(CanonicalizeMembers(Digested(bytes, digest).members),
                      Keyed(Ascii("_audit_omitted"), Canonicalize(Str(Ascii("payload-limit")))),
                      Keyed(Ascii("sanitized_bytes"), Canonicalize(Number(Numbers.OfNat(bytes)))),
                      Keyed(Ascii("sanitized_sha256"), Canonicalize(Str(digest))), 48, 1154);
  }

  lemma DigestedIsSmall(bytes: nat, digest: Digest)
    requires bytes <= 67915924780581932
    ensures Utf8.ByteLength(Canonicalize(Digested(bytes, digest))) <= MAX_PAYLOAD_BYTES
  {
    DigestedMembersAreShort(bytes, digest);
    ObjectLength(Digested(bytes, digest).members, 48, 1154);
    assert PairBound(48, 1154) == 1445;
  }

  /** Whatever the graph, the audited value has a canonical text of at most 16,384 bytes. */
  lemma AuditValuesAreSmall(sha: Hash, rules: Rules, heap: Heap, v: Value)
    ensures Utf8.ByteLength(Canonicalize(SanitizeAuditValue(sha, rules, heap, v))) <= MAX_PAYLOAD_BYTES
  {
    var canonical := Canonicalize(Sanitize(rules, heap, v, 0, {}));
    SanitizedTextIsBounded(rules, heap, v);
    DigestedIsSmall(Utf8.ByteLength(canonical), sha(canonical));
  }
}
