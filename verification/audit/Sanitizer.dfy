/**
 The bounded sanitizer of audit values (packages/governance/src/auditRedaction.ts): it walks an object graph that may
 be cyclic, remembers the objects on the active path, and fills results in loops.
 */
module Sanitizer {
  import opened Prelude
  import opened Texts
  import opened KeyedLists
  import opened SparseJson
  import opened Hashing
  import Numbers
  import Utf8

  const MAX_DEPTH: nat := 6
  const MAX_OBJECT_KEYS: nat := 64
  const MAX_ARRAY_ITEMS: nat := 64
  const MAX_STRING_BYTES: nat := 2048
  const MAX_KEY_BYTES: nat := 256
  const MAX_PAYLOAD_BYTES: nat := 16384

  /** A string of the engine: its length is limited. */
  type JsText = t: Text | |t| <= 536870888

  /** A finite double: its shortest decimal and its text are short. */
  type JsNumber = n: Numbers.Num | |Numbers.PrintNumber(n)| <= 25 witness Numbers.Zero

  type Id = nat

  /** What `typeof` answers for a value that is no data. */
  datatype Kind = Undefined | BigInt | Symbol | Function

  datatype Value =
    | VNull
    | VBool(b: bool)
    | VNumber(n: JsNumber)
    | VNonFinite
    | VText(t: JsText)
    | VOther(kind: Kind)
    | VObject(id: Id)

  datatype Entry = Entry(key: JsText, value: Value)

  /** The places of an array; None is a hole of a sparse one. */
  type Items = s: seq<Option<Value>> | |s| < 0x1_0000_0000

  type Entries = s: seq<Entry> | |s| < 0x1_0000_0000

  datatype Node = ArrayNode(items: Items) | ObjectNode(entries: Entries)

  /** The objects a value may lead to. */
  type Heap = Id -> Node

  /** What the source leaves to regular expressions and the locale. */
  datatype Rules = Rules(clean: JsText -> JsText, sensitive: JsText -> bool, before: (JsText, JsText) -> bool)

  function Omitted(what: Text): Text {
    Ascii("[OMITTED:") + what + Ascii("]")
  }

  function KindText(k: Kind): Text {
    match k
    case Undefined => Ascii("undefined")
    case BigInt => Ascii("bigint")
    case Symbol => Ascii("symbol")
    case Function => Ascii("function")
  }

  function OversizedText(bytes: nat): Text {
    Ascii("[OMITTED:oversized-text:") + Numbers.PrintNumber(Numbers.OfNat(bytes)) + Ascii("-bytes]")
  }

  /** `redactAuditText`. */
  function RedactText(rules: Rules, t: JsText, maxBytes: nat): Text {
    var redacted := rules.clean(t);
    var bytes := Utf8.ByteLength(redacted);
    if bytes > maxBytes then OversizedText(bytes) else redacted
  }

  const REDACTED: Text := Ascii("[REDACTED]")

  predicate Forbidden(key: Text) {
    key == Ascii("__proto__") || key == Ascii("constructor") || key == Ascii("prototype")
  }

  /** Assignment to a property: replaces its value or adds it at the end. */
  function Put(ms: seq<Keyed<Sparse>>, key: Text, value: Sparse): (r: seq<Keyed<Sparse>>) {
    if ms == [] then [Keyed(key, value)]
    else if ms[0].key == key then [Keyed(key, value)] + ms[1..]
    else [ms[0]] + Put(ms[1..], key, value)
  }

  // ----- the order of the entries -----

  function InsertEntry(rules: Rules, e: Entry, es: seq<Entry>): (r: seq<Entry>)
    ensures |r| == |es| + 1
  {
    if es == [] || rules.before(e.key, es[0].key) then [e] + es else [es[0]] + InsertEntry(rules, e, es[1..])
  }

  /** The entries sorted by key; equal keys keep their order. */
  function SortEntries(rules: Rules, es: seq<Entry>): (r: seq<Entry>)
    ensures |r| == |es|
  {
    if es == [] then [] else InsertEntry(rules, es[|es| - 1], SortEntries(rules, es[..|es| - 1]))
  }

  function Front<T>(s: seq<T>, n: nat): (r: seq<T>)
    ensures |r| <= n && |r| <= |s| && r == s[..|r|]
  {
    if |s| <= n then s else s[..n]
  }

  // ----- the specification -----

  function Sanitize(rules: Rules, heap: Heap, value: Value, depth: nat, path: set<Id>): Sparse
    decreases Max(0, MAX_DEPTH - depth), 0
  {
    match value
    case VNull => Null
    case VBool(b) => Bool(b)
    case VText(t) => Str(RedactText(rules, t, MAX_STRING_BYTES))
    case VNumber(n) => Number(n)
    case VNonFinite => Str(Omitted(Ascii("non-finite-number")))
    case VOther(kind) => Str(Omitted(KindText(kind)))
    case VObject(id) =>
      if depth >= MAX_DEPTH then Str(Omitted(Ascii("depth-limit")))
      else if id in path then Str(Omitted(Ascii("cyclic-reference")))
      else SanitizeNode(rules, heap, heap(id), depth + 1, path + {id})
  }

  /** What is made of an object whose contents are at a depth, with the object on the path. */
  function SanitizeNode(rules: Rules, heap: Heap, node: Node, depth: nat, path: set<Id>): Sparse
    decreases Max(0, MAX_DEPTH - depth), 100
  {
    match node
    case ArrayNode(items) =>
      Arr(SanitizeItems(rules, heap, Front(items, MAX_ARRAY_ITEMS), depth, path) + OmittedItems(|items|))
    case ObjectNode(entries) =>
      ObjectOf(SanitizeEntries(rules, heap, Front(SortEntries(rules, entries), MAX_OBJECT_KEYS), depth, path), |entries|)
  }

  function SanitizeItems(rules: Rules, heap: Heap, items: seq<Option<Value>>, depth: nat, path: set<Id>): (r: seq<Sparse>)
    ensures |r| == |items|
    decreases Max(0, MAX_DEPTH - depth), 1 + |items|
  {
    if items == [] then []
    else
      var last := match items[|items| - 1] { case None => Hole case Some(v) => Sanitize(rules, heap, v, depth, path) };
      SanitizeItems(rules, heap, items[..|items| - 1], depth, path) + [last]
  }

  /** What stands in for the items that are left out. */
  function OmittedItems(total: nat): (r: seq<Sparse>)
    ensures |r| <= 1
  {
    if total > MAX_ARRAY_ITEMS then
      [Obj([Keyed(Ascii("_audit_omitted_items"), Number(Numbers.OfNat(total - MAX_ARRAY_ITEMS)))])]
    else []
  }

  function SanitizeEntries(rules: Rules, heap: Heap, entries: seq<Entry>, depth: nat, path: set<Id>): (r: seq<Keyed<Sparse>>)
    decreases Max(0, MAX_DEPTH - depth), 2 + |entries|
  {
    if entries == [] then []
    else
      var result := SanitizeEntries(rules, heap, entries[..|entries| - 1], depth, path);
      var e := entries[|entries| - 1];
      if Skipped(rules, e) then result
      else Put(result, RedactText(rules, e.key, MAX_KEY_BYTES), EntryValue(rules, heap, e, depth, path))
  }

  predicate Skipped(rules: Rules, e: Entry) {
    Forbidden(e.key) || Forbidden(RedactText(rules, e.key, MAX_KEY_BYTES))
  }

  function EntryValue(rules: Rules, heap: Heap, e: Entry, depth: nat, path: set<Id>): Sparse
    decreases Max(0, MAX_DEPTH - depth), 1
  {
    if rules.sensitive(e.key) then Str(REDACTED) else Sanitize(rules, heap, e.value, depth, path)
  }

  function ObjectOf(ms: seq<Keyed<Sparse>>, total: nat): Sparse { Obj(WithOmittedKeys(ms, total)) }

  function WithOmittedKeys(ms: seq<Keyed<Sparse>>, total: nat): seq<Keyed<Sparse>> {
    if total > MAX_OBJECT_KEYS then Put(ms, Ascii("_audit_omitted_keys"), Number(Numbers.OfNat(total - MAX_OBJECT_KEYS))) else ms
  }

  function Min(a: nat, b: nat): nat { if a <= b then a else b }

  function Max(a: int, b: int): nat
    requires a >= 0 || b >= 0
  {
    if a >= b then a else b
  }

  /** `sanitizeAuditValue`: the sanitized value, or the size and digest of its text when that is too long. */
  function SanitizeAuditValue(sha: Hash, rules: Rules, heap: Heap, value: Value): Sparse {
    var sanitized := Sanitize(rules, heap, value, 0, {});
    var canonical := Canonicalize(sanitized);
    var bytes := Utf8.ByteLength(canonical);
    if bytes <= MAX_PAYLOAD_BYTES then sanitized else Digested(bytes, sha(canonical))
  }

  function Digested(bytes: nat, digest: Digest): Sparse {
    Obj([Keyed(Ascii("_audit_omitted"), Str(Ascii("payload-limit"))),
         Keyed(Ascii("sanitized_bytes"), Number(Numbers.OfNat(bytes))),
         Keyed(Ascii("sanitized_sha256"), Str(digest))])
  }

  // ----- the loops of the source -----

  class SanitizeContext {
    var activePath: set<Id>

    constructor ()
      ensures activePath == {}
    {
      activePath := {};
    }
  }

  /** `sanitizeValue`: adds the object to the active path, works through its items or entries, and takes it off again. */
  method SanitizeValue(rules: Rules, heap: Heap, value: Value, depth: nat, context: SanitizeContext) returns (r: Sparse)
    modifies context
    ensures r == Sanitize(rules, heap, value, depth, old(context.activePath))
    ensures context.activePath == old(context.activePath)
    decreases Max(0, MAX_DEPTH - depth), 2
  {
    match value {
      case VNull => r := Null;
      case VBool(b) => r := Bool(b);
      case VText(t) => r := Str(RedactText(rules, t, MAX_STRING_BYTES));
      case VNumber(n) => r := Number(n);
      case VNonFinite => r := Str(Omitted(Ascii("non-finite-number")));
      case VOther(kind) => r := Str(Omitted(KindText(kind)));
      case VObject(id) =>
        if depth >= MAX_DEPTH {
          return Str(Omitted(Ascii("depth-limit")));
        }
        if id in context.activePath {
          return Str(Omitted(Ascii("cyclic-reference")));
        }
        context.activePath := context.activePath + {id};
        match heap(id) {
          case ArrayNode(items) => r := SanitizeArray(rules, heap, items, depth, context);
          case ObjectNode(entries) => r := SanitizeObject(rules, heap, entries, depth, context);
        }
        context.activePath := context.activePath - {id};
        assert context.activePath == old(context.activePath);
    }
  }

  method SanitizeArray(rules: Rules, heap: Heap, items: Items, depth: nat, context: SanitizeContext) returns (r: Sparse)
    requires depth < MAX_DEPTH
    modifies context
    ensures r == SanitizeNode(rules, heap, ArrayNode(items), depth + 1, old(context.activePath))
    ensures context.activePath == old(context.activePath)
    decreases Max(0, MAX_DEPTH - depth), 1
  {
    r := SanitizeRetained(rules, heap, Front(items, MAX_ARRAY_ITEMS), |items|, depth + 1, context);
  }

  method SanitizeRetained(rules: Rules, heap: Heap, front: seq<Option<Value>>, total: nat, depth: nat, context: SanitizeContext) returns (r: Sparse)
    requires depth <= MAX_DEPTH && |front| == Min(total, MAX_ARRAY_ITEMS)
    modifies context
    ensures r == Arr(SanitizeItems(rules, heap, front, depth, old(context.activePath)) + OmittedItems(total))
    ensures context.activePath == old(context.activePath)
    decreases Max(0, MAX_DEPTH - depth), 3
  {
    var retained: seq<Sparse> := [];
    for i := 0 to |front|
      invariant retained == SanitizeItems(rules, heap, front[..i], depth, old(context.activePath))
      invariant context.activePath == old(context.activePath)
    {
      assert front[..i + 1][..i] == front[..i];
      match front[i] {
        case None => retained := retained + [Hole];
        case Some(value) =>
          var item := SanitizeValue(rules, heap, value, depth, context);
          retained := retained + [item];
      }
    }
    assert front[..|front|] == front;
    if total > |retained| {
      retained := retained + [Obj([Keyed(Ascii("_audit_omitted_items"), Number(Numbers.OfNat(total - |retained|)))])];
    }
    r := Arr(retained);
  }

  method SanitizeObject(rules: Rules, heap: Heap, entries: Entries, depth: nat, context: SanitizeContext) returns (r: Sparse)
    requires depth < MAX_DEPTH
    modifies context
    ensures r == SanitizeNode(rules, heap, ObjectNode(entries), depth + 1, old(context.activePath))
    ensures context.activePath == old(context.activePath)
    decreases Max(0, MAX_DEPTH - depth), 1
  {
    ghost var expected := SanitizeNode(rules, heap, ObjectNode(entries), depth + 1, context.activePath);
    r := SanitizeSorted(rules, heap, Front(SortEntries(rules, entries), MAX_OBJECT_KEYS), |entries|, depth + 1, context);
    assert r == expected;
  }

  method SanitizeSorted(rules: Rules, heap: Heap, sorted: seq<Entry>, total: nat, depth: nat, context: SanitizeContext) returns (r: Sparse)
    requires depth <= MAX_DEPTH
    modifies context
    ensures r == ObjectOf(SanitizeEntries(rules, heap, sorted, depth, old(context.activePath)), total)
    ensures context.activePath == old(context.activePath)
    decreases Max(0, MAX_DEPTH - depth), 3
  {
    var result: seq<Keyed<Sparse>> := [];
    for i := 0 to |sorted|
      invariant result == SanitizeEntries(rules, heap, sorted[..i], depth, old(context.activePath))
      invariant context.activePath == old(context.activePath)
    {
      var e := sorted[i];
      assert sorted[..i + 1][..i] == sorted[..i];
      if !Skipped(rules, e) {
        var v := Str(REDACTED);
        if !rules.sensitive(e.key) {
          v := SanitizeValue(rules, heap, e.value, depth, context);
        }
        assert v == EntryValue(rules, heap, e, depth, old(context.activePath));
        result := Put(result, RedactText(rules, e.key, MAX_KEY_BYTES), v);
      }
    }
    assert sorted[..|sorted|] == sorted;
    r := ObjectOf(result, total);
  }
}
