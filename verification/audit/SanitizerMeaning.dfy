/**
 What shows in a sanitized value: a graph within the limits that needs no redaction as the JSON value it unfolds to, and
 of longer arrays and objects the first 64 places and keys, with the number of those left out.
 */
module SanitizerMeaning {
  import opened Prelude
  import opened Texts
  import opened KeyedLists
  import opened SparseJson
  import opened Sanitizer
  import opened Hashing
  import SanitizerLaws
  import Numbers
  import Utf8

  // ----- graphs that need no sanitizing -----

  predicate DistinctKeys(es: seq<Entry>) {
    forall i, j :: 0 <= i < j < |es| ==> es[i].key != es[j].key
  }

  predicate TextFits(rules: Rules, t: JsText, maxBytes: nat) {
    rules.clean(t) == t && Utf8.ByteLength(t) <= maxBytes
  }

  predicate KeyFits(rules: Rules, key: JsText) {
    TextFits(rules, key, 256)
    && key != Ascii("__proto__") && key != Ascii("constructor") && key != Ascii("prototype")
  }

  /**
   A graph within the limits: at most six objects inside each other and none inside itself, at most 64 places and keys,
   no hole, data only, texts that redaction leaves alone, and keys that are neither sensitive nor forbidden.
   */
  ghost predicate Fits(rules: Rules, heap: Heap, v: Value, depth: nat, path: set<Id>)
    decreases Max(0, 6 - depth), 1
  {
    match v
    case VNull => true
    case VBool(_) => true
    case VNumber(_) => true
    case VText(t) => TextFits(rules, t, 2048)
    case VObject(id) => depth < 6 && id !in path && NodeFits(rules, heap, heap(id), depth + 1, path + {id})
    case _ => false
  }

  ghost predicate NodeFits(rules: Rules, heap: Heap, node: Node, depth: nat, path: set<Id>)
    decreases Max(0, 6 - depth), 2
  {
    match node
    case ArrayNode(items) =>
      |items| <= 64 && forall i :: 0 <= i < |items| ==> items[i].Some? && Fits(rules, heap, items[i].value, depth, path)
    case ObjectNode(es) =>
      && |es| <= 64 && DistinctKeys(es)
      && forall i :: 0 <= i < |es| ==>
           KeyFits(rules, es[i].key) && !rules.sensitive(es[i].key) && Fits(rules, heap, es[i].value, depth, path)
  }

  /** A value shows what a graph unfolds to: every place, and every entry under its key in whatever order. */
  ghost predicate Shows(heap: Heap, v: Value, r: Sparse)
    decreases r, 1
  {
    match v
    case VNull => r == Null
    case VBool(b) => r == Bool(b)
    case VNumber(n) => r == Number(n)
    case VText(t) => r == Str(t)
    case VObject(id) => ShowsNode(heap, heap(id), r)
    case _ => false
  }

  ghost predicate ShowsNode(heap: Heap, node: Node, r: Sparse)
    decreases r, 0
  {
    match node
    case ArrayNode(items) =>
      r.Arr? && |r.items| == |items| && forall i :: 0 <= i < |items| ==> items[i].Some? && Shows(heap, items[i].value, r.items[i])
    case ObjectNode(es) =>
      r.Obj? && |r.members| == |es|
      && forall i :: 0 <= i < |es| ==> exists j :: 0 <= j < |r.members| && r.members[j].key == es[i].key && Shows(heap, es[i].value, r.members[j].value)
  }

  // ----- entries -----

  lemma {:induction false} InsertedEntries(rules: Rules, e: Entry, es: seq<Entry>)
    ensures multiset(InsertEntry(rules, e, es)) == multiset([e]) + multiset(es)
  {
    if es != [] && !rules.before(e.key, es[0].key) {
      InsertedEntries(rules, e, es[1..]);
      assert es == [es[0]] + es[1..];
    }
  }

  lemma {:induction false} SortedEntries(rules: Rules, es: seq<Entry>)
    ensures multiset(SortEntries(rules, es)) == multiset(es)
  {
    if es != [] {
      var front, last := es[..|es| - 1], es[|es| - 1];
      SortedEntries(rules, front);
      InsertedEntries(rules, last, SortEntries(rules, front));
      assert es == front + [last];
    }
  }

  lemma DistinctWithoutSecond(e: Entry, es: seq<Entry>)
    requires DistinctKeys([e] + es) && es != []
    ensures DistinctKeys([e] + es[1..])
  {
    forall i, j | 0 <= i < j < |[e] + es[1..]| ensures ([e] + es[1..])[i].key != ([e] + es[1..])[j].key {
      assert ([e] + es[1..])[j] == ([e] + es)[j + 1];
      assert ([e] + es[1..])[i] == ([e] + es)[if i == 0 then 0 else i + 1];
    }
  }

  lemma DistinctBehind(first: Entry, tail: seq<Entry>, e: Entry, es: seq<Entry>)
    requires DistinctKeys([e] + es) && es != [] && first == es[0] && DistinctKeys(tail)
    requires forall i :: 0 <= i < |tail| ==> tail[i] in [e] + es[1..]
    ensures DistinctKeys([first] + tail) && forall i :: 0 <= i < |tail| ==> tail[i] in [e] + es
  {
    forall i | 0 <= i < |tail| ensures tail[i].key != first.key && tail[i] in [e] + es {
      var k :| 0 <= k < |[e] + es[1..]| && tail[i] == ([e] + es[1..])[k];
      assert tail[i] == ([e] + es)[if k == 0 then 0 else k + 1];
      assert first == ([e] + es)[1];
    }
  }

  /** Inserting an entry with a key of its own keeps the keys distinct, and adds nothing else. */
  lemma {:induction false} InsertKeepsDistinct(rules: Rules, e: Entry, es: seq<Entry>)
    requires DistinctKeys([e] + es)
    ensures DistinctKeys(InsertEntry(rules, e, es))
    ensures forall i :: 0 <= i < |es| + 1 ==> InsertEntry(rules, e, es)[i] in [e] + es
  {
    if es != [] && !rules.before(e.key, es[0].key) {
      DistinctWithoutSecond(e, es);
      InsertKeepsDistinct(rules, e, es[1..]);
      DistinctBehind(es[0], InsertEntry(rules, e, es[1..]), e, es);
    }
  }

  lemma DistinctSnoc(sorted: seq<Entry>, front: seq<Entry>, last: Entry)
    requires DistinctKeys(sorted) && DistinctKeys(front + [last]) && multiset(sorted) == multiset(front)
    ensures DistinctKeys([last] + sorted)
  {
    forall i | 0 <= i < |sorted| ensures sorted[i].key != last.key {
      assert sorted[i] in multiset(front);
      var k :| 0 <= k < |front| && front[k] == sorted[i];
      assert (front + [last])[k] == front[k] && (front + [last])[|front|] == last;
    }
  }

  lemma {:induction false} SortKeepsDistinct(rules: Rules, es: seq<Entry>)
    requires DistinctKeys(es)
    ensures DistinctKeys(SortEntries(rules, es))
  {
    if es != [] {
      var front, last := es[..|es| - 1], es[|es| - 1];
      SortKeepsDistinct(rules, front);
      SortedEntries(rules, front);
      assert es == front + [last];
      DistinctSnoc(SortEntries(rules, front), front, last);
      InsertKeepsDistinct(rules, last, SortEntries(rules, front));
    }
  }

  lemma {:induction false} PutNew(ms: seq<Keyed<Sparse>>, key: Text, v: Sparse)
    requires forall i :: 0 <= i < |ms| ==> ms[i].key != key
    ensures Put(ms, key, v) == ms + [Keyed(key, v)]
  {
    if ms != [] { PutNew(ms[1..], key, v); }
  }

  /** What an entry shows under its key. */
  function Shown(rules: Rules, heap: Heap, e: Entry, depth: nat, path: set<Id>): Sparse {
    if rules.sensitive(e.key) then Str(Ascii("[REDACTED]")) else Sanitize(rules, heap, e.value, depth, path)
  }

  /** The members show the entries one by one. */
  ghost predicate Keeps(rules: Rules, heap: Heap, es: seq<Entry>, depth: nat, path: set<Id>, ms: seq<Keyed<Sparse>>) {
    |ms| == |es| && forall i :: 0 <= i < |es| ==> ms[i] == Keyed(es[i].key, Shown(rules, heap, es[i], depth, path))
  }

  lemma OneMoreKept(rules: Rules, heap: Heap, front: seq<Entry>, e: Entry, depth: nat, path: set<Id>, ms: seq<Keyed<Sparse>>)
    requires Keeps(rules, heap, front, depth, path, ms) && DistinctKeys(front + [e])
    ensures Put(ms, e.key, Shown(rules, heap, e, depth, path)) == ms + [Keyed(e.key, Shown(rules, heap, e, depth, path))]
    ensures Keeps(rules, heap, front + [e], depth, path, ms + [Keyed(e.key, Shown(rules, heap, e, depth, path))])
  {
    forall i | 0 <= i < |ms| ensures ms[i].key != e.key {
      assert (front + [e])[i] == front[i] && (front + [e])[|front|] == e;
    }
    PutNew(ms, e.key, Shown(rules, heap, e, depth, path));
  }

  lemma FittingKeysAreKept(rules: Rules, heap: Heap, front: seq<Entry>, e: Entry, depth: nat, path: set<Id>)
    requires KeyFits(rules, e.key)
    ensures SanitizeEntries(rules, heap, front + [e], depth, path)
      == Put(SanitizeEntries(rules, heap, front, depth, path), e.key, Shown(rules, heap, e, depth, path))
  {
    assert (front + [e])[..|front|] == front;
  }

  /** Entries whose keys fit are kept one by one. */
  lemma {:induction false} KeptEntries(rules: Rules, heap: Heap, es: seq<Entry>, depth: nat, path: set<Id>)
    requires DistinctKeys(es) && forall i :: 0 <= i < |es| ==> KeyFits(rules, es[i].key)
    ensures Keeps(rules, heap, es, depth, path, SanitizeEntries(rules, heap, es, depth, path))
  {
    if es != [] {
      var front, e := es[..|es| - 1], es[|es| - 1];
      assert es == front + [e];
      KeptEntries(rules, heap, front, depth, path);
      FittingKeysAreKept(rules, heap, front, e, depth, path);
      OneMoreKept(rules, heap, front, e, depth, path, SanitizeEntries(rules, heap, front, depth, path));
    }
  }

  // ----- what is kept -----

  /** A graph within the limits that needs no redaction is sanitized to the JSON value it unfolds to. */
  lemma {:induction false} FittingGraphsAreShown(rules: Rules, heap: Heap, v: Value, depth: nat, path: set<Id>)
    requires Fits(rules, heap, v, depth, path)
    ensures Shows(heap, v, Sanitize(rules, heap, v, depth, path))
    decreases Max(0, 6 - depth), 1
  {
    if v.VObject? {
      FittingNodesAreShown(rules, heap, heap(v.id), depth + 1, path + {v.id});
    }
  }

  lemma {:induction false} FittingNodesAreShown(rules: Rules, heap: Heap, node: Node, depth: nat, path: set<Id>)
    requires NodeFits(rules, heap, node, depth, path)
    ensures ShowsNode(heap, node, SanitizeNode(rules, heap, node, depth, path))
    decreases Max(0, 6 - depth), 2
  {
    match node {
      case ArrayNode(items) =>
        forall i | 0 <= i < |items|
          ensures items[i].Some? && Shows(heap, items[i].value, SanitizeItems(rules, heap, items, depth, path)[i])
        {
          SanitizerLaws.SanitizedItemAt(rules, heap, items, depth, path, i);
          FittingGraphsAreShown(rules, heap, items[i].value, depth, path);
        }
      case ObjectNode(es) =>
        var sorted := SortEntries(rules, es);
        var ms := SanitizeEntries(rules, heap, sorted, depth, path);
        FittingEntriesAreKept(rules, heap, es, depth, path);
        forall i | 0 <= i < |es|
          ensures exists j :: 0 <= j < |ms| && ms[j].key == es[i].key && Shows(heap, es[i].value, ms[j].value)
        {
          var j := PlaceOf(rules, es, i);
          FittingGraphsAreShown(rules, heap, es[i].value, depth, path);
          assert ms[j].key == es[i].key && Shows(heap, es[i].value, ms[j].value);
        }
    }
  }

  lemma PlaceOf(rules: Rules, es: seq<Entry>, i: nat) returns (j: nat)
    requires i < |es|
    ensures j < |es| && SortEntries(rules, es)[j] == es[i]
  {
    var sorted := SortEntries(rules, es);
    SortedEntries(rules, es);
    assert es[i] in multiset(sorted);
    j :| j < |sorted| && sorted[j] == es[i];
  }

  lemma FittingEntriesAreKept(rules: Rules, heap: Heap, es: seq<Entry>, depth: nat, path: set<Id>)
    requires DistinctKeys(es) && forall i :: 0 <= i < |es| ==> KeyFits(rules, es[i].key)
    ensures var sorted := SortEntries(rules, es); var ms := SanitizeEntries(rules, heap, sorted, depth, path);
      |ms| == |es| && forall i :: 0 <= i < |es| ==> ms[i] == Keyed(sorted[i].key, Shown(rules, heap, sorted[i], depth, path))
  {
    var sorted := SortEntries(rules, es);
    SortedEntries(rules, es);
    SortKeepsDistinct(rules, es);
    forall i | 0 <= i < |sorted| ensures KeyFits(rules, sorted[i].key) {
      assert sorted[i] in multiset(es);
      var k :| 0 <= k < |es| && es[k] == sorted[i];
    }
    KeptEntries(rules, heap, sorted, depth, path);
  }

  /** What is audited of a value: itself, or the size and the digest of its text. */
  predicate IsAuditOf(sha: Hash, shown: Sparse, r: Sparse) {
    var text := Canonicalize(shown);
    if Utf8.ByteLength(text) <= 16384 then r == shown
    else
      r == Obj([Keyed(Ascii("_audit_omitted"), Str(Ascii("payload-limit"))),
                Keyed(Ascii("sanitized_bytes"), Number(Numbers.OfNat(Utf8.ByteLength(text)))),
                Keyed(Ascii("sanitized_sha256"), Str(sha(text)))])
  }

  /**
   The audited value of such a graph is the JSON value it unfolds to, as long as the text of that has at most 16,384
   bytes, and otherwise the size and the digest of that text.
   */
  lemma FittingGraphsAreAudited(sha: Hash, rules: Rules, heap: Heap, v: Value)
    requires Fits(rules, heap, v, 0, {})
    ensures exists shown :: Shows(heap, v, shown) && IsAuditOf(sha, shown, SanitizeAuditValue(sha, rules, heap, v))
  {
    FittingGraphsAreShown(rules, heap, v, 0, {});
    assert IsAuditOf(sha, Sanitize(rules, heap, v, 0, {}), SanitizeAuditValue(sha, rules, heap, v));
  }

  // ----- what is cut -----

  /** An array shows its first 64 places, and after them how many more it has. */
  lemma ArraysAreCutAt64(rules: Rules, heap: Heap, items: Items, depth: nat, path: set<Id>)
    ensures var r := SanitizeNode(rules, heap, ArrayNode(items), depth, path);
      && r.Arr? && |r.items| == (if |items| <= 64 then |items| else 65)
      && (forall i :: 0 <= i < |items| && i < 64 ==>
            r.items[i] == match items[i] { case None => Hole case Some(v) => Sanitize(rules, heap, v, depth, path) })
      && (|items| > 64 ==> r.items[64] == Obj([Keyed(Ascii("_audit_omitted_items"), Number(Numbers.OfNat(|items| - 64)))]))
  {
    forall i | 0 <= i < |items| && i < 64
      ensures SanitizeItems(rules, heap, Front(items, MAX_ARRAY_ITEMS), depth, path)[i]
        == match items[i] { case None => Hole case Some(v) => Sanitize(rules, heap, v, depth, path) }
    {
      SanitizerLaws.SanitizedItemAt(rules, heap, Front(items, MAX_ARRAY_ITEMS), depth, path, i);
    }
  }

  /** A collation: a weak order of the keys. */
  ghost predicate Collates(before: (JsText, JsText) -> bool) {
    && (forall x: JsText, y: JsText :: before(x, y) ==> !before(y, x))
    && (forall x: JsText, y: JsText, z: JsText :: !before(y, x) && !before(z, y) ==> !before(z, x))
  }

  ghost predicate InOrder(rules: Rules, es: seq<Entry>) {
    forall i, j :: 0 <= i < j < |es| ==> !rules.before(es[j].key, es[i].key)
  }

  lemma {:induction false} InsertKeepsOrder(rules: Rules, e: Entry, es: seq<Entry>)
    requires Collates(rules.before) && InOrder(rules, es)
    ensures InOrder(rules, InsertEntry(rules, e, es))
    ensures forall i :: 0 <= i < |es| + 1 ==> InsertEntry(rules, e, es)[i] == e || InsertEntry(rules, e, es)[i] in es
  {
    if es != [] {
      if rules.before(e.key, es[0].key) {
        forall j | 0 <= j < |es| ensures !rules.before(es[j].key, e.key) {
          assert j == 0 || !rules.before(es[j].key, es[0].key);
        }
      } else {
        InsertKeepsOrder(rules, e, es[1..]);
        var tail := InsertEntry(rules, e, es[1..]);
        forall i | 0 <= i < |tail| ensures !rules.before(tail[i].key, es[0].key) {
          if tail[i] != e {
            var k :| 0 <= k < |es[1..]| && tail[i] == es[1..][k];
            assert tail[i] == es[k + 1];
          }
        }
      }
    }
  }

  lemma {:induction false} SortPutsInOrder(rules: Rules, es: seq<Entry>)
    requires Collates(rules.before)
    ensures InOrder(rules, SortEntries(rules, es))
  {
    if es != [] {
      SortPutsInOrder(rules, es[..|es| - 1]);
      InsertKeepsOrder(rules, es[|es| - 1], SortEntries(rules, es[..|es| - 1]));
    }
  }

  lemma FrontsAreDistinct(es: seq<Entry>, n: nat)
    requires DistinctKeys(es) && n <= |es|
    ensures DistinctKeys(es[..n])
  {
  }

  /**
   An object with more than 64 keys shows those that collate first and none besides, a mark in place of what stands under
   a sensitive one, and after them how many more it has.
   */
  lemma ObjectsAreCutAt64(rules: Rules, heap: Heap, es: Entries, depth: nat, path: set<Id>) returns (sorted: seq<Entry>)
    requires Collates(rules.before) && DistinctKeys(es) && |es| > 64 && OrdinaryKeys(rules, es)
    ensures multiset(sorted) == multiset(es) && InOrder(rules, sorted)
    ensures var r := SanitizeNode(rules, heap, ObjectNode(es), depth, path);
      && r.Obj? && |r.members| == 65 && |sorted| > 64
      && (forall i :: 0 <= i < 64 ==> r.members[i] == Keyed(sorted[i].key, Shown(rules, heap, sorted[i], depth, path)))
      && r.members[64] == Keyed(Ascii("_audit_omitted_keys"), Number(Numbers.OfNat(|es| - 64)))
  {
    sorted := SortEntries(rules, es);
    SortedEntries(rules, es);
    SortPutsInOrder(rules, es);
    SortKeepsDistinct(rules, es);
    SortKeepsKeys(rules, es);
    FrontIsShown(rules, heap, sorted, |es|, depth, path);
  }

  ghost predicate OrdinaryKeys(rules: Rules, es: seq<Entry>) {
    forall i :: 0 <= i < |es| ==> KeyFits(rules, es[i].key) && es[i].key != Ascii("_audit_omitted_keys")
  }

  lemma SortKeepsKeys(rules: Rules, es: seq<Entry>)
    requires OrdinaryKeys(rules, es)
    ensures OrdinaryKeys(rules, SortEntries(rules, es))
  {
    var sorted := SortEntries(rules, es);
    SortedEntries(rules, es);
    forall i | 0 <= i < |sorted| ensures KeyFits(rules, sorted[i].key) && sorted[i].key != Ascii("_audit_omitted_keys") {
      assert sorted[i] in multiset(es);
      var k :| 0 <= k < |es| && es[k] == sorted[i];
    }
  }

  lemma FrontIsShown(rules: Rules, heap: Heap, sorted: seq<Entry>, total: nat, depth: nat, path: set<Id>)
    requires |sorted| == total > 64 && DistinctKeys(sorted) && OrdinaryKeys(rules, sorted)
    ensures var ms := WithOmittedKeys(SanitizeEntries(rules, heap, Front(sorted, MAX_OBJECT_KEYS), depth, path), total);
      && |ms| == 65 && ms[64] == Keyed(Ascii("_audit_omitted_keys"), Number(Numbers.OfNat(total - 64)))
      && forall i :: 0 <= i < 64 ==> ms[i] == Keyed(sorted[i].key, Shown(rules, heap, sorted[i], depth, path))
  {
    var front := Front(sorted, MAX_OBJECT_KEYS);
    FrontsAreDistinct(sorted, 64);
    KeptEntries(rules, heap, front, depth, path);
    PutNew(SanitizeEntries(rules, heap, front, depth, path), Ascii("_audit_omitted_keys"), Number(Numbers.OfNat(total - 64)));
  }

  /** An object that is an item of itself shows where it comes back. */
  lemma LoopsAreCut(rules: Rules, heap: Heap, id: Id)
    requires heap(id) == ArrayNode([Some(VObject(id))])
    ensures Sanitize(rules, heap, VObject(id), 0, {}) == Arr([Str(Ascii("[OMITTED:cyclic-reference]"))])
  {
    var items: seq<Option<Value>> := [Some(VObject(id))];
    CyclicText();
    ArraysAreCutAt64(rules, heap, items, 1, {id});
    assert SanitizeNode(rules, heap, ArrayNode(items), 1, {id}).items == [Str(Omitted(Ascii("cyclic-reference")))];
  }

  lemma AsciiConcat(a: string, b: string)
    ensures Ascii(a) + Ascii(b) == Ascii(a + b)
  {
  }

  lemma CyclicText()
    ensures Omitted(Ascii("cyclic-reference")) == Ascii("[OMITTED:cyclic-reference]")
  {
    AsciiConcat("[OMITTED:", "cyclic-reference");
    AsciiConcat("[OMITTED:" + "cyclic-reference", "]");
    assert "[OMITTED:" + "cyclic-reference" + "]" == "[OMITTED:cyclic-reference]";
  }

  // ----- marks -----

  lemma MarkText(what: string, mark: string)
    requires mark == "[OMITTED:" + what + "]"
    ensures Omitted(Ascii(what)) == Ascii(mark)
  {
    AsciiConcat("[OMITTED:", what);
    AsciiConcat("[OMITTED:" + what, "]");
  }

  /** What is no data shows what it is. */
  lemma NoDataShowsWhatItIs(rules: Rules, heap: Heap, v: Value, depth: nat, path: set<Id>)
    requires v.VNonFinite? || v.VOther?
    ensures Sanitize(rules, heap, v, depth, path) == Str(Ascii(
      if v.VNonFinite? then "[OMITTED:non-finite-number]"
      else match v.kind
        case Undefined => "[OMITTED:undefined]"
        case BigInt => "[OMITTED:bigint]"
        case Symbol => "[OMITTED:symbol]"
        case Function => "[OMITTED:function]"))
  {
    match v
    case VNonFinite => MarkText("non-finite-number", "[OMITTED:non-finite-number]");
    case VOther(Undefined) => MarkText("undefined", "[OMITTED:undefined]");
    case VOther(BigInt) => MarkText("bigint", "[OMITTED:bigint]");
    case VOther(Symbol) => MarkText("symbol", "[OMITTED:symbol]");
    case VOther(Function) => MarkText("function", "[OMITTED:function]");
  }

  /** A text is shown as it is redacted, or by the size of that when it has more than 2,048 bytes. */
  lemma TextsShowTheirSize(rules: Rules, heap: Heap, t: JsText, depth: nat, path: set<Id>)
    ensures var bytes := Utf8.ByteLength(rules.clean(t));
      Sanitize(rules, heap, VText(t), depth, path) == Str(
        if bytes <= 2048 then rules.clean(t)
        else Ascii("[OMITTED:oversized-text:") + Numbers.PrintNumber(Numbers.OfNat(bytes)) + Ascii("-bytes]"))
  {
  }

  // ----- keys that never show -----

  /** No object has a key that could stand for its prototype. */
  predicate Harmless(v: Sparse) {
    match v
    case Arr(items) => forall i :: 0 <= i < |items| ==> Harmless(items[i])
    case Obj(ms) => HarmlessMembers(ms)
    case _ => true
  }

  predicate HarmlessKey(key: Text) {
    key != Ascii("__proto__") && key != Ascii("constructor") && key != Ascii("prototype")
  }

  predicate HarmlessMembers(ms: seq<Keyed<Sparse>>) {
    forall i :: 0 <= i < |ms| ==> HarmlessKey(ms[i].key) && Harmless(ms[i].value)
  }

  lemma {:induction false} PutKeepsHarmless(ms: seq<Keyed<Sparse>>, key: Text, v: Sparse)
    requires HarmlessMembers(ms) && HarmlessKey(key) && Harmless(v)
    ensures HarmlessMembers(Put(ms, key, v))
  {
    if ms != [] && ms[0].key != key { PutKeepsHarmless(ms[1..], key, v); }
  }

  lemma MarksAreHarmless()
    ensures HarmlessKey(Ascii("_audit_omitted_keys")) && HarmlessKey(Ascii("_audit_omitted_items"))
  {
    assert |Ascii("_audit_omitted_keys")| == 19 && |Ascii("_audit_omitted_items")| == 20;
    assert |Ascii("__proto__")| == 9 && |Ascii("constructor")| == 11 && |Ascii("prototype")| == 9;
  }

  lemma OmittedItemsAreHarmless(total: nat)
    ensures forall i :: 0 <= i < |OmittedItems(total)| ==> Harmless(OmittedItems(total)[i])
  {
    MarksAreHarmless();
    if total > MAX_ARRAY_ITEMS {
      SingleMemberIsHarmless(Ascii("_audit_omitted_items"), Number(Numbers.OfNat(total - MAX_ARRAY_ITEMS)));
    }
  }

  lemma SingleMemberIsHarmless(key: Text, v: Sparse)
    requires HarmlessKey(key) && Harmless(v)
    ensures Harmless(Obj([Keyed(key, v)]))
  {
    assert HarmlessMembers([Keyed(key, v)]);
  }

  lemma ConcatIsHarmless(a: seq<Sparse>, b: seq<Sparse>)
    requires (forall i :: 0 <= i < |a| ==> Harmless(a[i])) && forall i :: 0 <= i < |b| ==> Harmless(b[i])
    ensures Harmless(Arr(a + b))
  {
    forall i | 0 <= i < |a + b| ensures Harmless((a + b)[i]) { }
  }

  lemma CountsAreHarmless(ms: seq<Keyed<Sparse>>, total: nat)
    requires HarmlessMembers(ms)
    ensures Harmless(ObjectOf(ms, total))
  {
    MarksAreHarmless();
    if total > MAX_OBJECT_KEYS {
      PutKeepsHarmless(ms, Ascii("_audit_omitted_keys"), Number(Numbers.OfNat(total - MAX_OBJECT_KEYS)));
    }
  }

  /** An entry under such a key, or under one that redaction makes such a key, is left out. */
  lemma ForbiddenEntriesAreDropped(rules: Rules, heap: Heap, es: seq<Entry>, e: Entry, depth: nat, path: set<Id>)
    requires !HarmlessKey(e.key) || !HarmlessKey(RedactText(rules, e.key, 256))
    ensures SanitizeEntries(rules, heap, es + [e], depth, path) == SanitizeEntries(rules, heap, es, depth, path)
  {
    assert (es + [e])[..|es|] == es;
  }

  /** Whatever the graph and whatever redaction makes of its keys, no such key shows. */
  lemma {:induction false} ForbiddenKeysDoNotShow(rules: Rules, heap: Heap, v: Value, depth: nat, path: set<Id>)
    ensures Harmless(Sanitize(rules, heap, v, depth, path))
    decreases Max(0, MAX_DEPTH - depth), 0
  {
    if v.VObject? && depth < MAX_DEPTH && v.id !in path {
      NodesAreHarmless(rules, heap, heap(v.id), depth + 1, path + {v.id});
    }
  }

  lemma {:induction false} NodesAreHarmless(rules: Rules, heap: Heap, node: Node, depth: nat, path: set<Id>)
    ensures Harmless(SanitizeNode(rules, heap, node, depth, path))
    decreases Max(0, MAX_DEPTH - depth), 100
  {
    match node {
      case ArrayNode(items) =>
        var front := Front(items, MAX_ARRAY_ITEMS);
        ItemsAreHarmless(rules, heap, front, depth, path);
        OmittedItemsAreHarmless(|items|);
        ConcatIsHarmless(SanitizeItems(rules, heap, front, depth, path), OmittedItems(|items|));
      case ObjectNode(es) =>
        var front := Front(SortEntries(rules, es), MAX_OBJECT_KEYS);
        EntriesAreHarmless(rules, heap, front, depth, path);
        CountsAreHarmless(SanitizeEntries(rules, heap, front, depth, path), |es|);
    }
  }

  lemma {:induction false} ItemsAreHarmless(rules: Rules, heap: Heap, items: seq<Option<Value>>, depth: nat, path: set<Id>)
    ensures forall i :: 0 <= i < |items| ==> Harmless(SanitizeItems(rules, heap, items, depth, path)[i])
    decreases Max(0, MAX_DEPTH - depth), 1 + |items|
  {
    if items != [] {
      ItemsAreHarmless(rules, heap, items[..|items| - 1], depth, path);
      if items[|items| - 1].Some? { ForbiddenKeysDoNotShow(rules, heap, items[|items| - 1].value, depth, path); }
    }
  }

  lemma {:induction false} EntriesAreHarmless(rules: Rules, heap: Heap, es: seq<Entry>, depth: nat, path: set<Id>)
    ensures HarmlessMembers(SanitizeEntries(rules, heap, es, depth, path))
    decreases Max(0, MAX_DEPTH - depth), 1 + |es|
  {
    if es != [] {
      var e := es[|es| - 1];
      EntriesAreHarmless(rules, heap, es[..|es| - 1], depth, path);
      ForbiddenKeysDoNotShow(rules, heap, e.value, depth, path);
      if !Skipped(rules, e) {
        PutKeepsHarmless(SanitizeEntries(rules, heap, es[..|es| - 1], depth, path), RedactText(rules, e.key, MAX_KEY_BYTES),
                         EntryValue(rules, heap, e, depth, path));
      }
    }
  }
}
