/**
 Which texts of values with holes are JSON: the parser takes a text back exactly when every hole is all of its array, and
 then the value without such holes.
 */
module SparseParser {
  import opened Prelude
  import opened Texts
  import opened KeyedLists
  import opened SparseJson
  import opened CanonicalParser
  import J = CanonicalJson
  import Numbers
  import Strings

  /** What may follow an item or a member: a comma or a closing sign. */
  predicate Ends(rest: Text) { rest != [] && Numbers.Delimited(rest) }

  lemma NothingIsNoValue(rest: Text)
    requires Numbers.Delimited(rest)
    ensures ParseValue(rest) == None
  {
  }

  /** A value that is no hole begins with no closing sign. */
  lemma FirstOfText(v: Sparse)
    requires !v.Hole?
    ensures Canonicalize(v) != [] && Canonicalize(v)[0] != CLOSE_BRACKET && Canonicalize(v)[0] != CLOSE_BRACE
  {
    if v.Number? { Numbers.PrintedNumberStarts(v.n); }
  }

  lemma SolidTextIsParsed(v: Sparse, rest: Text)
    requires Solid(v) && Numbers.Delimited(rest)
    ensures ParseValue(Canonicalize(v) + rest) == Some((J.Normalize(Closed(v)), rest))
  {
    SolidTextIsClosedText(v);
    J.CanonicalizePrintsNormalForm(Closed(v));
    ParsePrinted(J.Normalize(Closed(v)), rest);
  }

  // ----- one step of the parser -----

  lemma BracketOpens(body: Text)
    requires body != [] && body[0] != CLOSE_BRACKET && ParseItems(body) == None
    ensures ParseValue([OPEN_BRACKET] + body) == None
  {
    DropPrefix([OPEN_BRACKET], body);
  }

  lemma BraceOpens(body: Text)
    requires body != [] && body[0] != CLOSE_BRACE && ParseMembers(body) == None
    ensures ParseValue([OPEN_BRACE] + body) == None
  {
    DropPrefix([OPEN_BRACE], body);
  }

  lemma BrokenFirstItem(s: Text)
    requires ParseValue(s) == None
    ensures ParseItems(s) == None
  {
  }

  lemma BrokenLaterItem(s: Text, v: J.Json, more: Text)
    requires ParseValue(s) == Some((v, [COMMA] + more)) && ParseItems(more) == None
    ensures ParseItems(s) == None
  {
    DropPrefix([COMMA], more);
  }

  lemma BrokenFirstMember(s: Text)
    requires ParseMember(s) == None
    ensures ParseMembers(s) == None
  {
  }

  lemma BrokenLaterMember(s: Text, m: Keyed<J.Json>, more: Text)
    requires ParseMember(s) == Some((m, [COMMA] + more)) && ParseMembers(more) == None
    ensures ParseMembers(s) == None
  {
    DropPrefix([COMMA], more);
  }

  /** A member is parsed as its value is. */
  lemma MemberOfValue(key: Text, value: Text, rest: Text)
    ensures ParseMember(J.Pair(Keyed(key, value)) + rest)
      == match ParseValue(value + rest) { case None => None case Some((v, r)) => Some((Keyed(key, v), r)) }
  {
    Assoc(Strings.Quote(key), [COLON] + value, rest);
    Assoc([COLON], value, rest);
    Strings.ParseQuoted(key, [COLON] + (value + rest));
    DropPrefix([COLON], value + rest);
  }

  // ----- texts with holes -----

  lemma JoinedItems(items: seq<Sparse>, tail: Text)
    requires |items| > 1
    ensures J.JoinItems(CanonicalizeItems(items)) + tail
      == Canonicalize(items[0]) + ([COMMA] + (J.JoinItems(CanonicalizeItems(items[1..])) + tail))
  {
    var joined := J.JoinItems(CanonicalizeItems(items[1..]));
    assert CanonicalizeItems(items)[1..] == CanonicalizeItems(items[1..]);
    Assoc(Canonicalize(items[0]), [COMMA] + joined, tail);
    Assoc([COMMA], joined, tail);
  }

  lemma JoinedTexts(ms: seq<Keyed<Sparse>>, tail: Text)
    requires |ms| > 1
    ensures J.JoinMembers(CanonicalizeMembers(ms)) + tail
      == J.Pair(Keyed(ms[0].key, Canonicalize(ms[0].value))) + ([COMMA] + (J.JoinMembers(CanonicalizeMembers(ms[1..])) + tail))
  {
    var joined := J.JoinMembers(CanonicalizeMembers(ms[1..]));
    assert CanonicalizeMembers(ms)[1..] == CanonicalizeMembers(ms[1..]);
    Assoc(J.Pair(Keyed(ms[0].key, Canonicalize(ms[0].value))), [COMMA] + joined, tail);
    Assoc([COMMA], joined, tail);
  }

  /** No parser step gets past a hole that is not all of its array. */
  lemma {:induction false} BrokenTextIsNotParsed(v: Sparse, rest: Text)
    requires !Solid(v) && Numbers.Delimited(rest)
    ensures ParseValue(Canonicalize(v) + rest) == None
    decreases v, 2
  {
    match v
    case Hole =>
      assert [] + rest == rest;
      NothingIsNoValue(rest);
    case Arr(items) => BrokenArrayIsNotParsed(items, rest);
    case Obj(ms) => BrokenObjectIsNotParsed(v, rest);
  }

  lemma FirstOfJoined(items: seq<Sparse>, tail: Text)
    requires items != [] && items != [Hole]
    ensures var body := J.JoinItems(CanonicalizeItems(items)) + tail; body != [] && body[0] != CLOSE_BRACKET
  {
    if items[0].Hole? {
      assert |items| > 1;
      JoinedItems(items, tail);
      assert Canonicalize(items[0]) == [];
    } else {
      FirstOfText(items[0]);
    }
  }

  lemma {:induction false} BrokenArrayIsNotParsed(items: seq<Sparse>, rest: Text)
    requires items != [Hole] && (exists i :: 0 <= i < |items| && !Solid(items[i])) && Numbers.Delimited(rest)
    ensures ParseValue(Canonicalize(Arr(items)) + rest) == None
    decreases items, 1
  {
    var joined, tail := J.JoinItems(CanonicalizeItems(items)), [CLOSE_BRACKET] + rest;
    BrokenItemsAreNotParsed(items, tail);
    FirstOfJoined(items, tail);
    BracketOpens(joined + tail);
    Assoc([OPEN_BRACKET], joined + [CLOSE_BRACKET], rest);
    Assoc(joined, [CLOSE_BRACKET], rest);
  }

  lemma {:induction false} BrokenItemsAreNotParsed(items: seq<Sparse>, tail: Text)
    requires (exists i :: 0 <= i < |items| && !Solid(items[i])) && Ends(tail)
    ensures ParseItems(J.JoinItems(CanonicalizeItems(items)) + tail) == None
    decreases items, 0
  {
    var all := J.JoinItems(CanonicalizeItems(items)) + tail;
    if |items| == 1 {
      BrokenTextIsNotParsed(items[0], tail);
      BrokenFirstItem(all);
    } else {
      var more := J.JoinItems(CanonicalizeItems(items[1..])) + tail;
      JoinedItems(items, tail);
      if Solid(items[0]) {
        var i :| 0 <= i < |items| && !Solid(items[i]);
        assert items[1..][i - 1] == items[i];
        BrokenItemsAreNotParsed(items[1..], tail);
        SolidTextIsParsed(items[0], [COMMA] + more);
        BrokenLaterItem(all, J.Normalize(Closed(items[0])), more);
      } else {
        BrokenTextIsNotParsed(items[0], [COMMA] + more);
        BrokenFirstItem(all);
      }
    }
  }

  lemma FirstOfMembers(ms: seq<Keyed<Sparse>>, tail: Text)
    requires ms != []
    ensures var body := J.JoinMembers(CanonicalizeMembers(ms)) + tail; body != [] && body[0] == QUOTE
  {
  }

  lemma {:induction false} BrokenObjectIsNotParsed(v: Sparse, rest: Text)
    requires v.Obj? && !Solid(v) && Numbers.Delimited(rest)
    ensures ParseValue(Canonicalize(v) + rest) == None
    decreases v, 1
  {
    var sorted := Sort(v.members);
    var joined, tail := J.JoinMembers(CanonicalizeMembers(sorted)), [CLOSE_BRACE] + rest;
    TextsCommuteWithSort(v.members);
    SortHolds(v.members);
    var i :| 0 <= i < |v.members| && !Solid(v.members[i].value);
    assert v.members[i] in sorted;
    BrokenMembersAreNotParsed(v, sorted, tail);
    FirstOfMembers(sorted, tail);
    BraceOpens(joined + tail);
    Assoc([OPEN_BRACE], joined + [CLOSE_BRACE], rest);
    Assoc(joined, [CLOSE_BRACE], rest);
  }

  lemma {:induction false} BrokenMembersAreNotParsed(v: Sparse, ms: seq<Keyed<Sparse>>, tail: Text)
    requires v.Obj? && (forall m :: m in ms ==> m in v.members) && (exists m :: m in ms && !Solid(m.value)) && Ends(tail)
    ensures ParseMembers(J.JoinMembers(CanonicalizeMembers(ms)) + tail) == None
    decreases v, 0, |ms|
  {
    var all := J.JoinMembers(CanonicalizeMembers(ms)) + tail;
    var key, value := ms[0].key, ms[0].value;
    assert ms[0] in ms && ms[0] in v.members;
    var k :| 0 <= k < |v.members| && v.members[k] == ms[0];
    assert ms == [ms[0]] + ms[1..];
    if |ms| == 1 {
      BrokenTextIsNotParsed(v.members[k].value, tail);
      MemberOfValue(key, Canonicalize(value), tail);
      BrokenFirstMember(all);
    } else {
      var more := J.JoinMembers(CanonicalizeMembers(ms[1..])) + tail;
      JoinedTexts(ms, tail);
      MemberOfValue(key, Canonicalize(value), [COMMA] + more);
      if Solid(value) {
        BrokenMembersAreNotParsed(v, ms[1..], tail);
        SolidTextIsParsed(value, [COMMA] + more);
        BrokenLaterMember(all, Keyed(key, J.Normalize(Closed(value))), more);
      } else {
        BrokenTextIsNotParsed(v.members[k].value, [COMMA] + more);
        BrokenFirstMember(all);
      }
    }
  }

  /** A text is parsed exactly when every hole of its value is all of its array, and yields the value without such holes. */
  lemma SparseTextsParseExactly(v: Sparse)
    ensures ParseValue(Canonicalize(v)) == if Solid(v) then Some((J.Normalize(Closed(v)), [])) else None
  {
    assert Canonicalize(v) + [] == Canonicalize(v);
    if Solid(v) { SolidTextIsParsed(v, []); } else { BrokenTextIsNotParsed(v, []); }
  }
}
