/**
 Scene deep links (packages/core/src/sceneSerializer.ts): a scene's JSON text travels in the fragment of a URL as
 base64url of its UTF-8 bytes.
 */
module SceneLink {
  import opened Prelude
  import opened Texts
  import Base64
  import Utf8
  import Strings

  const HASH: Unit := 35
  const PERCENT: Unit := 37
  const AMPERSAND: Unit := 38
  const QUESTION: Unit := 63

  const SCENE: Text := Ascii("scene=")

  /** The part before the first occurrence of a unit, as `split(u)[0]` gives it. */
  function Before(t: Text, u: Unit): (r: Text)
    ensures u !in r && r <= t
    ensures u in t ==> |r| < |t| && t[|r|] == u
    ensures u !in t ==> r == t
  {
    if t == [] || t[0] == u then [] else [t[0]] + Before(t[1..], u)
  }

  function CleanBase(base: Text): Text {
    var clean := Before(Before(base, HASH), QUESTION);
    if clean == [] then base else clean
  }

  function Serialize(json: Text): Text {
    Base64.ToUrl(Utf8.Encode(json))
  }

  /** `createSceneDeepLink`. */
  function DeepLink(base: Text, json: Text): Text {
    CleanBase(base) + ([HASH] + SCENE + Serialize(json))
  }

  // ----- parsing -----

  /** What follows the first '#', or everything. */
  function Fragment(url: Text): Text {
    if HASH in url then url[|Before(url, HASH)| + 1..] else url
  }

  /** "scene=" at a position, with something to capture behind it. */
  predicate SceneAt(t: Text, i: nat) {
    i + |SCENE| < |t| && t[i..i + |SCENE|] == SCENE && t[i + |SCENE|] != AMPERSAND
  }

  predicate Separates(u: Unit) { u == AMPERSAND || u == QUESTION || u == HASH }

  /** Where the capture of the pattern (?:^|[&?#])scene=([^&]+) begins when it matches at a position. */
  function SceneStart(t: Text, i: nat): (r: Option<nat>)
    requires i < |t|
    ensures r.Some? ==> i < r.value < |t|
  {
    if i == 0 && SceneAt(t, 0) then Some(|SCENE|)
    else if Separates(t[i]) && SceneAt(t, i + 1) then Some(i + 1 + |SCENE|)
    else None
  }

  /** Where the capture of the first match from a position on begins. */
  function FirstStart(t: Text, i: nat): (r: Option<nat>)
    requires i <= |t|
    ensures r.Some? ==> r.value < |t|
    decreases |t| - i
  {
    if i == |t| then None
    else if SceneStart(t, i).Some? then SceneStart(t, i)
    else FirstStart(t, i + 1)
  }

  /** The capture of the first match. */
  function FindScene(t: Text): Option<Text> {
    match FirstStart(t, 0)
    case None => None
    case Some(k) => Some(Before(t[k..], AMPERSAND))
  }

  predicate IsSpace(u: Unit) {
    9 <= u <= 13 || u == 32 || u == 0xA0 || u == 0x1680 || 0x2000 <= u <= 0x200A || u == 0x2028 || u == 0x2029
    || u == 0x202F || u == 0x205F || u == 0x3000 || u == 0xFEFF
  }

  function TrimLeft(t: Text): Text { if t != [] && IsSpace(t[0]) then TrimLeft(t[1..]) else t }

  function TrimRight(t: Text): Text { if t != [] && IsSpace(t[|t| - 1]) then TrimRight(t[..|t| - 1]) else t }

  /** `decodeURIComponent`; what it makes of escapes is left open. */
  function DecodeUri(unescape: Text -> Option<Text>, t: Text): Option<Text> {
    if PERCENT !in t then Some(t) else unescape(t)
  }

  const BYTE_ORDER_MARK: Unit := 0xFEFF

  function DropMark(t: Text): Text {
    if t != [] && t[0] == BYTE_ORDER_MARK then t[1..] else t
  }

  /** `TextDecoder.decode`, which drops a leading byte order mark. */
  function DecodedText(bytes: seq<Base64.Byte>): Option<Text> {
    match Utf8.Decode(bytes) { case None => None case Some(t) => Some(DropMark(t)) }
  }

  /** The JSON text `deserializeScene` parses. */
  function Deserialize(payload: Text): Option<Text> {
    ReadTrimmed(TrimRight(TrimLeft(payload)))
  }

  function ReadTrimmed(trimmed: Text): Option<Text> {
    if trimmed != [] && trimmed[0] == OPEN_BRACE && trimmed[|trimmed| - 1] == CLOSE_BRACE then Some(trimmed)
    else match Base64.FromUrl(trimmed)
      case None => None
      case Some(bytes) => DecodedText(bytes)
  }

  /** `parseSceneFromUrl`, up to the JSON text. */
  function ParseUrl(unescape: Text -> Option<Text>, url: Text): Option<Text> {
    if url == [] then None
    else match FindScene(Fragment(url))
      case None => None
      case Some(capture) =>
        match DecodeUri(unescape, capture)
        case None => None
        case Some(payload) => Deserialize(payload)
  }

  // ----- the round trip -----

  lemma PayloadsArePlain(json: Text)
    ensures var p := Serialize(json);
      && PERCENT !in p && AMPERSAND !in p && HASH !in p
      && (p == [] <==> json == [])
      && (p != [] ==> p[0] != OPEN_BRACE && !IsSpace(p[0]) && !IsSpace(p[|p| - 1]))
  {
    var p := Serialize(json);
    Base64.UrlFormIsUrlSafe(Utf8.Encode(json));
    assert forall i :: 0 <= i < |p| ==> Base64.UrlSafe(p[i]);
    Utf8.LengthIsBounded(json);
  }

  lemma NothingToTrim(p: Text)
    requires p != [] ==> !IsSpace(p[0]) && !IsSpace(p[|p| - 1])
    ensures TrimRight(TrimLeft(p)) == p
  {
  }

  lemma PlainPayloadIsDecoded(p: Text, bytes: seq<Base64.Byte>)
    requires p != [] ==> p[0] != OPEN_BRACE && !IsSpace(p[0]) && !IsSpace(p[|p| - 1])
    requires Base64.FromUrl(p) == Some(bytes)
    ensures Deserialize(p) == DecodedText(bytes)
  {
    NothingToTrim(p);
  }

  /** A serialized scene is deserialized to its text; only a byte order mark, with which no JSON text begins, would be lost. */
  lemma SerializedTextsComeBack(json: Text)
    requires Strings.WellFormed(json)
    ensures Deserialize(Serialize(json)) == Some(DropMark(json))
  {
    var bytes := Utf8.Encode(json);
    PayloadsArePlain(json);
    Base64.UrlRoundTrip(bytes);
    PlainPayloadIsDecoded(Base64.ToUrl(bytes), bytes);
    Utf8.Utf8RoundTrip(json);
  }

  lemma BeforeNothing(t: Text, u: Unit)
    requires u !in t
    ensures Before(t, u) == t
  {
  }

  lemma {:induction false} FirstMatch(t: Text, i: nat, j: nat)
    requires i <= j < |t| && SceneStart(t, j).Some? && forall k :: i <= k < j ==> SceneStart(t, k).None?
    ensures FirstStart(t, i) == SceneStart(t, j)
    decreases j - i
  {
    if i < j { FirstMatch(t, i + 1, j); }
  }

  /** A fragment that begins with the scene. */
  lemma SceneFirst(payload: Text)
    requires payload != [] && AMPERSAND !in payload
    ensures FindScene(SCENE + payload) == Some(payload)
  {
    var t := SCENE + payload;
    assert t[0..|SCENE|] == SCENE && t[|SCENE|..] == payload;
    BeforeNothing(payload, AMPERSAND);
    FirstMatch(t, 0, 0);
  }

  /** Nothing in a text, followed by a fragment sign, looks like a scene. */
  predicate NoSceneIn(t: Text) {
    forall i :: 0 <= i < |t| ==> SceneStart(t + [HASH], i).None?
  }

  lemma SceneHasNoSeparator()
    ensures |SCENE| == 6 && HASH !in SCENE && SCENE != []
  {
  }

  lemma SameSceneAt(tail: Text, rest: Text, i: nat)
    requires i <= |tail|
    ensures var long := tail + ([HASH] + rest); SceneAt(long, i) <==> SceneAt(tail + [HASH], i)
  {
    var long, short := tail + ([HASH] + rest), tail + [HASH];
    SceneHasNoSeparator();
    if i + 6 <= |tail| {
      assert long[i..i + 6] == short[i..i + 6];
      assert long[i + 6] == short[i + 6];
    } else if i + 6 < |long| {
      assert long[i..i + 6][|tail| - i] == long[|tail|] == HASH;
      assert HASH in long[i..i + 6];
    }
  }

  lemma SameStart(tail: Text, rest: Text, i: nat)
    requires i < |tail|
    ensures SceneStart(tail + ([HASH] + rest), i) == SceneStart(tail + [HASH], i)
  {
    var long, short := tail + ([HASH] + rest), tail + [HASH];
    assert long[i] == tail[i] == short[i];
    SameSceneAt(tail, rest, 0);
    SameSceneAt(tail, rest, i + 1);
  }

  /** A fragment in which the scene comes after other things. */
  lemma SceneLast(tail: Text, payload: Text)
    requires payload != [] && AMPERSAND !in payload && NoSceneIn(tail) && tail != []
    ensures FindScene(tail + ([HASH] + SCENE + payload)) == Some(payload)
  {
    var t := tail + ([HASH] + SCENE + payload);
    assert [HASH] + SCENE + payload == [HASH] + (SCENE + payload);
    forall k | 0 <= k < |tail| ensures SceneStart(t, k).None? { SameStart(tail, SCENE + payload, k); }
    assert t[|tail|] == HASH;
    assert t[|tail| + 1..|tail| + 1 + |SCENE|] == SCENE && t[|tail| + 1 + |SCENE|..] == payload;
    BeforeNothing(payload, AMPERSAND);
    FirstMatch(t, 0, |tail|);
  }

  lemma FragmentAfter(head: Text, tail: Text)
    requires HASH !in head
    ensures Fragment(head + ([HASH] + tail)) == tail
  {
    var url := head + ([HASH] + tail);
    assert url[|head|] == HASH;
    BeforeSign(head, tail, HASH);
  }

  lemma {:induction false} BeforeSign(head: Text, tail: Text, u: Unit)
    requires u !in head
    ensures Before(head + ([u] + tail), u) == head
  {
    var t := head + ([u] + tail);
    if head == [] {
      assert t[0] == u;
    } else {
      assert t[1..] == head[1..] + ([u] + tail);
      BeforeSign(head[1..], tail, u);
    }
  }

  /** The fragment a base brings along itself, when the link is built on the whole of it. */
  function OwnFragment(base: Text): Text {
    if CleanBase(base) == base && HASH in base then Fragment(base) else []
  }

  lemma SplitAtSign(base: Text)
    requires HASH in base
    ensures base == Before(base, HASH) + ([HASH] + Fragment(base))
  {
  }

  lemma Rebracketed(head: Text, own: Text, tail: Text)
    ensures (head + ([HASH] + own)) + tail == head + ([HASH] + (own + tail))
  {
    assert (head + ([HASH] + own)) + tail == head + (([HASH] + own) + tail);
    assert ([HASH] + own) + tail == [HASH] + (own + tail);
  }

  lemma FragmentBehind(head: Text, own: Text, base: Text, tail: Text)
    requires HASH !in head && base == head + ([HASH] + own)
    ensures Fragment(base + tail) == own + tail
  {
    Rebracketed(head, own, tail);
    FragmentAfter(head, own + tail);
  }

  lemma FragmentOfWholeBase(base: Text, rest: Text)
    requires HASH in base
    ensures Fragment(base + ([HASH] + rest)) == Fragment(base) + ([HASH] + rest)
  {
    SplitAtSign(base);
    FragmentBehind(Before(base, HASH), Fragment(base), base, [HASH] + rest);
  }

  lemma SignInCleanBase(base: Text)
    ensures HASH in CleanBase(base) <==> CleanBase(base) == base && HASH in base
  {
  }

  lemma LinkFragment(base: Text, json: Text)
    ensures Fragment(DeepLink(base, json)) ==
      if CleanBase(base) == base && HASH in base then Fragment(base) + ([HASH] + SCENE + Serialize(json)) else SCENE + Serialize(json)
  {
    var rest := SCENE + Serialize(json);
    assert [HASH] + SCENE + Serialize(json) == [HASH] + rest;
    SignInCleanBase(base);
    if CleanBase(base) == base && HASH in base {
      FragmentOfWholeBase(base, rest);
    } else {
      FragmentAfter(CleanBase(base), rest);
    }
  }

  /** A URL whose fragment yields the payload of a scene yields the scene. */
  lemma FoundPayloadIsParsed(unescape: Text -> Option<Text>, url: Text, payload: Text)
    requires url != [] && FindScene(Fragment(url)) == Some(payload) && PERCENT !in payload
    ensures ParseUrl(unescape, url) == Deserialize(payload)
  {
  }

  /** The scene is found at the front of the fragment, or behind what the base had there. */
  lemma SceneIsFound(own: Text, payload: Text)
    requires payload != [] && AMPERSAND !in payload && NoSceneIn(own)
    ensures FindScene(own + ([HASH] + SCENE + payload)) == Some(payload)
  {
    if own == [] {
      assert own + ([HASH] + SCENE + payload) == [HASH] + SCENE + payload;
      SceneBehindSign(payload);
    } else {
      SceneLast(own, payload);
    }
  }

  /**
   Parsing a created link recovers the scene's text for every base that has something before its '#' and '?', and for
   every other base whose own fragment holds no scene already.
   */
  lemma LinksRoundTrip(unescape: Text -> Option<Text>, base: Text, json: Text)
    requires Strings.WellFormed(json) && json != []
    requires LeavesRoom(base)
    ensures ParseUrl(unescape, DeepLink(base, json)) == Some(DropMark(json))
  {
    var payload := Serialize(json);
    PayloadsArePlain(json);
    LinkFragment(base, json);
    if CleanBase(base) == base && HASH in base {
      SceneIsFound(Fragment(base), payload);
    } else {
      SceneFirst(payload);
    }
    FoundPayloadIsParsed(unescape, DeepLink(base, json), payload);
    SerializedTextsComeBack(json);
  }

  lemma SceneBehindSign(payload: Text)
    requires payload != [] && AMPERSAND !in payload
    ensures FindScene([HASH] + SCENE + payload) == Some(payload)
  {
    var t := [HASH] + SCENE + payload;
    assert t[1..1 + |SCENE|] == SCENE && t[1 + |SCENE|..] == payload;
    BeforeNothing(payload, AMPERSAND);
    FirstMatch(t, 0, 0);
  }

  // ----- bases that bring a scene of their own -----

  /** Nothing of the base stands in the way of the scene: something is before its '#' and '?', or no scene behind them. */
  predicate LeavesRoom(base: Text) {
    Before(Before(base, HASH), QUESTION) != [] || NoSceneIn(OwnFragment(base))
  }

  /** What follows the '#' does not change where the first scene before it begins. */
  lemma {:induction false} SameFirstStart(tail: Text, rest: Text, i: nat)
    requires i <= |tail| && FirstStart(tail + [HASH], i).Some?
    ensures FirstStart(tail + ([HASH] + rest), i) == FirstStart(tail + [HASH], i)
    decreases |tail| - i
  {
    if i < |tail| {
      SameStart(tail, rest, i);
      if SceneStart(tail + [HASH], i).None? { SameFirstStart(tail, rest, i + 1); }
    } else {
      NothingBehindTheSign(tail);
    }
  }

  lemma NothingBehindTheSign(tail: Text)
    ensures FirstStart(tail + [HASH], |tail|).None?
  {
    SceneHasNoSeparator();
    assert FirstStart(tail + [HASH], |tail| + 1).None?;
  }

  lemma {:induction false} ScenesHaveAStart(tail: Text, i: nat, k: nat)
    requires i <= k < |tail| && SceneStart(tail + [HASH], k).Some?
    ensures FirstStart(tail + [HASH], i).Some?
    decreases k - i
  {
    if i < k && SceneStart(tail + [HASH], i).None? { ScenesHaveAStart(tail, i + 1, k); }
  }

  /** Where the capture of the base's own scene begins. */
  lemma OwnSceneStarts(base: Text) returns (own: Text, k: nat)
    requires !LeavesRoom(base)
    ensures CleanBase(base) == base && HASH in base && own == Fragment(base)
    ensures k <= |own| && FirstStart(own + [HASH], 0) == Some(k)
  {
    own := OwnFragment(base);
    var m :| 0 <= m < |own| && SceneStart(own + [HASH], m).Some?;
    ScenesHaveAStart(own, 0, m);
    k := FirstStart(own + [HASH], 0).value;
  }

  lemma {:induction false} BeforeInFront(a: Text, b: Text, u: Unit)
    requires u in a
    ensures Before(a + b, u) == Before(a, u)
  {
    if a[0] != u {
      assert (a + b)[1..] == a[1..] + b;
      BeforeInFront(a[1..], b, u);
    }
  }

  /** What is captured from a link on such a base: what the base has there, up to its '&' or on through the new scene. */
  lemma CapturedBehindOwnScene(own: Text, rest: Text, k: nat)
    requires k <= |own| && FirstStart(own + [HASH], 0) == Some(k) && AMPERSAND !in rest
    ensures FindScene(own + ([HASH] + rest))
      == Some(if AMPERSAND in own[k..] then Before(own[k..], AMPERSAND) else own[k..] + ([HASH] + rest))
  {
    var long := own + ([HASH] + rest);
    SameFirstStart(own, rest, 0);
    assert long[k..] == own[k..] + ([HASH] + rest);
    if AMPERSAND in own[k..] {
      BeforeInFront(own[k..], [HASH] + rest, AMPERSAND);
    } else {
      BeforeNothing(own[k..] + ([HASH] + rest), AMPERSAND);
    }
  }

  lemma {:induction false} TrimLeftStops(x: Text, y: Text)
    requires y != [] && !IsSpace(y[0])
    ensures TrimLeft(x + y) == TrimLeft(x) + y
  {
    if x == [] {
      assert x + y == y;
    } else if IsSpace(x[0]) {
      assert (x + y)[1..] == x[1..] + y;
      TrimLeftStops(x[1..], y);
    }
  }

  /** A capture that runs through a '#' into another payload is not decoded. */
  lemma RunOnCapturesAreNotRead(x: Text, rest: Text)
    requires rest != [] && !IsSpace(rest[|rest| - 1]) && rest[|rest| - 1] != CLOSE_BRACE
    ensures Deserialize(x + ([HASH] + rest)) == None
  {
    var y := [HASH] + rest;
    TrimLeftStops(x, y);
    var t := TrimLeft(x) + y;
    assert t[|t| - 1] == rest[|rest| - 1] && TrimRight(t) == t;
    assert t[|TrimLeft(x)|] == HASH;
    HashesAreNotDecoded(t, |TrimLeft(x)|);
  }

  lemma ScenePayloads(json: Text) returns (rest: Text)
    requires json != []
    ensures rest == SCENE + Serialize(json) && PERCENT !in rest && AMPERSAND !in rest
    ensures rest != [] && !IsSpace(rest[|rest| - 1]) && rest[|rest| - 1] != CLOSE_BRACE
  {
    var p := Serialize(json);
    rest := SCENE + p;
    PayloadsArePlain(json);
    Base64.UrlFormIsUrlSafe(Utf8.Encode(json));
    assert rest[|rest| - 1] == p[|p| - 1] && Base64.UrlSafe(p[|p| - 1]);
    assert forall u :: u in SCENE ==> u != AMPERSAND && u != PERCENT;
  }

  lemma FragmentsAreParts(base: Text, k: nat)
    requires HASH in base && k <= |Fragment(base)|
    ensures forall u :: u in Fragment(base)[k..] ==> u in base
  {
  }

  /** A text in front of a plain tail, '#' first, is unescaped to a text in front of that tail, or not at all. */
  predicate KeepsTail(unescape: Text -> Option<Text>, x: Text, tail: Text) {
    match unescape(x + tail)
    case None => true
    case Some(r) => |tail| <= |r| && r[|r| - |tail|..] == tail
  }

  /** `decodeURIComponent` decodes from left to right and leaves what is not an escape in its place. */
  ghost predicate KeepsPlainTails(unescape: Text -> Option<Text>) {
    forall x: Text, tail: Text :: tail != [] && tail[0] == HASH && PERCENT !in tail ==> KeepsTail(unescape, x, tail)
  }

  /** The rules of percent-decoding matter only to bases that hold a percent sign. */
  ghost predicate DecodesFairly(unescape: Text -> Option<Text>, base: Text) {
    PERCENT !in base || KeepsPlainTails(unescape)
  }

  /** What parsing a link on a base with a scene of its own yields, the new scene notwithstanding. */
  function OwnSceneRead(unescape: Text -> Option<Text>, own: Text, k: nat): Option<Text>
    requires k <= |own|
  {
    if AMPERSAND in own[k..] then CaptureRead(unescape, Before(own[k..], AMPERSAND)) else None
  }

  function CaptureRead(unescape: Text -> Option<Text>, capture: Text): Option<Text> {
    match DecodeUri(unescape, capture)
    case None => None
    case Some(payload) => Deserialize(payload)
  }

  lemma FoundCaptureIsRead(unescape: Text -> Option<Text>, url: Text, capture: Text)
    requires url != [] && FindScene(Fragment(url)) == Some(capture)
    ensures ParseUrl(unescape, url) == CaptureRead(unescape, capture)
  {
  }

  /** A capture that runs on through the new scene is not read, whatever its escapes are. */
  lemma RunOnCaptureIsNotRead(unescape: Text -> Option<Text>, x: Text, rest: Text)
    requires DecodesFairly(unescape, x) && PERCENT !in rest
    requires rest != [] && !IsSpace(rest[|rest| - 1]) && rest[|rest| - 1] != CLOSE_BRACE
    ensures CaptureRead(unescape, x + ([HASH] + rest)) == None
  {
    var tail := [HASH] + rest;
    if PERCENT in x {
      assert KeepsTail(unescape, x, tail);
      match unescape(x + tail)
      case None =>
      case Some(r) =>
        var front := r[..|r| - |tail|];
        assert r == front + tail;
        RunOnCapturesAreNotRead(front, rest);
    } else {
      RunOnCapturesAreNotRead(x, rest);
    }
  }

  lemma OwnSceneIsFirst(unescape: Text -> Option<Text>, url: Text, own: Text, rest: Text, k: nat)
    requires url != [] && Fragment(url) == own + ([HASH] + rest) && k <= |own| && FirstStart(own + [HASH], 0) == Some(k)
    requires DecodesFairly(unescape, own[k..]) && PERCENT !in rest && AMPERSAND !in rest
    requires rest != [] && !IsSpace(rest[|rest| - 1]) && rest[|rest| - 1] != CLOSE_BRACE
    ensures ParseUrl(unescape, url) == OwnSceneRead(unescape, own, k)
  {
    CapturedBehindOwnScene(own, rest, k);
    if AMPERSAND in own[k..] {
      FoundCaptureIsRead(unescape, url, Before(own[k..], AMPERSAND));
    } else {
      FoundCaptureIsRead(unescape, url, own[k..] + ([HASH] + rest));
      RunOnCaptureIsNotRead(unescape, own[k..], rest);
    }
  }

  lemma OwnLinkFragment(base: Text, json: Text, rest: Text)
    requires CleanBase(base) == base && HASH in base && rest == SCENE + Serialize(json)
    ensures DeepLink(base, json) != [] && Fragment(DeepLink(base, json)) == Fragment(base) + ([HASH] + rest)
  {
    assert [HASH] + SCENE + Serialize(json) == [HASH] + rest;
    FragmentOfWholeBase(base, rest);
  }

  lemma OwnSceneIsParsed(unescape: Text -> Option<Text>, base: Text, json: Text, own: Text, k: nat)
    requires DecodesFairly(unescape, base) && json != []
    requires CleanBase(base) == base && HASH in base && own == Fragment(base)
    requires k <= |own| && FirstStart(own + [HASH], 0) == Some(k)
    ensures ParseUrl(unescape, DeepLink(base, json)) == OwnSceneRead(unescape, own, k)
  {
    var rest := ScenePayloads(json);
    OwnLinkFragment(base, json, rest);
    FragmentsAreParts(base, k);
    OwnSceneIsFirst(unescape, DeepLink(base, json), own, rest, k);
  }

  /**
   From a base that leaves no room every link reads the same, whatever scene it was made for: the scene the base brought,
   if a '&' ends it, and otherwise nothing.
   */
  lemma OldScenesSpoilLinks(unescape: Text -> Option<Text>, base: Text) returns (own: Text, k: nat)
    requires DecodesFairly(unescape, base) && !LeavesRoom(base)
    ensures own == OwnFragment(base) && k <= |own| && FirstStart(own + [HASH], 0) == Some(k)
    ensures forall json :: json != [] ==> ParseUrl(unescape, DeepLink(base, json)) == OwnSceneRead(unescape, own, k)
  {
    own, k := OwnSceneStarts(base);
    forall json: Text | json != [] ensures ParseUrl(unescape, DeepLink(base, json)) == OwnSceneRead(unescape, own, k) {
      OwnSceneIsParsed(unescape, base, json, own, k);
    }
  }

  /** Every scene comes back from links on a base. */
  ghost predicate Returns(unescape: Text -> Option<Text>, base: Text) {
    forall json :: Strings.WellFormed(json) && json != [] ==> ParseUrl(unescape, DeepLink(base, json)) == Some(DropMark(json))
  }

  /** Exactly the bases that leave room give every scene back. */
  lemma LinksComeBackExactly(unescape: Text -> Option<Text>, base: Text)
    requires DecodesFairly(unescape, base)
    ensures Returns(unescape, base) <==> LeavesRoom(base)
  {
    if LeavesRoom(base) {
      forall json | Strings.WellFormed(json) && json != [] ensures ParseUrl(unescape, DeepLink(base, json)) == Some(DropMark(json)) {
        LinksRoundTrip(unescape, base, json);
      }
    } else {
      var own, k := OldScenesSpoilLinks(unescape, base);
      var one, other := Ascii("1"), Ascii("2");
      Strings.AsciiIsWellFormed(one);
      Strings.AsciiIsWellFormed(other);
      assert one[0] != other[0];
      assert ParseUrl(unescape, DeepLink(base, one)) == ParseUrl(unescape, DeepLink(base, other));
    }
  }

  lemma HashesAreNotDecoded(t: Text, i: nat)
    requires i < |t| && t[i] == HASH
    ensures Base64.FromUrl(t).None?
  {
    var p := Base64.Padded(Base64.Mapped(Base64.StandardSymbol, t));
    assert Base64.Mapped(Base64.StandardSymbol, t)[i] == HASH;
    assert p[i] == HASH && Base64.SextetOf(HASH).None?;
    NotDecoded(p, i);
  }

  lemma NotDecoded(p: Text, i: nat)
    requires i < |p| && p[i] == HASH
    ensures Base64.Decode(p).None?
  {
    forall q: Text | i < |q| && q <= p ensures Base64.DecodeBare(q).None? {
      assert q[i] == HASH && Base64.SextetOf(q[i]).None?;
    }
    if |p| % 4 == 0 && p[|p| - 1] == Base64.EQUALS {
      assert i < |p| - 1;
      if p[|p| - 2] == Base64.EQUALS {
        assert i < |p| - 2;
        assert p[..|p| - 2] <= p;
      } else {
        assert p[..|p| - 1] <= p;
      }
    } else {
      assert p <= p;
    }
  }

  // ----- bases -----

  /** What is left of a base: all of it when it begins with a '#' or a '?', and otherwise what is before the first of them. */
  lemma BasesAreCleanedExactly(base: Text)
    ensures var clean := CleanBase(base);
      && clean <= base
      && (base == [] || base[0] == 35 || base[0] == 63 ==> clean == base)
      && (base != [] && base[0] != 35 && base[0] != 63 ==>
            clean != [] && 35 !in clean && 63 !in clean && (clean == base || base[|clean|] == 35 || base[|clean|] == 63))
  {
    var first := Before(base, HASH);
    var clean := Before(first, QUESTION);
    if base != [] && base[0] != 35 && base[0] != 63 {
      assert first != [] && first[0] == base[0];
      assert forall x :: x in clean ==> x in first;
    }
  }

  // ----- other texts that are read -----

  predicate AllSpace(t: Text) { forall i :: 0 <= i < |t| ==> IsSpace(t[i]) }

  lemma {:induction false} SpaceBefore(space: Text, t: Text)
    requires AllSpace(space) && (t != [] ==> !IsSpace(t[0]))
    ensures TrimLeft(space + t) == t
  {
    if space == [] {
      assert space + t == t;
    } else {
      assert (space + t)[1..] == space[1..] + t;
      SpaceBefore(space[1..], t);
    }
  }

  lemma {:induction false} SpaceBehind(t: Text, space: Text)
    requires AllSpace(space) && (t != [] ==> !IsSpace(t[|t| - 1]))
    ensures TrimRight(t + space) == t
  {
    if space == [] {
      assert t + space == t;
    } else {
      assert (t + space)[..|t + space| - 1] == t + space[..|space| - 1];
      SpaceBehind(t, space[..|space| - 1]);
    }
  }

  predicate InBraces(t: Text) {
    |t| >= 2 && t[0] == OPEN_BRACE && t[|t| - 1] == CLOSE_BRACE
  }

  lemma SpaceIsTrimmed(left: Text, json: Text, right: Text)
    requires AllSpace(left) && AllSpace(right) && InBraces(json)
    ensures TrimRight(TrimLeft(left + (json + right))) == json
  {
    assert (json + right)[0] == json[0];
    SpaceBefore(left, json + right);
    SpaceBehind(json, right);
  }

  lemma BracedIsRead(json: Text)
    requires InBraces(json)
    ensures ReadTrimmed(json) == Some(json)
  {
  }

  /** A payload in braces, whatever space is around it, is taken for the JSON text itself. */
  lemma PlainScenesAreReadAsTheyAre(left: Text, json: Text, right: Text)
    requires AllSpace(left) && AllSpace(right) && InBraces(json)
    ensures Deserialize(left + (json + right)) == Some(json)
  {
    SpaceIsTrimmed(left, json, right);
    BracedIsRead(json);
  }

  /** No place of a text is one behind which a scene could begin. */
  predicate HasNoSeparator(t: Text) {
    AMPERSAND !in t && QUESTION !in t && HASH !in t
  }

  lemma NoSceneAtTheFront(t: Text)
    requires t != [] && t[0] != SCENE[0]
    ensures !SceneAt(t, 0)
  {
    assert |t| >= |SCENE| ==> t[0..|SCENE|][0] == t[0];
  }

  /** A scene is found behind each of the three separators. */
  lemma ScenesAreFoundBehindSeparators(before: Text, u: Unit, payload: Text)
    requires u == 38 || u == 63 || u == 35
    requires HasNoSeparator(before) && before != [] && before[0] != SCENE[0] && payload != [] && AMPERSAND !in payload
    ensures FindScene(before + ([u] + (SCENE + payload))) == Some(payload)
  {
    var t := before + ([u] + (SCENE + payload));
    SceneHasNoSeparator();
    forall k | 0 <= k < |before| ensures SceneStart(t, k).None? {
      assert t[k] == before[k] && before[k] in before;
      NoSceneAtTheFront(t);
    }
    assert t[|before|] == u;
    assert t[|before| + 1..|before| + 1 + |SCENE|] == SCENE && t[|before| + 1 + |SCENE|..] == payload;
    assert t[|before| + 1 + |SCENE|] == payload[0] && payload[0] in payload;
    BeforeNothing(payload, AMPERSAND);
    FirstMatch(t, 0, |before|);
  }
}
