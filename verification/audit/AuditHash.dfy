/**
 The texts whose digests chain the audit log (packages/governance/src/auditChainHash.ts), and why they commit to what
 they are made of.
 */
module AuditHash {
  import opened Prelude
  import opened Texts
  import opened KeyedLists
  import opened CanonicalJson
  import opened CanonicalParser
  import opened Hashing
  import Numbers
  import Strings

  const CHAIN_VERSION: string := "gev.audit.chain.v1"
  const EVENT_FORMAT: string := "gev.audit.event.v1"
  const LINK_FORMAT: string := "gev.audit.link.v1"
  const REDACTION_VERSION: string := "gev.audit.redaction.v1"
  const LEGACY_REDACTION_VERSION: string := "legacy-preserved-v0"

  /** A row of audit_events. */
  datatype EventRow = EventRow(
    id: Text,
    kind: Text,
    intentId: Option<Text>,
    ts: Text,
    actor: Option<Text>,
    action: Option<Text>,
    target: Option<Text>,
    params: Option<Text>,
    taskRef: Option<Text>,
    status: Option<Text>,
    result: Option<Text>,
    error: Option<Text>,
    duration: Option<Numbers.Num>)

  function Nullable(t: Option<Text>): Json {
    match t { case None => Null case Some(s) => Str(s) }
  }

  function NullableNumber(n: Option<Numbers.Num>): Json {
    match n { case None => Null case Some(m) => Number(m) }
  }

  function RowMembers(row: EventRow): seq<Keyed<Json>> {
    [ Keyed(Ascii("action"), Nullable(row.action)),
      Keyed(Ascii("actor"), Nullable(row.actor)),
      Keyed(Ascii("duration_ms"), NullableNumber(row.duration)),
      Keyed(Ascii("error"), Nullable(row.error)),
      Keyed(Ascii("id"), Str(row.id)),
      Keyed(Ascii("intent_id"), Nullable(row.intentId)),
      Keyed(Ascii("kind"), Str(row.kind)),
      Keyed(Ascii("params"), Nullable(row.params)),
      Keyed(Ascii("result"), Nullable(row.result)),
      Keyed(Ascii("status"), Nullable(row.status)),
      Keyed(Ascii("target"), Nullable(row.target)),
      Keyed(Ascii("task_ref"), Nullable(row.taskRef)),
      Keyed(Ascii("ts"), Str(row.ts)) ]
  }

  function PayloadMembers(row: EventRow, redaction: Text): seq<Keyed<Json>> {
    [ Keyed(Ascii("format"), Str(Ascii(EVENT_FORMAT))),
      Keyed(Ascii("redaction_version"), Str(redaction)),
      Keyed(Ascii("row"), Obj(RowMembers(row))) ]
  }

  function PayloadText(row: EventRow, redaction: Text): Text {
    Canonicalize(Obj(PayloadMembers(row, redaction)))
  }

  function LinkMembers(sequence: nat, previous: Text, payload: Text): seq<Keyed<Json>> {
    [ Keyed(Ascii("format"), Str(Ascii(LINK_FORMAT))),
      Keyed(Ascii("chain_version"), Str(Ascii(CHAIN_VERSION))),
      Keyed(Ascii("payload_hash"), Str(payload)),
      Keyed(Ascii("previous_hash"), Str(previous)),
      Keyed(Ascii("sequence"), Number(Numbers.OfNat(sequence))) ]
  }

  function LinkText(sequence: nat, previous: Text, payload: Text): Text {
    Canonicalize(Obj(LinkMembers(sequence, previous, payload)))
  }

  const GENESIS_TEXT: Text := Ascii(CHAIN_VERSION + ":genesis")

  /** The digests a chain is made of: of an event's payload, of a link, and the one it starts from. */
  datatype Digests = Digests(payload: (EventRow, Text) -> Digest, link: (nat, Text, Text) -> Digest, genesis: Digest)

  /** `computeAuditPayloadHash`, `computeAuditChainHash` and `AUDIT_GENESIS_HASH`. */
  function DigestsOf(sha: Hash): Digests {
    Digests((row, redaction) => sha(PayloadText(row, redaction)),
            (sequence, previous, payload) => sha(LinkText(sequence, previous, payload)),
            sha(GENESIS_TEXT))
  }

  // ----- the texts identify their contents -----

  lemma RowKeysAreFixed(a: EventRow, b: EventRow)
    ensures Keys(RowMembers(a)) == Keys(RowMembers(b))
  {
    var x, y := RowMembers(a), RowMembers(b);
    forall i | 0 <= i < |x| ensures x[i].key == y[i].key { }
    assert |Keys(x)| == |Keys(y)|;
  }

  lemma RowMembersIdentifyTheRow(a: EventRow, b: EventRow)
    requires forall i :: 0 <= i < 13 ==> RowMembers(a)[i].value == RowMembers(b)[i].value
    ensures a == b
  {
    var x, y := RowMembers(a), RowMembers(b);
    assert x[0].value == y[0].value && x[1].value == y[1].value && x[2].value == y[2].value && x[3].value == y[3].value;
    assert x[4].value == y[4].value && x[5].value == y[5].value && x[6].value == y[6].value && x[7].value == y[7].value;
    assert x[8].value == y[8].value && x[9].value == y[9].value && x[10].value == y[10].value && x[11].value == y[11].value;
    assert x[12].value == y[12].value;
  }

  lemma ScalarsAreNormal(row: EventRow, i: nat)
    requires i < 13
    ensures Normalize(RowMembers(row)[i].value) == RowMembers(row)[i].value
  {
  }

  lemma NormalRowsIdentifyTheRow(a: EventRow, b: EventRow)
    requires Normalize(Obj(RowMembers(a))) == Normalize(Obj(RowMembers(b)))
    ensures a == b
  {
    var x, y := RowMembers(a), RowMembers(b);
    CanonicalizePrintsNormalForm(Obj(x));
    CanonicalizePrintsNormalForm(Obj(y));
    RowKeysAreFixed(a, b);
    SameShapeSameValues(x, y);
    forall i | 0 <= i < 13 ensures x[i].value == y[i].value {
      ScalarsAreNormal(a, i);
      ScalarsAreNormal(b, i);
    }
    RowMembersIdentifyTheRow(a, b);
  }

  /** The payload text holds every column of the event and its redaction version. */
  lemma PayloadTextIdentifies(a: EventRow, v: Text, b: EventRow, w: Text)
    requires PayloadText(a, v) == PayloadText(b, w)
    ensures a == b && v == w
  {
    var x, y := PayloadMembers(a, v), PayloadMembers(b, w);
    assert Keys(x) == Keys(y);
    SameShapeSameValues(x, y);
    assert Normalize(x[1].value) == Normalize(y[1].value);
    assert Normalize(x[2].value) == Normalize(y[2].value);
    NormalRowsIdentifyTheRow(a, b);
  }

  /** The link text holds the sequence, the previous hash and the payload hash. */
  lemma LinkTextIdentifies(m: nat, p: Text, x: Text, n: nat, q: Text, y: Text)
    requires LinkText(m, p, x) == LinkText(n, q, y)
    ensures m == n && p == q && x == y
  {
    var a, b := LinkMembers(m, p, x), LinkMembers(n, q, y);
    assert Keys(a) == Keys(b);
    SameShapeSameValues(a, b);
    assert Normalize(a[2].value) == Normalize(b[2].value);
    assert Normalize(a[3].value) == Normalize(b[3].value);
    assert Normalize(a[4].value) == Normalize(b[4].value);
    Numbers.OfNatIsInjective(m, n);
  }

  lemma LinkTextIsWellFormed(m: nat, p: Text, x: Text)
    ensures Strings.WellFormed(LinkText(m, p, x))
  {
    CanonicalTextIsWellFormed(Obj(LinkMembers(m, p, x)));
  }

  lemma GenesisIsWellFormed()
    ensures Strings.WellFormed(GENESIS_TEXT)
  {
    Strings.AsciiIsWellFormed(GENESIS_TEXT);
  }

  // ----- the digests commit to their contents -----

  /** What a chain hashes. */
  datatype Content =
    | GenesisContent
    | PayloadContent(row: EventRow, redaction: Text)
    | LinkContent(sequence: nat, previous: Text, payload: Text)

  function TextOf(c: Content): Text {
    match c
    case GenesisContent => GENESIS_TEXT
    case PayloadContent(row, redaction) => PayloadText(row, redaction)
    case LinkContent(sequence, previous, payload) => LinkText(sequence, previous, payload)
  }

  function DigestIn(d: Digests, c: Content): Digest {
    match c
    case GenesisContent => d.genesis
    case PayloadContent(row, redaction) => d.payload(row, redaction)
    case LinkContent(sequence, previous, payload) => d.link(sequence, previous, payload)
  }

  lemma SameTextSameSize(x: seq<Keyed<Json>>, y: seq<Keyed<Json>>)
    requires Canonicalize(Obj(x)) == Canonicalize(Obj(y))
    ensures |x| == |y|
  {
    ParseCanonical(Obj(x));
    ParseCanonical(Obj(y));
  }

  lemma PayloadsAreNoLinks(row: EventRow, redaction: Text, m: nat, p: Text, x: Text)
    ensures PayloadText(row, redaction) != LinkText(m, p, x)
  {
    if PayloadText(row, redaction) == LinkText(m, p, x) {
      SameTextSameSize(PayloadMembers(row, redaction), LinkMembers(m, p, x));
    }
  }

  lemma GenesisIsNoObject(ms: seq<Keyed<Json>>)
    ensures Canonicalize(Obj(ms)) != GENESIS_TEXT
  {
    assert GENESIS_TEXT[0] == 103;
  }

  /** A hashed text identifies what it is the text of. */
  lemma TextsIdentifyContents(x: Content, y: Content)
    requires TextOf(x) == TextOf(y)
    ensures x == y
  {
    match (x, y)
    case (GenesisContent, GenesisContent) =>
    case (PayloadContent(a, v), PayloadContent(b, w)) => PayloadTextIdentifies(a, v, b, w);
    case (LinkContent(m, p, h), LinkContent(n, q, k)) => LinkTextIdentifies(m, p, h, n, q, k);
    case (PayloadContent(a, v), LinkContent(n, q, k)) => PayloadsAreNoLinks(a, v, n, q, k);
    case (LinkContent(m, p, h), PayloadContent(b, w)) => PayloadsAreNoLinks(b, w, m, p, h);
    case (GenesisContent, PayloadContent(b, w)) => GenesisIsNoObject(PayloadMembers(b, w));
    case (PayloadContent(a, v), GenesisContent) => GenesisIsNoObject(PayloadMembers(a, v));
    case (GenesisContent, LinkContent(n, q, k)) => GenesisIsNoObject(LinkMembers(n, q, k));
    case (LinkContent(m, p, h), GenesisContent) => GenesisIsNoObject(LinkMembers(m, p, h));
  }

  lemma TextsAreWellFormed(c: Content)
    ensures Strings.WellFormed(TextOf(c))
  {
    match c
    case GenesisContent => GenesisIsWellFormed();
    case PayloadContent(row, redaction) => CanonicalTextIsWellFormed(Obj(PayloadMembers(row, redaction)));
    case LinkContent(sequence, previous, payload) => LinkTextIsWellFormed(sequence, previous, payload);
  }

  /** Equal digests of the source come from equal contents, or the two texts are a collision of SHA-256. */
  lemma DigestsCommit(sha: Hash, x: Content, y: Content)
    requires DigestIn(DigestsOf(sha), x) == DigestIn(DigestsOf(sha), y)
    ensures x == y || Collides(sha, TextOf(x), TextOf(y))
  {
    if TextOf(x) == TextOf(y) {
      TextsIdentifyContents(x, y);
    } else {
      TextsAreWellFormed(x);
      TextsAreWellFormed(y);
    }
  }

  /** Equal digests of what is in two sets come from equal contents. */
  ghost predicate Apart(d: Digests, a: set<Content>, b: set<Content>) {
    forall x, y :: x in a && y in b && DigestIn(d, x) == DigestIn(d, y) ==> x == y
  }

  function TextsOf(contents: set<Content>): set<Text> {
    set c | c in contents :: TextOf(c)
  }

  lemma ApartUnlessTheyCollide(sha: Hash, a: set<Content>, b: set<Content>)
    ensures Apart(DigestsOf(sha), a, b) || CollisionAmong(sha, TextsOf(a), TextsOf(b))
  {
    forall x, y | x in a && y in b && DigestIn(DigestsOf(sha), x) == DigestIn(DigestsOf(sha), y) && x != y
      ensures CollisionAmong(sha, TextsOf(a), TextsOf(b))
    {
      DigestsCommit(sha, x, y);
      assert TextOf(x) in TextsOf(a) && TextOf(y) in TextsOf(b);
    }
  }
}
