/**
 The tables of the audit chain, the keys that sign retention receipts, and what makes a stored chain intact
 (packages/governance/src/auditChainStore.ts, auditRetention.ts, auditChainMigration.ts).
 */
module AuditModel {
  import opened Prelude
  import opened Texts
  import opened KeyedLists
  import opened CanonicalJson
  import opened CanonicalParser
  import opened Hashing
  import opened AuditHash
  import opened Base64
  import Numbers
  import Strings

  const MAX_SAFE: int := 9007199254740991
  const SCHEMA_VERSION: nat := 6
  const RETENTION_FORMAT: string := "gev.audit.retention.v1"

  /** A row of governance_audit_chain. */
  datatype Link = Link(
    sequence: int,
    eventId: Text,
    chainVersion: Text,
    redaction: Text,
    previousHash: Text,
    payloadHash: Text,
    chainHash: Text,
    appendedAt: int)

  /** The row of governance_audit_chain_state. */
  datatype ChainState = ChainState(
    chainVersion: Text,
    genesisHash: Text,
    anchorSequence: int,
    anchorHash: Text,
    headSequence: int,
    headHash: Text,
    lastReceipt: Option<Text>)

  /** A row of governance_audit_retention_receipts. */
  datatype Receipt = Receipt(
    receiptId: Text,
    format: Text,
    chainVersion: Text,
    previousReceipt: Option<Text>,
    previousAnchorSequence: int,
    previousAnchorHash: Text,
    prunedThrough: int,
    prunedHash: Text,
    retainedFrom: int,
    headSequence: int,
    headHash: Text,
    approvedAt: Text,
    approvedBy: Text,
    reason: Text,
    signerId: Text,
    keyId: Text,
    algorithm: Text,
    signature: Text,
    payloadJson: Text)

  /**
   The audit tables. Links stand in the order of their sequence, receipts in the order of their cutoff, events in the
   order they were inserted, as the queries of the source read them.
   */
  datatype Store = Store(schema: nat, state: Option<ChainState>, receipts: seq<Receipt>, links: seq<Link>, events: seq<EventRow>)

  function FindEvent(events: seq<EventRow>, id: Text): (r: Option<EventRow>)
    ensures r.Some? ==> r.value in events && r.value.id == id
    ensures r.None? ==> forall e :: e in events ==> e.id != id
  {
    if events == [] then None
    else if events[|events| - 1].id == id then Some(events[|events| - 1])
    else FindEvent(events[..|events| - 1], id)
  }

  // ----- keys -----

  datatype KeyStatus = Active | Retired | Revoked

  datatype Key = Key(signerId: Text, keyId: Text, publicKey: Text, status: KeyStatus,
                     validFrom: Option<Text>, validUntil: Option<Text>, revokedAt: Option<Text>)

  /** The keys that are trusted, `Date.parse`, and the verification of Ed25519 signatures. */
  datatype Trust = Trust(keys: seq<Key>, dateOf: Text -> Option<int>, verify: (Text, Text, seq<Byte>) -> bool)

  /** An optional date that the source takes for given: an empty text is not. */
  predicate Given(t: Option<Text>) { t.Some? && t.value != [] }

  function FindKey(keys: seq<Key>, signerId: Text, keyId: Text): (r: Option<Key>)
    ensures r.Some? ==> r.value in keys && r.value.signerId == signerId && r.value.keyId == keyId
  {
    if keys == [] then None
    else if keys[0].signerId == signerId && keys[0].keyId == keyId then Some(keys[0])
    else FindKey(keys[1..], signerId, keyId)
  }

  /** `keyValidAt`. */
  predicate KeyValidAt(dateOf: Text -> Option<int>, key: Key, at: Text, requireActive: bool) {
    match dateOf(at)
    case None => false
    case Some(time) =>
      && (requireActive ==> key.status == Active)
      && (key.status == Revoked ==>
            Given(key.revokedAt) && dateOf(key.revokedAt.value).Some? && time < dateOf(key.revokedAt.value).value)
      && (Given(key.validFrom) ==> dateOf(key.validFrom.value).Some? && dateOf(key.validFrom.value).value <= time)
      && (Given(key.validUntil) ==> dateOf(key.validUntil.value).Some? && time <= dateOf(key.validUntil.value).value)
  }

  // ----- receipts -----

  function OfInt(n: int): Numbers.Num {
    if n >= 0 then Numbers.OfNat(n)
    else match Numbers.OfNat(-n) { case Dec(_, ds, point) => Numbers.Dec(true, ds, point) case Zero => Numbers.Zero }
  }

  function ReceiptMembers(r: Receipt): seq<Keyed<Json>> {
    [ Keyed(Ascii("algorithm"), Str(r.algorithm)),
      Keyed(Ascii("approved_at"), Str(r.approvedAt)),
      Keyed(Ascii("approved_by"), Str(r.approvedBy)),
      Keyed(Ascii("chain_version"), Str(r.chainVersion)),
      Keyed(Ascii("format"), Str(r.format)),
      Keyed(Ascii("head_hash"), Str(r.headHash)),
      Keyed(Ascii("head_sequence"), Number(OfInt(r.headSequence))),
      Keyed(Ascii("key_id"), Str(r.keyId)),
      Keyed(Ascii("previous_anchor_hash"), Str(r.previousAnchorHash)),
      Keyed(Ascii("previous_anchor_sequence"), Number(OfInt(r.previousAnchorSequence))),
      Keyed(Ascii("previous_receipt_id"), Nullable(r.previousReceipt)),
      Keyed(Ascii("pruned_through_hash"), Str(r.prunedHash)),
      Keyed(Ascii("pruned_through_sequence"), Number(OfInt(r.prunedThrough))),
      Keyed(Ascii("reason"), Str(r.reason)),
      Keyed(Ascii("receipt_id"), Str(r.receiptId)),
      Keyed(Ascii("retained_from_sequence"), Number(OfInt(r.retainedFrom))),
      Keyed(Ascii("signer_id"), Str(r.signerId)) ]
  }

  /** `canonicalReceiptPayload`: what is signed, everything but the signature and its own text. */
  function ReceiptPayload(r: Receipt): Text {
    Canonicalize(Obj(ReceiptMembers(r)))
  }

  /** `signatureBytes`: the one spelling of 64 bytes. */
  function SignatureBytes(signature: Text): Option<seq<Byte>> {
    match FromUrl(signature)
    case None => None
    case Some(bytes) => if |bytes| == 64 && ToUrl(bytes) == signature then Some(bytes) else None
  }

  /** `verifyReceiptSignature`. */
  predicate Signed(trust: Trust, r: Receipt, payload: Text) {
    var key := FindKey(trust.keys, r.signerId, r.keyId);
    var signature := SignatureBytes(r.signature);
    && key.Some? && signature.Some? && KeyValidAt(trust.dateOf, key.value, r.approvedAt, false)
    && trust.verify(payload, key.value.publicKey, signature.value)
  }

  /** Where a history stands: what is pruned so far and the receipt that says so. */
  datatype Anchor = Anchor(sequence: int, hash: Text, receipt: Option<Text>)

  function AnchorAfter(d: Digests, receipts: seq<Receipt>): Anchor {
    if receipts == [] then Anchor(0, d.genesis, None)
    else
      var last := receipts[|receipts| - 1];
      Anchor(last.prunedThrough, last.prunedHash, Some(last.receiptId))
  }

  datatype FailureCode =
    | ChainSchemaMissing
    | UnsupportedVersion
    | StateMissing
    | MalformedRow
    | SequenceGap
    | PreviousHashMismatch
    | PayloadHashMismatch
    | ChainHashMismatch
    | HeadMismatch
    | UnchainedEvent
    | MissingEvent
    | RetentionBoundaryMismatch
    | RetentionSignatureInvalid

  datatype Fault = Fault(code: FailureCode, sequence: Option<int>)

  function Max(a: int, b: int): int { if a >= b then a else b }

  /** A receipt continues the history from an anchor: it starts there, moves on, and names its predecessor. */
  predicate Continues(r: Receipt, a: Anchor) {
    && r.format == Ascii(RETENTION_FORMAT) && r.chainVersion == Ascii(CHAIN_VERSION)
    && r.algorithm == Ascii("Ed25519") && r.approvedBy == Ascii("human")
    && r.previousAnchorSequence == a.sequence && r.previousAnchorHash == a.hash && r.previousReceipt == a.receipt
    && r.prunedThrough > a.sequence && r.retainedFrom == r.prunedThrough + 1 && r.headSequence >= r.prunedThrough
    && IsDigest(r.prunedHash) && IsDigest(r.headHash)
  }

  predicate Attested(trust: Trust, r: Receipt) {
    ReceiptPayload(r) == r.payloadJson && Signed(trust, r, ReceiptPayload(r))
  }

  /** What is wrong with a receipt at an anchor. */
  function ReceiptFault(trust: Trust, r: Receipt, a: Anchor): Option<Fault> {
    if !Continues(r, a) then Some(Fault(RetentionBoundaryMismatch, Some(Max(1, r.prunedThrough))))
    else if !Attested(trust, r) then Some(Fault(RetentionSignatureInvalid, Some(r.prunedThrough)))
    else None
  }

  /** Every receipt continues the ones before it and is signed by a trusted key. */
  predicate HistoryHolds(d: Digests, trust: Trust, receipts: seq<Receipt>) {
    receipts == [] ||
    (var earlier := receipts[..|receipts| - 1];
     HistoryHolds(d, trust, earlier) && ReceiptFault(trust, receipts[|receipts| - 1], AnchorAfter(d, earlier)).None?)
  }

  predicate Anchored(s: ChainState, a: Anchor) {
    s.anchorSequence == a.sequence && s.anchorHash == a.hash && s.lastReceipt == a.receipt
  }

  // ----- links -----

  predicate Safe(n: int) { -MAX_SAFE <= n <= MAX_SAFE }

  predicate ValidState(d: Digests, s: ChainState) {
    && s.chainVersion == Ascii(CHAIN_VERSION) && s.genesisHash == d.genesis
    && 0 <= s.anchorSequence <= s.headSequence <= MAX_SAFE
    && IsDigest(s.anchorHash) && IsDigest(s.headHash)
  }

  predicate WellFormedLink(l: Link) {
    && 1 <= l.sequence <= MAX_SAFE && l.chainVersion == Ascii(CHAIN_VERSION)
    && IsDigest(l.previousHash) && IsDigest(l.payloadHash) && IsDigest(l.chainHash)
  }

  /** What is wrong with a link at its place in the chain, in the order in which it is looked for. */
  function LinkFault(d: Digests, events: seq<EventRow>, l: Link, expected: nat, previous: Text): Option<Fault> {
    if !WellFormedLink(l) then Some(Fault(MalformedRow, if Safe(l.sequence) then Some(l.sequence) else None))
    else if l.sequence != expected then Some(Fault(SequenceGap, Some(expected)))
    else if l.previousHash != previous then Some(Fault(PreviousHashMismatch, Some(l.sequence)))
    else match FindEvent(events, l.eventId)
      case None => Some(Fault(MissingEvent, Some(l.sequence)))
      case Some(event) =>
        var payload := d.payload(event, l.redaction);
        if payload != l.payloadHash then Some(Fault(PayloadHashMismatch, Some(l.sequence)))
        else if d.link(l.sequence, previous, payload) != l.chainHash then Some(Fault(ChainHashMismatch, Some(l.sequence)))
        else None
  }

  /** The hash the next link has to name. */
  function TipHash(anchorHash: Text, links: seq<Link>): Text {
    if links == [] then anchorHash else links[|links| - 1].chainHash
  }

  /** Every link is intact: numbered from the anchor on, naming the hash before it, with the hashes of its event. */
  predicate LinksHold(d: Digests, events: seq<EventRow>, anchor: nat, anchorHash: Text, links: seq<Link>) {
    links == [] ||
    (var earlier := links[..|links| - 1];
     LinksHold(d, events, anchor, anchorHash, earlier)
     && LinkFault(d, events, links[|links| - 1], anchor + |links|, TipHash(anchorHash, earlier)).None?)
  }

  ghost predicate IsChained(links: seq<Link>, e: EventRow) {
    exists k :: 0 <= k < |links| && links[k].eventId == e.id
  }

  ghost predicate AllChained(s: Store) {
    forall i :: 0 <= i < |s.events| ==> IsChained(s.links, s.events[i])
  }

  /** The links hang together from the anchor to the head. */
  predicate Hangs(d: Digests, s: Store) {
    s.state.Some? &&
    var state := s.state.value;
    && 0 <= state.anchorSequence
    && LinksHold(d, s.events, state.anchorSequence, state.anchorHash, s.links)
    && state.headSequence == state.anchorSequence + |s.links|
    && state.headHash == TipHash(state.anchorHash, s.links)
  }

  /** The signed retentions account for everything up to the anchor. */
  predicate Accounted(d: Digests, trust: Trust, s: Store) {
    s.state.Some? && HistoryHolds(d, trust, s.receipts) && Anchored(s.state.value, AnchorAfter(d, s.receipts))
  }

  /** A stored chain as it should be. */
  ghost predicate Sound(d: Digests, trust: Trust, s: Store) {
    && s.schema == SCHEMA_VERSION
    && s.state.Some? && ValidState(d, s.state.value)
    && Accounted(d, trust, s)
    && Hangs(d, s)
    && AllChained(s)
  }

  // ----- the receipt text identifies what was signed -----

  lemma OfIntIsInjective(m: int, n: int)
    requires OfInt(m) == OfInt(n)
    ensures m == n
  {
    if m >= 0 && n >= 0 {
      Numbers.OfNatIsInjective(m, n);
    } else if m < 0 && n < 0 {
      Numbers.OfNatIsInjective(-m, -n);
    }
  }

  lemma ReceiptKeyIsFixed(a: Receipt, b: Receipt, i: nat)
    requires i < 17
    ensures ReceiptMembers(a)[i].key == ReceiptMembers(b)[i].key
  {
  }

  lemma SameKeys(x: seq<Keyed<Json>>, y: seq<Keyed<Json>>)
    requires |x| == |y| && forall i :: 0 <= i < |x| ==> x[i].key == y[i].key
    ensures Keys(x) == Keys(y)
  {
  }

  lemma ReceiptKeysAreFixed(a: Receipt, b: Receipt)
    ensures Keys(ReceiptMembers(a)) == Keys(ReceiptMembers(b))
  {
    forall i | 0 <= i < 17 ensures ReceiptMembers(a)[i].key == ReceiptMembers(b)[i].key { ReceiptKeyIsFixed(a, b, i); }
    SameKeys(ReceiptMembers(a), ReceiptMembers(b));
  }

  predicate SameValues(a: Receipt, b: Receipt) {
    forall i :: 0 <= i < 17 ==> ReceiptMembers(a)[i].value == ReceiptMembers(b)[i].value
  }

  lemma ReceiptTextsAgree(a: Receipt, b: Receipt)
    requires SameValues(a, b)
    ensures a.algorithm == b.algorithm && a.approvedAt == b.approvedAt && a.approvedBy == b.approvedBy
    ensures a.chainVersion == b.chainVersion && a.format == b.format && a.headHash == b.headHash && a.keyId == b.keyId
    ensures a.previousAnchorHash == b.previousAnchorHash && a.previousReceipt == b.previousReceipt
    ensures a.prunedHash == b.prunedHash && a.reason == b.reason && a.receiptId == b.receiptId && a.signerId == b.signerId
  {
    var x, y := ReceiptMembers(a), ReceiptMembers(b);
    assert x[0].value == y[0].value && x[1].value == y[1].value && x[2].value == y[2].value && x[3].value == y[3].value;
    assert x[4].value == y[4].value && x[5].value == y[5].value && x[7].value == y[7].value && x[8].value == y[8].value;
    assert x[10].value == y[10].value && x[11].value == y[11].value && x[13].value == y[13].value;
    assert x[14].value == y[14].value && x[16].value == y[16].value;
  }

  /** Where the numbers of a receipt stand. */
  predicate HasNumbers(r: Receipt, ms: seq<Keyed<Json>>) {
    && |ms| == 17
    && ms[6].value == Number(OfInt(r.headSequence)) && ms[9].value == Number(OfInt(r.previousAnchorSequence))
    && ms[12].value == Number(OfInt(r.prunedThrough)) && ms[15].value == Number(OfInt(r.retainedFrom))
  }

  lemma ReceiptHasEarlierNumbers(r: Receipt)
    ensures ReceiptMembers(r)[6].value == Number(OfInt(r.headSequence))
    ensures ReceiptMembers(r)[9].value == Number(OfInt(r.previousAnchorSequence))
  {
  }

  lemma ReceiptHasLaterNumbers(r: Receipt)
    ensures ReceiptMembers(r)[12].value == Number(OfInt(r.prunedThrough))
    ensures ReceiptMembers(r)[15].value == Number(OfInt(r.retainedFrom))
  {
  }

  lemma ReceiptHasNumbers(r: Receipt)
    ensures HasNumbers(r, ReceiptMembers(r))
  {
    ReceiptHasEarlierNumbers(r);
    ReceiptHasLaterNumbers(r);
  }

  lemma EqualNumbers(a: Receipt, b: Receipt, x: seq<Keyed<Json>>, y: seq<Keyed<Json>>)
    requires HasNumbers(a, x) && HasNumbers(b, y) && forall i :: 0 <= i < 17 ==> x[i].value == y[i].value
    ensures a.headSequence == b.headSequence && a.previousAnchorSequence == b.previousAnchorSequence
    ensures a.prunedThrough == b.prunedThrough && a.retainedFrom == b.retainedFrom
  {
    OfIntIsInjective(a.headSequence, b.headSequence);
    OfIntIsInjective(a.previousAnchorSequence, b.previousAnchorSequence);
    OfIntIsInjective(a.prunedThrough, b.prunedThrough);
    OfIntIsInjective(a.retainedFrom, b.retainedFrom);
  }

  lemma ReceiptNumbersAgree(a: Receipt, b: Receipt)
    requires SameValues(a, b)
    ensures a.headSequence == b.headSequence && a.previousAnchorSequence == b.previousAnchorSequence
    ensures a.prunedThrough == b.prunedThrough && a.retainedFrom == b.retainedFrom
  {
    ReceiptHasNumbers(a);
    ReceiptHasNumbers(b);
    EqualNumbers(a, b, ReceiptMembers(a), ReceiptMembers(b));
  }

  lemma ReceiptMembersIdentify(a: Receipt, b: Receipt)
    requires SameValues(a, b)
    ensures a.(signature := b.signature, payloadJson := b.payloadJson) == b
  {
    ReceiptTextsAgree(a, b);
    ReceiptNumbersAgree(a, b);
  }

  lemma ReceiptScalarsAreNormal(r: Receipt, i: nat)
    requires i < 17
    ensures Normalize(ReceiptMembers(r)[i].value) == ReceiptMembers(r)[i].value
  {
  }

  /** Two receipts with the same signed text agree on every signed field. */
  lemma SignedTextIdentifies(a: Receipt, b: Receipt)
    requires ReceiptPayload(a) == ReceiptPayload(b)
    ensures a.(signature := b.signature, payloadJson := b.payloadJson) == b
  {
    ReceiptKeysAreFixed(a, b);
    SameShapeSameValues(ReceiptMembers(a), ReceiptMembers(b));
    forall i | 0 <= i < 17 ensures ReceiptMembers(a)[i].value == ReceiptMembers(b)[i].value {
      ReceiptScalarsAreNormal(a, i);
      ReceiptScalarsAreNormal(b, i);
    }
    ReceiptMembersIdentify(a, b);
  }

  /** A signature text stands for 64 bytes exactly when it is their URL-safe spelling. */
  lemma SignatureTextsAreSpellings(signature: Text)
    ensures SignatureBytes(signature).Some? <==> exists bytes: seq<Byte> :: |bytes| == 64 && ToUrl(bytes) == signature
  {
    forall bytes: seq<Byte> | |bytes| == 64 && ToUrl(bytes) == signature ensures SignatureBytes(signature).Some? {
      UrlRoundTrip(bytes);
    }
  }
}
