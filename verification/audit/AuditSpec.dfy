/**
 Appending, pruning with a signed receipt, and the migration that chains an old log, as functions on the tables. None
 stands for an error; the transaction leaves the tables as they were.
 */
module AuditSpec {
  import opened Prelude
  import opened Texts
  import opened Hashing
  import opened AuditHash
  import opened AuditModel
  import opened Base64

  function FindLink(links: seq<Link>, sequence: int): (r: Option<Link>)
    ensures r.Some? ==> r.value in links && r.value.sequence == sequence
    ensures r.None? ==> forall l :: l in links ==> l.sequence != sequence
  {
    if links == [] then None
    else if links[|links| - 1].sequence == sequence then Some(links[|links| - 1])
    else FindLink(links[..|links| - 1], sequence)
  }

  // ----- append -----

  function NewLink(d: Digests, sequence: nat, previous: Text, row: EventRow, redaction: Text, now: int): Link {
    var payload := d.payload(row, redaction);
    Link(sequence, row.id, Ascii(CHAIN_VERSION), redaction, previous, payload, d.link(sequence, previous, payload), now)
  }

  /** The PRIMARY KEY and UNIQUE constraints of the chain table. */
  predicate Insertable(links: seq<Link>, l: Link) {
    forall k :: 0 <= k < |links| ==>
      links[k].sequence != l.sequence && links[k].eventId != l.eventId && links[k].chainHash != l.chainHash
  }

  /** The checkpoint: the link at the head carries the head's hash. */
  predicate HeadIsChecked(s: Store)
    requires s.state.Some?
  {
    var state := s.state.value;
    state.headSequence > state.anchorSequence ==>
      FindLink(s.links, state.headSequence).Some? && FindLink(s.links, state.headSequence).value.chainHash == state.headHash
  }

  /** `appendStorageRow`. */
  function Append(d: Digests, s: Store, row: EventRow, redaction: Text, now: int): Option<Store> {
    if s.state.None? || !ValidState(d, s.state.value) || !HeadIsChecked(s) || FindEvent(s.events, row.id).Some? then None
    else
      var state := s.state.value;
      var link := NewLink(d, state.headSequence + 1, state.headHash, row, redaction, now);
      if !Insertable(s.links, link) then None
      else Some(s.(events := s.events + [row], links := s.links + [link],
                   state := Some(state.(headSequence := state.headSequence + 1, headHash := link.chainHash))))
  }

  // ----- retention -----

  datatype Policy = Policy(minimumRetained: Option<int>, maximumPrune: Option<int>)

  datatype RetentionRequest = RetentionRequest(human: bool, cutoff: int, reason: Text, signerId: Text, keyId: Text, sign: Text -> seq<Byte>)

  /** What a retention meets: an active incident, the time of the approval as text, and the id drawn for the receipt. */
  datatype RetentionCall = RetentionCall(request: RetentionRequest, policy: Policy, incident: bool, approvedAt: Text, receiptId: Text)

  datatype RetentionResult = RetentionResult(receiptId: Text, prunedEntries: nat, anchorSequence: int, anchorHash: Text, retainedFrom: int)

  const DEFAULT_MINIMUM_RETAINED: int := 100
  const DEFAULT_MAXIMUM_PRUNE: int := 10000

  function Minimum(p: Policy): int { if p.minimumRetained.Some? then p.minimumRetained.value else DEFAULT_MINIMUM_RETAINED }

  function Maximum(p: Policy): int { if p.maximumPrune.Some? then p.maximumPrune.value else DEFAULT_MAXIMUM_PRUNE }

  /** The checks of the request, of the incident guard and of the policy. */
  predicate Permitted(s: Store, c: RetentionCall) {
    && c.request.human && 1 <= c.request.cutoff <= MAX_SAFE && |c.request.reason| >= 8
    && s.state.Some? && !c.incident
    && 1 <= Minimum(c.policy) <= MAX_SAFE && 1 <= Maximum(c.policy) <= MAX_SAFE
    && 1 <= c.request.cutoff - s.state.value.anchorSequence <= Maximum(c.policy)
    && s.state.value.headSequence - c.request.cutoff >= Minimum(c.policy)
  }

  function Unsigned(state: ChainState, c: RetentionCall, cutoffHash: Text): Receipt {
    Receipt(c.receiptId, Ascii(RETENTION_FORMAT), Ascii(CHAIN_VERSION), state.lastReceipt, state.anchorSequence, state.anchorHash,
            c.request.cutoff, cutoffHash, c.request.cutoff + 1, state.headSequence, state.headHash, c.approvedAt,
            Ascii("human"), c.request.reason, c.request.signerId, c.request.keyId, Ascii("Ed25519"), [], [])
  }

  /** The signed receipt, if the signer is an active trusted key and its signature verifies. */
  function SignedReceipt(trust: Trust, state: ChainState, c: RetentionCall, cutoffHash: Text): Option<Receipt> {
    var key := FindKey(trust.keys, c.request.signerId, c.request.keyId);
    if key.None? || !KeyValidAt(trust.dateOf, key.value, c.approvedAt, true) then None
    else
      var unsigned := Unsigned(state, c, cutoffHash);
      var payload := ReceiptPayload(unsigned);
      var bytes := c.request.sign(payload);
      if |bytes| != 64 then None
      else
        var receipt := unsigned.(signature := ToUrl(bytes), payloadJson := payload);
        if Signed(trust, receipt, payload) then Some(receipt) else None
  }

  /** The links above a cutoff. */
  function Above(links: seq<Link>, cutoff: int): (r: seq<Link>)
    ensures forall l :: l in r <==> l in links && l.sequence > cutoff
  {
    if links == [] then []
    else Above(links[..|links| - 1], cutoff) + if links[|links| - 1].sequence > cutoff then [links[|links| - 1]] else []
  }

  /** The ids of the events linked up to a cutoff. */
  function PrunedIds(links: seq<Link>, cutoff: int): (r: seq<Text>)
    ensures forall id :: id in r <==> exists l :: l in links && l.sequence <= cutoff && l.eventId == id
  {
    if links == [] then []
    else
      var last := links[|links| - 1];
      assert forall l :: l in links <==> l in links[..|links| - 1] || l == last;
      PrunedIds(links[..|links| - 1], cutoff) + if last.sequence <= cutoff then [last.eventId] else []
  }

  /** The events that are left when some are deleted by their ids. */
  function Without(events: seq<EventRow>, ids: seq<Text>): (r: seq<EventRow>)
    ensures forall e :: e in r <==> e in events && e.id !in ids
  {
    if events == [] then []
    else Without(events[..|events| - 1], ids) + if events[|events| - 1].id !in ids then [events[|events| - 1]] else []
  }

  predicate FreshReceipt(receipts: seq<Receipt>, r: Receipt) {
    forall i :: 0 <= i < |receipts| ==> receipts[i].receiptId != r.receiptId && receipts[i].prunedThrough != r.prunedThrough
  }

  /** The tables once everything up to a cutoff is deleted and the receipt for it is filed. */
  function Pruned(s: Store, cutoff: int, cutoffHash: Text, receipt: Receipt): Store
    requires s.state.Some?
  {
    s.(receipts := s.receipts + [receipt], links := Above(s.links, cutoff), events := Without(s.events, PrunedIds(s.links, cutoff)),
       state := Some(s.state.value.(anchorSequence := cutoff, anchorHash := cutoffHash, lastReceipt := Some(receipt.receiptId))))
  }

  /** Everything `applyAuditRetention` checks before it opens its transaction: the signed receipt if all is well. */
  function Approve(trust: Trust, s: Store, c: RetentionCall): Option<Receipt> {
    if !Permitted(s, c) then None
    else
      var link := FindLink(s.links, c.request.cutoff);
      if link.None? || !IsDigest(link.value.chainHash) then None
      else
        var receipt := SignedReceipt(trust, s.state.value, c, link.value.chainHash);
        if receipt.None? || !FreshReceipt(s.receipts, receipt.value) then None else receipt
  }

  /** The state a receipt takes the tables to, and what the retention reports. */
  function Execute(s: Store, receipt: Receipt): (Store, RetentionResult)
    requires s.state.Some?
  {
    (Pruned(s, receipt.prunedThrough, receipt.prunedHash, receipt),
     RetentionResult(receipt.receiptId, |PrunedIds(s.links, receipt.prunedThrough)|, receipt.prunedThrough, receipt.prunedHash,
                     receipt.prunedThrough + 1))
  }

  /** `applyAuditRetention`. */
  function Retain(trust: Trust, s: Store, c: RetentionCall): Option<(Store, RetentionResult)> {
    match Approve(trust, s, c)
    case Some(receipt) => if s.state.Some? then Some(Execute(s, receipt)) else None
    case None => None
  }

  // ----- migration -----

  /** The links that chain an old log from the genesis hash on. */
  function LegacyLinks(d: Digests, rows: seq<EventRow>, now: int): (r: seq<Link>)
    ensures |r| == |rows|
  {
    if rows == [] then []
    else
      var earlier := LegacyLinks(d, rows[..|rows| - 1], now);
      earlier + [NewLink(d, |rows|, TipHash(d.genesis, earlier), rows[|rows| - 1], Ascii(LEGACY_REDACTION_VERSION), now)]
  }

  predicate DistinctHashes(links: seq<Link>) {
    forall j, k :: 0 <= j < k < |links| ==> links[j].chainHash != links[k].chainHash
  }

  ghost predicate DistinctEvents(events: seq<EventRow>) {
    forall j, k :: 0 <= j < k < |events| ==> events[j].id != events[k].id
  }

  ghost predicate DistinctLinkedEvents(links: seq<Link>) {
    forall j, k :: 0 <= j < k < |links| ==> links[j].eventId != links[k].eventId
  }

  /** `migrateAuditChain`, and the later migrations up to the current schema, which leave these tables alone. */
  function Migrate(d: Digests, rows: seq<EventRow>, now: int): Option<Store> {
    var links := LegacyLinks(d, rows, now);
    if !DistinctHashes(links) then None
    else
      Some(Store(SCHEMA_VERSION,
                 Some(ChainState(Ascii(CHAIN_VERSION), d.genesis, 0, d.genesis, |rows|, TipHash(d.genesis, links), None)),
                 [], links, rows))
  }
}
