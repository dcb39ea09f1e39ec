/**
 What the verifier trusts, said on the columns of receipts and links and on the dates of keys, place by place: which
 histories it accepts, which chains, and which retentions are carried out.
 */
module AuditTrust {
  import opened Prelude
  import opened Texts
  import opened Hashing
  import opened AuditHash
  import opened AuditModel
  import opened AuditVerifier
  import opened AuditSpec
  import opened AuditLaws
  import opened AuditRuns
  import opened Base64

  // ----- keys -----

  /** The listed key that speaks for a signer: the first with the signer's id and the key's. */
  predicate SpeaksFor(keys: seq<Key>, signerId: Text, keyId: Text, j: nat) {
    && j < |keys| && keys[j].signerId == signerId && keys[j].keyId == keyId
    && forall i :: 0 <= i < j ==> keys[i].signerId != signerId || keys[i].keyId != keyId
  }

  /** A date text that is a date before, or after, a time. */
  predicate IsBefore(dateOf: Text -> Option<int>, text: Text, time: int) { dateOf(text).Some? && dateOf(text).value <= time }

  predicate IsAfter(dateOf: Text -> Option<int>, text: Text, time: int) { dateOf(text).Some? && time <= dateOf(text).value }

  /** A key was in force at a time: not yet revoked, in the span of its validity, which an absent or empty date leaves open. */
  predicate InForce(dateOf: Text -> Option<int>, key: Key, time: int) {
    && (key.status == Revoked ==> key.revokedAt.Some? && key.revokedAt.value != [] && IsAfter(dateOf, key.revokedAt.value, time + 1))
    && (key.validFrom.None? || key.validFrom.value == [] || IsBefore(dateOf, key.validFrom.value, time))
    && (key.validUntil.None? || key.validUntil.value == [] || IsAfter(dateOf, key.validUntil.value, time))
  }

  lemma {:induction false} TheSpeakerIsFound(keys: seq<Key>, signerId: Text, keyId: Text)
    ensures forall j: nat :: SpeaksFor(keys, signerId, keyId, j) ==> FindKey(keys, signerId, keyId) == Some(keys[j])
    ensures FindKey(keys, signerId, keyId).Some? <==> exists j: nat :: SpeaksFor(keys, signerId, keyId, j)
  {
    if keys != [] {
      var rest := keys[1..];
      TheSpeakerIsFound(rest, signerId, keyId);
      if keys[0].signerId == signerId && keys[0].keyId == keyId {
        assert SpeaksFor(keys, signerId, keyId, 0);
      } else {
        forall j: nat | SpeaksFor(keys, signerId, keyId, j) ensures j > 0 && SpeaksFor(rest, signerId, keyId, j - 1) {
          assert forall i :: 0 <= i < j - 1 ==> rest[i] == keys[i + 1];
        }
        forall j: nat | SpeaksFor(rest, signerId, keyId, j) ensures SpeaksFor(keys, signerId, keyId, j + 1) {
          assert forall i :: 1 <= i <= j ==> keys[i] == rest[i - 1];
        }
      }
    }
  }

  // ----- receipts -----

  /** The signature of a receipt is that of 64 bytes which a key verifies for its text. */
  ghost predicate VerifiedBy(trust: Trust, r: Receipt, key: Key) {
    exists bytes: seq<Byte> :: |bytes| == 64 && ToUrl(bytes) == r.signature && trust.verify(r.payloadJson, key.publicKey, bytes)
  }

  /** A receipt is signed by a listed key that was in force when it was approved. */
  ghost predicate IsSignedInForce(trust: Trust, r: Receipt) {
    && r.payloadJson == ReceiptPayload(r)
    && trust.dateOf(r.approvedAt).Some?
    && exists j: nat :: SpeaksFor(trust.keys, r.signerId, r.keyId, j)
         && InForce(trust.dateOf, trust.keys[j], trust.dateOf(r.approvedAt).value) && VerifiedBy(trust, r, trust.keys[j])
  }

  lemma SignaturesAreVerified(trust: Trust, r: Receipt, key: Key)
    ensures VerifiedBy(trust, r, key) <==>
      SignatureBytes(r.signature).Some? && trust.verify(r.payloadJson, key.publicKey, SignatureBytes(r.signature).value)
  {
    forall bytes: seq<Byte> | |bytes| == 64 && ToUrl(bytes) == r.signature ensures SignatureBytes(r.signature) == Some(bytes) {
      UrlRoundTrip(bytes);
    }
  }

  lemma AttestedExactly(trust: Trust, r: Receipt)
    ensures Attested(trust, r) <==> IsSignedInForce(trust, r)
  {
    TheSpeakerIsFound(trust.keys, r.signerId, r.keyId);
    var key := FindKey(trust.keys, r.signerId, r.keyId);
    if key.Some? {
      SignaturesAreVerified(trust, r, key.value);
      var j: nat :| SpeaksFor(trust.keys, r.signerId, r.keyId, j);
      assert trust.keys[j] == key.value;
    }
  }

  /** The fixed columns of a receipt, and its numbers beside each other. */
  predicate IsRetention(r: Receipt) {
    && r.format == Ascii("gev.audit.retention.v1") && r.chainVersion == Ascii("gev.audit.chain.v1")
    && r.algorithm == Ascii("Ed25519") && r.approvedBy == Ascii("human")
    && r.previousAnchorSequence < r.prunedThrough <= r.headSequence && r.retainedFrom == r.prunedThrough + 1
    && IsDigest(r.prunedHash) && IsDigest(r.headHash)
  }

  /** A receipt begins where the one before it ends, the first at the genesis. */
  predicate Follows(d: Digests, receipts: seq<Receipt>, k: nat)
    requires k < |receipts|
  {
    var r := receipts[k];
    if k == 0 then r.previousAnchorSequence == 0 && r.previousAnchorHash == d.genesis && r.previousReceipt == None
    else
      && r.previousAnchorSequence == receipts[k - 1].prunedThrough && r.previousAnchorHash == receipts[k - 1].prunedHash
      && r.previousReceipt == Some(receipts[k - 1].receiptId)
  }

  lemma ContinuesExactly(d: Digests, receipts: seq<Receipt>, k: nat)
    requires k < |receipts|
    ensures Continues(receipts[k], AnchorAfter(d, receipts[..k])) <==> IsRetention(receipts[k]) && Follows(d, receipts, k)
  {
  }

  /** What is asked of each receipt. */
  ghost predicate IsAccepted(d: Digests, trust: Trust, receipts: seq<Receipt>, k: nat)
    requires k < |receipts|
  {
    IsRetention(receipts[k]) && Follows(d, receipts, k) && IsSignedInForce(trust, receipts[k])
  }

  lemma AcceptedExactly(d: Digests, trust: Trust, receipts: seq<Receipt>, k: nat)
    requires k < |receipts|
    ensures ReceiptFault(trust, receipts[k], AnchorAfter(d, receipts[..k])).None? <==> IsAccepted(d, trust, receipts, k)
  {
    ContinuesExactly(d, receipts, k);
    AttestedExactly(trust, receipts[k]);
  }

  lemma AcceptedInFront(d: Digests, trust: Trust, front: seq<Receipt>, last: Receipt, k: nat)
    requires k < |front|
    ensures IsAccepted(d, trust, front, k) <==> IsAccepted(d, trust, front + [last], k)
  {
    assert Follows(d, front, k) <==> Follows(d, front + [last], k);
  }

  ghost predicate AllAccepted(d: Digests, trust: Trust, receipts: seq<Receipt>) {
    forall k: nat :: k < |receipts| ==> IsAccepted(d, trust, receipts, k)
  }

  lemma AllAcceptedInFront(d: Digests, trust: Trust, front: seq<Receipt>, last: Receipt)
    ensures AllAccepted(d, trust, front + [last]) <==> AllAccepted(d, trust, front) && IsAccepted(d, trust, front + [last], |front|)
  {
    var receipts := front + [last];
    forall k: nat | k < |front| ensures IsAccepted(d, trust, front, k) <==> IsAccepted(d, trust, receipts, k) {
      AcceptedInFront(d, trust, front, last, k);
    }
  }

  /**
   A history is accepted exactly when every receipt begins where the one before ends and is signed by a listed key that
   was in force at its approval: before its revocation, and within its validity.
   */
  lemma {:induction false} AcceptedHistoriesExactly(d: Digests, trust: Trust, receipts: seq<Receipt>)
    ensures HistoryHolds(d, trust, receipts) <==> AllAccepted(d, trust, receipts)
  {
    if receipts != [] {
      var front, last := receipts[..|receipts| - 1], receipts[|receipts| - 1];
      assert receipts == front + [last];
      AcceptedHistoriesExactly(d, trust, front);
      AcceptedExactly(d, trust, receipts, |front|);
      AllAcceptedInFront(d, trust, front, last);
    }
  }

  /** Of two faults of a receipt the boundary is named before the signature; an accepted receipt has none. */
  lemma ReceiptsAreRefusedExactly(d: Digests, trust: Trust, receipts: seq<Receipt>, k: nat)
    requires k < |receipts|
    ensures var r := receipts[k]; var fault := ReceiptFault(trust, r, AnchorAfter(d, receipts[..k]));
      && (fault.None? <==> IsRetention(r) && Follows(d, receipts, k) && IsSignedInForce(trust, r))
      && (fault.Some? && fault.value.code == RetentionBoundaryMismatch <==> !(IsRetention(r) && Follows(d, receipts, k)))
      && (fault.Some? && fault.value.code == RetentionSignatureInvalid <==>
            IsRetention(r) && Follows(d, receipts, k) && !IsSignedInForce(trust, r))
      && (fault.Some? && fault.value.code == RetentionBoundaryMismatch ==> fault.value.sequence == Some(Max(1, r.prunedThrough)))
      && (fault.Some? && fault.value.code == RetentionSignatureInvalid ==> fault.value.sequence == Some(r.prunedThrough))
  {
    ContinuesExactly(d, receipts, k);
    AttestedExactly(trust, receipts[k]);
  }

  // ----- links -----

  /** The event with an id that is the last in the table; ids are unique in every table the program writes. */
  predicate IsEventOf(events: seq<EventRow>, id: Text, i: nat) {
    i < |events| && events[i].id == id && forall j :: i < j < |events| ==> events[j].id != id
  }

  lemma {:induction false} TheEventIsFound(events: seq<EventRow>, id: Text)
    ensures forall i: nat :: IsEventOf(events, id, i) ==> FindEvent(events, id) == Some(events[i])
    ensures FindEvent(events, id).Some? <==> exists i: nat :: IsEventOf(events, id, i)
  {
    if events != [] {
      var last := |events| - 1;
      TheEventIsFound(events[..last], id);
      if events[last].id == id {
        assert IsEventOf(events, id, last);
      } else {
        forall i: nat | IsEventOf(events[..last], id, i) ensures IsEventOf(events, id, i) { }
        forall i: nat | IsEventOf(events, id, i) ensures IsEventOf(events[..last], id, i) { }
      }
    }
  }

  /** A link at its place: its number, the hash of the link before it, and the hashes of its event and of itself. */
  ghost predicate IsIntact(d: Digests, events: seq<EventRow>, anchor: nat, anchorHash: Text, links: seq<Link>, k: nat)
    requires k < |links|
  {
    var l := links[k];
    && l.sequence == anchor + 1 + k <= 9007199254740991 && l.chainVersion == Ascii("gev.audit.chain.v1")
    && IsDigest(l.previousHash) && IsDigest(l.payloadHash) && IsDigest(l.chainHash)
    && l.previousHash == (if k == 0 then anchorHash else links[k - 1].chainHash)
    && l.chainHash == d.link(l.sequence, l.previousHash, l.payloadHash)
    && exists i: nat :: IsEventOf(events, l.eventId, i) && l.payloadHash == d.payload(events[i], l.redaction)
  }

  lemma IntactExactly(d: Digests, events: seq<EventRow>, anchor: nat, anchorHash: Text, links: seq<Link>, k: nat)
    requires k < |links|
    ensures LinkFault(d, events, links[k], anchor + 1 + k, TipHash(anchorHash, links[..k])).None?
      <==> IsIntact(d, events, anchor, anchorHash, links, k)
  {
    var l := links[k];
    TheEventIsFound(events, l.eventId);
    if FindEvent(events, l.eventId).Some? {
      var i: nat :| IsEventOf(events, l.eventId, i);
      assert FindEvent(events, l.eventId) == Some(events[i]);
    }
  }

  /** The row of a link by itself: its columns have the right form. */
  predicate IsLinkRow(l: Link) {
    && 1 <= l.sequence <= 9007199254740991 && l.chainVersion == Ascii("gev.audit.chain.v1")
    && IsDigest(l.previousHash) && IsDigest(l.payloadHash) && IsDigest(l.chainHash)
  }

  /**
   Which fault of a link is named: of several the first in the order row, number, previous hash, event, payload hash, chain
   hash, with the number that was expected when the number is wrong and otherwise the link's own.
   */
  lemma LinksAreRefusedExactly(d: Digests, events: seq<EventRow>, l: Link, n: nat, previous: Text)
    ensures var fault := LinkFault(d, events, l, n, previous);
      && (fault.Some? && fault.value.code == MalformedRow <==> !IsLinkRow(l))
      && (fault.Some? && fault.value.code == SequenceGap <==> IsLinkRow(l) && l.sequence != n)
      && (fault.Some? && fault.value.code == PreviousHashMismatch <==> IsLinkRow(l) && l.sequence == n && l.previousHash != previous)
      && (fault.Some? && fault.value.code == MissingEvent <==>
            IsLinkRow(l) && l.sequence == n && l.previousHash == previous && forall e :: e in events ==> e.id != l.eventId)
      && (fault.Some? && fault.value.code == PayloadHashMismatch <==>
            IsLinkRow(l) && l.sequence == n && l.previousHash == previous
            && exists i: nat :: IsEventOf(events, l.eventId, i) && l.payloadHash != d.payload(events[i], l.redaction))
      && (fault.Some? && fault.value.code == ChainHashMismatch <==>
            IsLinkRow(l) && l.sequence == n && l.previousHash == previous
            && l.chainHash != d.link(l.sequence, l.previousHash, l.payloadHash)
            && exists i: nat :: IsEventOf(events, l.eventId, i) && l.payloadHash == d.payload(events[i], l.redaction))
      && (fault.Some? && IsLinkRow(l) ==> fault.value.sequence == Some(if l.sequence != n then n else l.sequence))
  {
    TheEventIsFound(events, l.eventId);
    if FindEvent(events, l.eventId).Some? {
      var i: nat :| IsEventOf(events, l.eventId, i);
      assert FindEvent(events, l.eventId) == Some(events[i]);
    }
  }

  lemma IntactInFront(d: Digests, events: seq<EventRow>, anchor: nat, anchorHash: Text, front: seq<Link>, last: Link, k: nat)
    requires k < |front|
    ensures IsIntact(d, events, anchor, anchorHash, front, k) <==> IsIntact(d, events, anchor, anchorHash, front + [last], k)
  {
  }

  ghost predicate AllIntact(d: Digests, events: seq<EventRow>, anchor: nat, anchorHash: Text, links: seq<Link>) {
    forall k: nat :: k < |links| ==> IsIntact(d, events, anchor, anchorHash, links, k)
  }

  lemma AllIntactInFront(d: Digests, events: seq<EventRow>, anchor: nat, anchorHash: Text, front: seq<Link>, last: Link)
    ensures AllIntact(d, events, anchor, anchorHash, front + [last])
      <==> AllIntact(d, events, anchor, anchorHash, front) && IsIntact(d, events, anchor, anchorHash, front + [last], |front|)
  {
    var links := front + [last];
    forall k: nat | k < |front|
      ensures IsIntact(d, events, anchor, anchorHash, front, k) <==> IsIntact(d, events, anchor, anchorHash, links, k)
    {
      IntactInFront(d, events, anchor, anchorHash, front, last, k);
    }
  }

  lemma {:induction false} LinksHoldExactly(d: Digests, events: seq<EventRow>, anchor: nat, anchorHash: Text, links: seq<Link>)
    ensures LinksHold(d, events, anchor, anchorHash, links) <==> AllIntact(d, events, anchor, anchorHash, links)
  {
    if links != [] {
      var front, last := links[..|links| - 1], links[|links| - 1];
      assert links == front + [last];
      LinksHoldExactly(d, events, anchor, anchorHash, front);
      IntactExactly(d, events, anchor, anchorHash, links, |front|);
      AllIntactInFront(d, events, anchor, anchorHash, front, last);
    }
  }

  /** The state row says where the receipts end and where the links do. */
  predicate IsState(d: Digests, s: Store, state: ChainState) {
    && state.chainVersion == Ascii("gev.audit.chain.v1") && state.genesisHash == d.genesis
    && 0 <= state.anchorSequence <= state.headSequence <= 9007199254740991
    && IsDigest(state.anchorHash) && IsDigest(state.headHash)
    && (if s.receipts == [] then state.anchorSequence == 0 && state.anchorHash == d.genesis && state.lastReceipt == None
        else
          var r := s.receipts[|s.receipts| - 1];
          state.anchorSequence == r.prunedThrough && state.anchorHash == r.prunedHash && state.lastReceipt == Some(r.receiptId))
    && state.headSequence == state.anchorSequence + |s.links|
    && state.headHash == (if s.links == [] then state.anchorHash else s.links[|s.links| - 1].chainHash)
  }

  lemma StateExactly(d: Digests, s: Store)
    requires s.state.Some?
    ensures IsState(d, s, s.state.value) <==>
      && ValidState(d, s.state.value) && Anchored(s.state.value, AnchorAfter(d, s.receipts))
      && s.state.value.headSequence == s.state.value.anchorSequence + |s.links|
      && s.state.value.headHash == TipHash(s.state.value.anchorHash, s.links)
  {
  }

  ghost predicate IsLinked(links: seq<Link>, e: EventRow) {
    exists k: nat :: k < |links| && links[k].eventId == e.id
  }

  lemma LinkedExactly(s: Store)
    ensures AllChained(s) <==> forall i: nat :: i < |s.events| ==> IsLinked(s.links, s.events[i])
  {
    forall i: nat | i < |s.events| ensures IsChained(s.links, s.events[i]) <==> IsLinked(s.links, s.events[i]) { }
  }

  /**
   A chain is judged valid exactly when its schema is the current one, its state row says where receipts and links end,
   every receipt follows and is signed in force, every link is intact at its place, and every event has a link.
   */
  lemma SoundExactly(d: Digests, trust: Trust, s: Store)
    ensures Sound(d, trust, s) <==>
      && s.schema == 6 && s.state.Some? && IsState(d, s, s.state.value)
      && AllAccepted(d, trust, s.receipts)
      && AllIntact(d, s.events, s.state.value.anchorSequence, s.state.value.anchorHash, s.links)
      && (forall i: nat :: i < |s.events| ==> IsLinked(s.links, s.events[i]))
  {
    if s.state.Some? {
      StateExactly(d, s);
      AcceptedHistoriesExactly(d, trust, s.receipts);
      LinkedExactly(s);
      if s.state.value.anchorSequence >= 0 {
        LinksHoldExactly(d, s.events, s.state.value.anchorSequence, s.state.value.anchorHash, s.links);
      }
    }
  }

  /**
   A verdict cannot be reported exactly when the state row has a negative number or something else than a digest for a hash,
   or the fault is at a sequence that is not positive.
   */
  lemma ReportsFailExactly(state: Option<ChainState>, fault: Fault, verified: nat)
    ensures Report(state, fault, verified) != Invalid(fault, verified) <==> Report(state, fault, verified).Unavailable?
    ensures Report(state, fault, verified).Unavailable? <==>
      || (state.Some? && (state.value.anchorSequence < 0 || state.value.headSequence < 0
                          || !IsDigest(state.value.anchorHash) || !IsDigest(state.value.headHash)))
      || (fault.sequence.Some? && fault.sequence.value <= 0)
  {
  }

  // ----- appends -----

  /** The last link the table has at a sequence; sequences are unique in every table the program writes. */
  predicate IsLinkAt(links: seq<Link>, sequence: int, k: nat) {
    k < |links| && links[k].sequence == sequence && forall j :: k < j < |links| ==> links[j].sequence != sequence
  }

  lemma {:induction false} TheLinkIsFound(links: seq<Link>, sequence: int)
    ensures forall k: nat :: IsLinkAt(links, sequence, k) ==> FindLink(links, sequence) == Some(links[k])
    ensures FindLink(links, sequence).Some? <==> exists k: nat :: IsLinkAt(links, sequence, k)
  {
    if links != [] {
      var last := |links| - 1;
      TheLinkIsFound(links[..last], sequence);
      if links[last].sequence == sequence {
        assert IsLinkAt(links, sequence, last);
      } else {
        forall k: nat | IsLinkAt(links[..last], sequence, k) ensures IsLinkAt(links, sequence, k) { }
        forall k: nat | IsLinkAt(links, sequence, k) ensures IsLinkAt(links[..last], sequence, k) { }
      }
    }
  }

  /** The head is where the state row says: at the anchor, or the link at the head's sequence has the head's hash. */
  ghost predicate HeadStands(s: Store, state: ChainState) {
    state.headSequence <= state.anchorSequence
    || exists k: nat :: IsLinkAt(s.links, state.headSequence, k) && s.links[k].chainHash == state.headHash
  }

  /** The link that is added: after the head, with the hashes of its event and of itself. */
  predicate IsNextLink(d: Digests, state: ChainState, row: EventRow, redaction: Text, now: int, l: Link) {
    && l.sequence == state.headSequence + 1 && l.appendedAt == now && l.eventId == row.id && l.redaction == redaction
    && l.chainVersion == Ascii("gev.audit.chain.v1") && l.previousHash == state.headHash
    && l.payloadHash == d.payload(row, redaction)
    && 0 <= state.headSequence && l.chainHash == d.link(state.headSequence + 1, state.headHash, d.payload(row, redaction))
  }

  /** On any tables, sound or not, an event is appended behind a head that stands, and never behind one that does not. */
  lemma AppendsBehindItsHead(d: Digests, s: Store, row: EventRow, redaction: Text, now: int)
    requires Append(d, s, row, redaction, now).Some?
    ensures var t := Append(d, s, row, redaction, now).value;
      && s.state.Some? && HeadStands(s, s.state.value)
      && (forall e :: e in s.events ==> e.id != row.id)
      && t.events == s.events + [row] && |t.links| == |s.links| + 1 && t.links[..|s.links|] == s.links
      && IsNextLink(d, s.state.value, row, redaction, now, t.links[|s.links|])
      && t.state == Some(s.state.value.(headSequence := s.state.value.headSequence + 1, headHash := t.links[|s.links|].chainHash))
      && t.receipts == s.receipts && t.schema == s.schema
  {
    TheLinkIsFound(s.links, s.state.value.headSequence);
  }

  /** The migration links the rows of an old log one after the other, as they are, and says so in each link. */
  lemma {:induction false} MigratedLinksExactly(d: Digests, rows: seq<EventRow>, now: int, k: nat)
    requires k < |rows|
    ensures var l := LegacyLinks(d, rows, now)[k];
      && l.sequence == k + 1 && l.eventId == rows[k].id && l.appendedAt == now
      && l.redaction == Ascii("legacy-preserved-v0") && l.chainVersion == Ascii("gev.audit.chain.v1")
  {
    if k < |rows| - 1 { MigratedLinksExactly(d, rows[..|rows| - 1], now, k); }
  }

  // ----- retentions -----

  /** The request, the incident guard and the policy let a retention through; an absent policy keeps 100 and prunes 10,000. */
  predicate IsAllowed(state: ChainState, c: RetentionCall) {
    var keep := match c.policy.minimumRetained case Some(n) => n case None => 100;
    var prune := match c.policy.maximumPrune case Some(n) => n case None => 10000;
    && c.request.human && |c.request.reason| >= 8 && !c.incident
    && 1 <= c.request.cutoff <= 9007199254740991 && 1 <= keep <= 9007199254740991 && 1 <= prune <= 9007199254740991
    && state.anchorSequence < c.request.cutoff <= state.anchorSequence + prune
    && c.request.cutoff + keep <= state.headSequence
  }

  /** What a retention writes into its receipt. */
  predicate IsReceiptOf(state: ChainState, c: RetentionCall, cutoffHash: Text, r: Receipt) {
    && r.previousReceipt == state.lastReceipt && r.previousAnchorSequence == state.anchorSequence && r.previousAnchorHash == state.anchorHash
    && r.prunedThrough == c.request.cutoff && r.prunedHash == cutoffHash && r.retainedFrom == c.request.cutoff + 1
    && r.headSequence == state.headSequence && r.headHash == state.headHash
    && r.receiptId == c.receiptId && r.approvedAt == c.approvedAt && r.reason == c.request.reason
    && r.signerId == c.request.signerId && r.keyId == c.request.keyId && r.payloadJson == ReceiptPayload(r)
  }

  /** A key that may sign now: the signer's, active, and in force. */
  ghost predicate IsActiveSigner(trust: Trust, c: RetentionCall, key: Key) {
    && key.status == Active && trust.dateOf(c.approvedAt).Some? && InForce(trust.dateOf, key, trust.dateOf(c.approvedAt).value)
    && exists j: nat :: SpeaksFor(trust.keys, c.request.signerId, c.request.keyId, j) && trust.keys[j] == key
  }

  /** The signer signs a text with 64 bytes that verify under an active key. */
  ghost predicate IsSignedBySigner(trust: Trust, c: RetentionCall, payload: Text) {
    exists key :: IsActiveSigner(trust, c, key) && |c.request.sign(payload)| == 64
      && trust.verify(payload, key.publicKey, c.request.sign(payload))
  }

  lemma TheActiveSigner(trust: Trust, c: RetentionCall, key: Key)
    ensures IsActiveSigner(trust, c, key) <==>
      FindKey(trust.keys, c.request.signerId, c.request.keyId) == Some(key) && KeyValidAt(trust.dateOf, key, c.approvedAt, true)
  {
    TheSpeakerIsFound(trust.keys, c.request.signerId, c.request.keyId);
  }

  lemma SpeltSignaturesAreRead(bytes: seq<Byte>)
    requires |bytes| == 64
    ensures SignatureBytes(ToUrl(bytes)) == Some(bytes)
  {
    UrlRoundTrip(bytes);
  }

  lemma ActiveKeysAreValid(dateOf: Text -> Option<int>, key: Key, at: Text)
    requires KeyValidAt(dateOf, key, at, true)
    ensures KeyValidAt(dateOf, key, at, false)
  {
  }

  /** A receipt is written exactly when the signer is an active key in force whose 64 bytes verify under its public key. */
  lemma SignsExactly(trust: Trust, state: ChainState, c: RetentionCall, cutoffHash: Text)
    ensures SignedReceipt(trust, state, c, cutoffHash).Some? <==> IsSignedBySigner(trust, c, ReceiptPayload(Unsigned(state, c, cutoffHash)))
  {
    var found := FindKey(trust.keys, c.request.signerId, c.request.keyId);
    var payload := ReceiptPayload(Unsigned(state, c, cutoffHash));
    if |c.request.sign(payload)| == 64 { SpeltSignaturesAreRead(c.request.sign(payload)); }
    forall key: Key ensures IsActiveSigner(trust, c, key) <==> found == Some(key) && KeyValidAt(trust.dateOf, key, c.approvedAt, true) {
      TheActiveSigner(trust, c, key);
    }
    if found.Some? && KeyValidAt(trust.dateOf, found.value, c.approvedAt, true) {
      ActiveKeysAreValid(trust.dateOf, found.value, c.approvedAt);
      assert IsActiveSigner(trust, c, found.value);
    }
  }

  lemma ReceiptsTell(trust: Trust, state: ChainState, c: RetentionCall, cutoffHash: Text)
    requires SignedReceipt(trust, state, c, cutoffHash).Some?
    ensures IsReceiptOf(state, c, cutoffHash, SignedReceipt(trust, state, c, cutoffHash).value)
  {
    var unsigned := Unsigned(state, c, cutoffHash);
    var payload := ReceiptPayload(unsigned);
    SignedTextIgnoresSignature(unsigned, ToUrl(c.request.sign(payload)), payload);
  }

  /** The hash of the link at a sequence in a chain that hangs together. */
  lemma LinkAtTheCutoff(d: Digests, s: Store, cutoff: int)
    requires Hangs(d, s) && s.state.value.anchorSequence < cutoff <= s.state.value.headSequence
    ensures var k := cutoff - s.state.value.anchorSequence - 1;
      0 <= k < |s.links| && FindLink(s.links, cutoff) == Some(s.links[k]) && IsDigest(s.links[k].chainHash)
  {
    var k := cutoff - s.state.value.anchorSequence - 1;
    LinksAreNumbered(d, s);
    FindLinkAt(s.links, s.state.value.anchorSequence, k);
    HeldLinkFindsItsEvent(d, s.events, s.state.value.anchorSequence, s.state.value.anchorHash, s.links, k);
  }

  ghost predicate IsNewReceipt(receipts: seq<Receipt>, id: Text) {
    forall i: nat :: i < |receipts| ==> receipts[i].receiptId != id
  }

  lemma NoCutoffTwice(d: Digests, trust: Trust, s: Store, r: Receipt)
    requires Sound(d, trust, s) && r.prunedThrough > s.state.value.anchorSequence
    ensures FreshReceipt(s.receipts, r) <==> IsNewReceipt(s.receipts, r.receiptId)
  {
    forall i: nat | i < |s.receipts| ensures s.receipts[i].prunedThrough <= s.state.value.anchorSequence {
      ReceiptsEndByTheAnchor(d, trust, s.receipts, i);
    }
  }

  lemma AllowedExactly(s: Store, c: RetentionCall)
    requires s.state.Some?
    ensures Permitted(s, c) <==> IsAllowed(s.state.value, c)
  {
  }

  /** The hash of the link a retention cuts after. */
  function CutoffHash(s: Store, c: RetentionCall): Text
    requires s.state.Some?
  {
    var k := c.request.cutoff - s.state.value.anchorSequence - 1;
    if 0 <= k < |s.links| then s.links[k].chainHash else []
  }

  lemma ApprovesAt(trust: Trust, s: Store, c: RetentionCall, hash: Text)
    requires Permitted(s, c) && FindLink(s.links, c.request.cutoff).Some?
    requires hash == FindLink(s.links, c.request.cutoff).value.chainHash && IsDigest(hash)
    ensures var receipt := SignedReceipt(trust, s.state.value, c, hash);
      Approve(trust, s, c) == if receipt.Some? && FreshReceipt(s.receipts, receipt.value) then receipt else None
  {
  }

  lemma TheCutoffIsLinked(d: Digests, s: Store, c: RetentionCall)
    requires Hangs(d, s) && IsAllowed(s.state.value, c)
    ensures FindLink(s.links, c.request.cutoff).Some? && IsDigest(CutoffHash(s, c))
    ensures CutoffHash(s, c) == FindLink(s.links, c.request.cutoff).value.chainHash
  {
    LinkAtTheCutoff(d, s, c.request.cutoff);
  }

  lemma TheReceiptIsNew(d: Digests, trust: Trust, s: Store, c: RetentionCall, hash: Text)
    requires Sound(d, trust, s) && IsAllowed(s.state.value, c) && SignedReceipt(trust, s.state.value, c, hash).Some?
    ensures FreshReceipt(s.receipts, SignedReceipt(trust, s.state.value, c, hash).value) <==> IsNewReceipt(s.receipts, c.receiptId)
  {
    SignedReceiptsSayWhatTheyPrune(trust, s.state.value, c, hash);
    NoCutoffTwice(d, trust, s, SignedReceipt(trust, s.state.value, c, hash).value);
  }

  lemma ApprovesExactly(d: Digests, trust: Trust, s: Store, c: RetentionCall)
    requires Sound(d, trust, s) && IsAllowed(s.state.value, c)
    ensures Approve(trust, s, c).Some? <==>
      IsNewReceipt(s.receipts, c.receiptId) && SignedReceipt(trust, s.state.value, c, CutoffHash(s, c)).Some?
    ensures Approve(trust, s, c).Some? ==> Approve(trust, s, c) == SignedReceipt(trust, s.state.value, c, CutoffHash(s, c))
  {
    var hash := CutoffHash(s, c);
    AllowedExactly(s, c);
    TheCutoffIsLinked(d, s, c);
    ApprovesAt(trust, s, c, hash);
    if SignedReceipt(trust, s.state.value, c, hash).Some? { TheReceiptIsNew(d, trust, s, c, hash); }
  }

  /**
   On a sound chain a retention is carried out exactly when a human asks for a cutoff the policy allows, no incident is
   open, the receipt id is new, and an active key in force signs the receipt, which is filed.
   */
  lemma RetainsExactly(d: Digests, trust: Trust, s: Store, c: RetentionCall)
    requires Sound(d, trust, s)
    ensures Retain(trust, s, c).Some? <==>
      && IsAllowed(s.state.value, c) && IsNewReceipt(s.receipts, c.receiptId)
      && IsSignedBySigner(trust, c, ReceiptPayload(Unsigned(s.state.value, c, CutoffHash(s, c))))
    ensures Retain(trust, s, c).Some? ==>
      exists r :: Retain(trust, s, c).value.0.receipts == s.receipts + [r] && IsReceiptOf(s.state.value, c, CutoffHash(s, c), r)
  {
    AllowedExactly(s, c);
    if IsAllowed(s.state.value, c) {
      ApprovesExactly(d, trust, s, c);
      SignsExactly(trust, s.state.value, c, CutoffHash(s, c));
      if Approve(trust, s, c).Some? {
        ReceiptsTell(trust, s.state.value, c, CutoffHash(s, c));
        assert Retain(trust, s, c).value.0.receipts == s.receipts + [Approve(trust, s, c).value];
      }
    }
  }
}
