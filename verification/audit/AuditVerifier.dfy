/**
 The verifier: it walks receipts and links once, and its verdict is what the declarative description of an intact
 chain says (packages/governance/src/auditRetention.ts:173-234, packages/governance/src/auditChainStore.ts:110-235).
 */
module AuditVerifier {
  import opened Prelude
  import opened Texts
  import opened Hashing
  import opened AuditHash
  import opened AuditModel

  /** The verdict on a history of receipts. */
  datatype History = HistoryValid | HistoryBroken(fault: Fault)

  /** Everything before position k holds and k is the first that does not. */
  ghost predicate FirstBadReceipt(d: Digests, trust: Trust, receipts: seq<Receipt>, k: nat, fault: Fault) {
    && k < |receipts|
    && HistoryHolds(d, trust, receipts[..k])
    && ReceiptFault(trust, receipts[k], AnchorAfter(d, receipts[..k])) == Some(fault)
  }

  /** The state row disagrees with a history that holds. */
  ghost predicate StateDisagrees(d: Digests, trust: Trust, receipts: seq<Receipt>, state: ChainState, fault: Fault) {
    var a := AnchorAfter(d, receipts);
    && HistoryHolds(d, trust, receipts) && !Anchored(state, a)
    && fault == Fault(RetentionBoundaryMismatch, if a.sequence == 0 then None else Some(a.sequence))
  }

  /** What is wrong with a history, or with the state row that should follow from it. */
  ghost predicate BadHistory(d: Digests, trust: Trust, receipts: seq<Receipt>, state: ChainState, fault: Fault) {
    (exists k :: FirstBadReceipt(d, trust, receipts, k, fault)) || StateDisagrees(d, trust, receipts, state, fault)
  }

  lemma HistoryExtends(d: Digests, trust: Trust, receipts: seq<Receipt>, k: nat)
    requires k < |receipts|
    ensures HistoryHolds(d, trust, receipts[..k + 1]) <==>
      HistoryHolds(d, trust, receipts[..k]) && ReceiptFault(trust, receipts[k], AnchorAfter(d, receipts[..k])).None?
  {
    assert receipts[..k + 1][..k] == receipts[..k];
  }

  /** A history that breaks somewhere does not hold. */
  lemma {:induction false} BrokenHistory(d: Digests, trust: Trust, receipts: seq<Receipt>, k: nat)
    requires k <= |receipts| && !HistoryHolds(d, trust, receipts[..k])
    ensures !HistoryHolds(d, trust, receipts)
    decreases |receipts| - k
  {
    if k == |receipts| {
      assert receipts[..k] == receipts;
    } else {
      HistoryExtends(d, trust, receipts, k);
      BrokenHistory(d, trust, receipts, k + 1);
    }
  }

  lemma AnchorOfPrefix(d: Digests, receipts: seq<Receipt>, k: nat)
    requires k < |receipts|
    ensures AnchorAfter(d, receipts[..k + 1])
      == Anchor(receipts[k].prunedThrough, receipts[k].prunedHash, Some(receipts[k].receiptId))
  {
  }

  /** `verifyRetentionHistory`. */
  method VerifyRetentionHistory(d: Digests, trust: Trust, receipts: seq<Receipt>, state: ChainState) returns (r: History)
    ensures r.HistoryValid? <==> HistoryHolds(d, trust, receipts) && Anchored(state, AnchorAfter(d, receipts))
    ensures r.HistoryBroken? ==> BadHistory(d, trust, receipts, state, r.fault)
  {
    var anchorSequence: int := 0;
    var anchorHash: Text := d.genesis;
    var previousReceipt: Option<Text> := None;
    for k := 0 to |receipts|
      invariant HistoryHolds(d, trust, receipts[..k])
      invariant Anchor(anchorSequence, anchorHash, previousReceipt) == AnchorAfter(d, receipts[..k])
    {
      var row := receipts[k];
      var fault := ReceiptFault(trust, row, Anchor(anchorSequence, anchorHash, previousReceipt));
      if fault.Some? {
        assert FirstBadReceipt(d, trust, receipts, k, fault.value);
        HistoryExtends(d, trust, receipts, k);
        BrokenHistory(d, trust, receipts, k + 1);
        return HistoryBroken(fault.value);
      }
      HistoryExtends(d, trust, receipts, k);
      AnchorOfPrefix(d, receipts, k);
      anchorSequence := row.prunedThrough;
      anchorHash := row.prunedHash;
      previousReceipt := Some(row.receiptId);
    }
    assert receipts[..|receipts|] == receipts;
    if state.anchorSequence != anchorSequence || state.anchorHash != anchorHash || state.lastReceipt != previousReceipt {
      return HistoryBroken(Fault(RetentionBoundaryMismatch, if anchorSequence == 0 then None else Some(anchorSequence)));
    }
    r := HistoryValid;
  }

  // ----- the chain -----

  /** The verdict of `verifyIntegrity`, with how many links it had verified when it stopped. */
  datatype Integrity =
    | Valid(verified: nat)
    | Invalid(fault: Fault, verified: nat)
    | Unavailable

  /** A state row the status report can carry: the contract of the report rejects anything else and the call fails. */
  predicate Reportable(s: Option<ChainState>) {
    s.Some? ==> 0 <= s.value.anchorSequence && 0 <= s.value.headSequence && IsDigest(s.value.anchorHash) && IsDigest(s.value.headHash)
  }

  function Report(state: Option<ChainState>, fault: Fault, verified: nat): Integrity {
    if Reportable(state) && (fault.sequence.Some? ==> fault.sequence.value > 0) then Invalid(fault, verified) else Unavailable
  }

  /** The links before position k are intact and k is the first that is not. */
  ghost predicate FirstBreak(d: Digests, s: Store, anchor: nat, anchorHash: Text, k: nat, fault: Fault) {
    && k < |s.links|
    && LinksHold(d, s.events, anchor, anchorHash, s.links[..k])
    && LinkFault(d, s.events, s.links[k], anchor + 1 + k, TipHash(anchorHash, s.links[..k])) == Some(fault)
  }

  method FindStale(links: seq<Link>, anchor: int) returns (stale: bool)
    ensures stale <==> exists k :: 0 <= k < |links| && links[k].sequence <= anchor
  {
    stale := exists k :: 0 <= k < |links| && links[k].sequence <= anchor;
  }

  method FindUnchained(s: Store) returns (unchained: bool)
    ensures unchained <==> !AllChained(s)
  {
    unchained := false;
    for i := 0 to |s.events|
      invariant !unchained <==> forall j :: 0 <= j < i ==> IsChained(s.links, s.events[j])
    {
      var chained := exists k :: 0 <= k < |s.links| && s.links[k].eventId == s.events[i].id;
      assert chained <==> IsChained(s.links, s.events[i]);
      unchained := unchained || !chained;
    }
  }

  lemma LinksExtend(d: Digests, events: seq<EventRow>, anchor: nat, anchorHash: Text, links: seq<Link>, k: nat)
    requires k < |links|
    ensures LinksHold(d, events, anchor, anchorHash, links[..k + 1]) <==>
      LinksHold(d, events, anchor, anchorHash, links[..k])
      && LinkFault(d, events, links[k], anchor + 1 + k, TipHash(anchorHash, links[..k])).None?
  {
    assert links[..k + 1][..k] == links[..k];
  }

  lemma {:induction false} BrokenLinks(d: Digests, events: seq<EventRow>, anchor: nat, anchorHash: Text, links: seq<Link>, k: nat)
    requires k <= |links| && !LinksHold(d, events, anchor, anchorHash, links[..k])
    ensures !LinksHold(d, events, anchor, anchorHash, links)
    decreases |links| - k
  {
    if k == |links| {
      assert links[..k] == links;
    } else {
      LinksExtend(d, events, anchor, anchorHash, links, k);
      BrokenLinks(d, events, anchor, anchorHash, links, k + 1);
    }
  }

  lemma TipOfPrefix(anchorHash: Text, links: seq<Link>, k: nat)
    requires k < |links|
    ensures TipHash(anchorHash, links[..k + 1]) == links[k].chainHash
  {
  }

  /** The walk over the links. */
  method WalkLinks(d: Digests, s: Store, anchor: nat, anchorHash: Text) returns (fault: Option<Fault>, verified: nat, tip: Text)
    ensures fault.Some? ==> FirstBreak(d, s, anchor, anchorHash, verified, fault.value)
    ensures fault.None? <==> LinksHold(d, s.events, anchor, anchorHash, s.links)
    ensures fault.None? ==> verified == |s.links| && tip == TipHash(anchorHash, s.links)
  {
    verified := 0;
    var expected := anchor + 1;
    tip := anchorHash;
    while verified < |s.links|
      invariant 0 <= verified <= |s.links| && expected == anchor + 1 + verified
      invariant tip == TipHash(anchorHash, s.links[..verified])
      invariant LinksHold(d, s.events, anchor, anchorHash, s.links[..verified])
    {
      var link := s.links[verified];
      LinksExtend(d, s.events, anchor, anchorHash, s.links, verified);
      fault := LinkFault(d, s.events, link, expected, tip);
      if fault.Some? {
        BrokenLinks(d, s.events, anchor, anchorHash, s.links, verified + 1);
        return;
      }
      TipOfPrefix(anchorHash, s.links, verified);
      tip := link.chainHash;
      expected := expected + 1;
      verified := verified + 1;
    }
    fault := None;
    assert s.links[..|s.links|] == s.links;
  }

  /** Which part of the description a verdict of invalid names. */
  ghost predicate Blames(d: Digests, trust: Trust, s: Store, fault: Fault, verified: nat) {
    if s.schema != SCHEMA_VERSION then
      fault == Fault(if s.schema < SCHEMA_VERSION then ChainSchemaMissing else UnsupportedVersion, None)
    else if s.state.None? then fault == Fault(StateMissing, None)
    else
      var state := s.state.value;
      if !ValidState(d, state) then
        fault == Fault(if state.chainVersion == Ascii(CHAIN_VERSION) then MalformedRow else UnsupportedVersion, None)
      else if !HistoryHolds(d, trust, s.receipts) || !Anchored(state, AnchorAfter(d, s.receipts)) then
        BadHistory(d, trust, s.receipts, state, fault)
      else if exists k :: 0 <= k < |s.links| && s.links[k].sequence <= state.anchorSequence then
        fault == Fault(RetentionBoundaryMismatch, None)
      else if !LinksHold(d, s.events, state.anchorSequence, state.anchorHash, s.links) then
        FirstBreak(d, s, state.anchorSequence, state.anchorHash, verified, fault)
      else if !AllChained(s) then fault == Fault(UnchainedEvent, None)
      else fault == Fault(HeadMismatch, if state.headSequence == 0 then None else Some(state.headSequence))
  }

  /**
   `verifyIntegrity`. The verdict is valid exactly on sound chains; otherwise it names the first part of the description
   that fails, or is unavailable when the report cannot carry the state row or the sequence of the fault.
   */
  method VerifyIntegrity(d: Digests, trust: Trust, s: Store) returns (r: Integrity)
    ensures r.Valid? <==> Sound(d, trust, s)
    ensures r.Valid? ==> r.verified == |s.links|
    ensures r.Invalid? ==> Blames(d, trust, s, r.fault, r.verified)
    ensures r.Unavailable? ==>
      exists fault: Fault, verified: nat :: Blames(d, trust, s, fault, verified) && Report(s.state, fault, verified).Unavailable?
  {
    if s.schema != SCHEMA_VERSION {
      return Report(None, Fault(if s.schema < SCHEMA_VERSION then ChainSchemaMissing else UnsupportedVersion, None), 0);
    }
    if s.state.None? {
      return Report(None, Fault(StateMissing, None), 0);
    }
    var state := s.state.value;
    if !ValidState(d, state) {
      var fault := Fault(if state.chainVersion == Ascii(CHAIN_VERSION) then MalformedRow else UnsupportedVersion, None);
      assert Blames(d, trust, s, fault, 0);
      return Report(s.state, fault, 0);
    }
    var history := VerifyRetentionHistory(d, trust, s.receipts, state);
    if history.HistoryBroken? {
      assert Blames(d, trust, s, history.fault, 0);
      return Report(s.state, history.fault, 0);
    }
    var stale := FindStale(s.links, state.anchorSequence);
    if stale {
      StaleLinksAreNotIntact(d, trust, s);
      return Report(s.state, Fault(RetentionBoundaryMismatch, None), 0);
    }
    var fault, verified, tip := WalkLinks(d, s, state.anchorSequence, state.anchorHash);
    if fault.Some? {
      assert Blames(d, trust, s, fault.value, verified);
      return Report(s.state, fault.value, verified);
    }
    var unchained := FindUnchained(s);
    if unchained {
      assert Blames(d, trust, s, Fault(UnchainedEvent, None), verified);
      return Report(s.state, Fault(UnchainedEvent, None), verified);
    }
    if state.anchorSequence + verified != state.headSequence || tip != state.headHash {
      var mismatch := Fault(HeadMismatch, if state.headSequence == 0 then None else Some(state.headSequence));
      assert Blames(d, trust, s, mismatch, verified);
      return Report(s.state, mismatch, verified);
    }
    r := Valid(verified);
  }

  lemma {:induction false} HeldLinksAreNumbered(d: Digests, events: seq<EventRow>, anchor: nat, anchorHash: Text, links: seq<Link>, k: nat)
    requires LinksHold(d, events, anchor, anchorHash, links) && k < |links|
    ensures links[k].sequence == anchor + 1 + k
  {
    if k < |links| - 1 { HeldLinksAreNumbered(d, events, anchor, anchorHash, links[..|links| - 1], k); }
  }

  lemma StaleLinksAreNotIntact(d: Digests, trust: Trust, s: Store)
    requires s.state.Some? && ValidState(d, s.state.value)
    requires exists k :: 0 <= k < |s.links| && s.links[k].sequence <= s.state.value.anchorSequence
    ensures !Sound(d, trust, s)
  {
    var k :| 0 <= k < |s.links| && s.links[k].sequence <= s.state.value.anchorSequence;
    if Sound(d, trust, s) {
      HeldLinksAreNumbered(d, s.events, s.state.value.anchorSequence, s.state.value.anchorHash, s.links, k);
    }
  }
}
