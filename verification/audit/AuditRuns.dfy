/**
 Any run of appends and retentions from a migrated log: the verifier accepts every state, nothing that is still kept
 ever changed, and what is gone is accounted for by receipts that tile it.
 */
module AuditRuns {
  import opened Prelude
  import opened Texts
  import opened Hashing
  import opened AuditHash
  import opened AuditModel
  import opened AuditVerifier
  import opened AuditCommitment
  import opened AuditSpec
  import opened AuditLaws

  datatype AuditOp =
    | AppendRow(row: EventRow, redaction: Text, now: int)
    | RetainLog(call: RetentionCall)

  ghost function Next(d: Digests, trust: Trust, s: Store, op: AuditOp): Store {
    match op
    case AppendRow(row, redaction, now) =>
      (match Append(d, s, row, redaction, now) case Some(s') => s' case None => s)
    case RetainLog(call) =>
      (match Retain(trust, s, call) case Some(r) => r.0 case None => s)
  }

  ghost function After(d: Digests, trust: Trust, s: Store, ops: seq<AuditOp>): Store
    decreases |ops|
  {
    if ops == [] then s else After(d, trust, Next(d, trust, s, ops[0]), ops[1..])
  }

  /** How many rows a run appends. */
  ghost function Appended(d: Digests, trust: Trust, s: Store, ops: seq<AuditOp>): nat
    decreases |ops|
  {
    if ops == [] then 0
    else
      var op := ops[0];
      (if op.AppendRow? && Append(d, s, op.row, op.redaction, op.now).Some? then 1 else 0)
      + Appended(d, trust, Next(d, trust, s, op), ops[1..])
  }

  // ----- immutability -----

  /** From s to t the anchor and the head moved on, and every link t still has from s is as it was, with its event. */
  ghost predicate Evolved(s: Store, t: Store) {
    s.state.Some? && t.state.Some? &&
    var skip := t.state.value.anchorSequence - s.state.value.anchorSequence;
    && 0 <= skip && s.state.value.headSequence <= t.state.value.headSequence
    && |s.links| - skip <= |t.links|
    && (forall k :: 0 <= k < |s.links| - skip ==>
          && t.links[k] == s.links[skip + k]
          && FindEvent(t.events, t.links[k].eventId) == FindEvent(s.events, t.links[k].eventId))
    && |s.receipts| <= |t.receipts| && t.receipts[..|s.receipts|] == s.receipts
  }

  lemma EvolvedTransitively(s: Store, t: Store, u: Store)
    requires Evolved(s, t) && Evolved(t, u)
    ensures Evolved(s, u)
  {
    var a := t.state.value.anchorSequence - s.state.value.anchorSequence;
    var b := u.state.value.anchorSequence - t.state.value.anchorSequence;
    forall k | 0 <= k < |s.links| - (a + b)
      ensures u.links[k] == s.links[a + b + k] && FindEvent(u.events, u.links[k].eventId) == FindEvent(s.events, u.links[k].eventId)
    {
      assert u.links[k] == t.links[b + k] && t.links[b + k] == s.links[a + (b + k)];
      assert FindEvent(t.events, t.links[b + k].eventId) == FindEvent(s.events, t.links[b + k].eventId);
    }
    assert u.receipts[..|s.receipts|] == u.receipts[..|t.receipts|][..|s.receipts|];
  }

  /** One event and one link more, and the rest as it was. */
  ghost predicate GrownBy(s: Store, t: Store, row: EventRow) {
    && s.state.Some? && t.state.Some?
    && t.events == s.events + [row] && |t.links| == |s.links| + 1 && t.links[..|s.links|] == s.links
    && t.state.value.headSequence == s.state.value.headSequence + 1
    && t.state.value.anchorSequence == s.state.value.anchorSequence && t.receipts == s.receipts
  }

  lemma AppendGrows(d: Digests, s: Store, row: EventRow, redaction: Text, now: int)
    requires Append(d, s, row, redaction, now).Some?
    ensures GrownBy(s, Append(d, s, row, redaction, now).value, row) && FindEvent(s.events, row.id).None?
  {
    AppendAddsOne(d, s, row, redaction, now);
  }

  lemma GrownIsEvolved(d: Digests, s: Store, t: Store, row: EventRow)
    requires Hangs(d, s) && GrownBy(s, t, row) && FindEvent(s.events, row.id).None?
    ensures Evolved(s, t)
  {
    forall k | 0 <= k < |s.links|
      ensures t.links[k] == s.links[k] && FindEvent(t.events, t.links[k].eventId) == FindEvent(s.events, t.links[k].eventId)
    {
      assert t.links[k] == t.links[..|s.links|][k];
      HeldLinkFindsItsEvent(d, s.events, s.state.value.anchorSequence, s.state.value.anchorHash, s.links, k);
      FindAppended(s.events, row, s.links[k].eventId);
    }
  }

  lemma AppendEvolves(d: Digests, trust: Trust, s: Store, row: EventRow, redaction: Text, now: int)
    requires Kept(d, trust, s) && s.state.value.headSequence < MAX_SAFE && Append(d, s, row, redaction, now).Some?
    ensures var t := Append(d, s, row, redaction, now).value;
      Kept(d, trust, t) && Evolved(s, t) && t.state.value.headSequence == s.state.value.headSequence + 1
  {
    AppendKeepsAll(d, trust, s, row, redaction, now);
    AppendGrows(d, s, row, redaction, now);
    GrownIsEvolved(d, s, Append(d, s, row, redaction, now).value, row);
  }

  lemma ConservedIsEvolved(s: Store, t: Store, cutoff: int)
    requires s.state.Some? && t.state.Some? && Conserves(s, t, cutoff) && s.state.value.anchorSequence <= cutoff
    ensures Evolved(s, t)
  {
  }

  lemma RetainEvolves(d: Digests, trust: Trust, s: Store, call: RetentionCall)
    requires Kept(d, trust, s) && Retain(trust, s, call).Some?
    ensures var t := Retain(trust, s, call).value.0;
      Kept(d, trust, t) && Evolved(s, t) && t.state.value.headSequence == s.state.value.headSequence
  {
    RetainKeepsAll(d, trust, s, call);
    RetentionConserves(d, trust, s, call);
    ConservedIsEvolved(s, Retain(trust, s, call).value.0, call.request.cutoff);
  }

  lemma NextEvolves(d: Digests, trust: Trust, s: Store, op: AuditOp)
    requires Kept(d, trust, s) && s.state.value.headSequence < MAX_SAFE
    ensures var t := Next(d, trust, s, op);
      && Kept(d, trust, t) && Evolved(s, t)
      && t.state.value.headSequence == s.state.value.headSequence
        + if op.AppendRow? && Append(d, s, op.row, op.redaction, op.now).Some? then 1 else 0
  {
    EvolvedToItself(s);
    if op.AppendRow? {
      if Append(d, s, op.row, op.redaction, op.now).Some? { AppendEvolves(d, trust, s, op.row, op.redaction, op.now); }
    } else if Retain(trust, s, op.call).Some? {
      RetainEvolves(d, trust, s, op.call);
    }
  }

  lemma EvolvedToItself(s: Store)
    requires s.state.Some?
    ensures Evolved(s, s)
  {
  }

  lemma {:induction false} RunsKeepAll(d: Digests, trust: Trust, s: Store, ops: seq<AuditOp>)
    requires Kept(d, trust, s) && s.state.value.headSequence + |ops| <= MAX_SAFE
    ensures var t := After(d, trust, s, ops);
      && Kept(d, trust, t) && Evolved(s, t)
      && t.state.value.headSequence == s.state.value.headSequence + Appended(d, trust, s, ops)
    decreases |ops|
  {
    EvolvedToItself(s);
    if ops != [] {
      var s1 := Next(d, trust, s, ops[0]);
      NextEvolves(d, trust, s, ops[0]);
      RunsKeepAll(d, trust, s1, ops[1..]);
      EvolvedTransitively(s, s1, After(d, trust, s1, ops[1..]));
    }
  }

  // ----- conservation -----

  /** How many links the receipts of a history account for. */
  function PrunedTotal(receipts: seq<Receipt>): int {
    if receipts == [] then 0
    else
      var last := receipts[|receipts| - 1];
      PrunedTotal(receipts[..|receipts| - 1]) + last.prunedThrough - last.previousAnchorSequence
  }

  /** A receipt accounts for the sequence numbers after its previous anchor up to its cutoff. */
  predicate Covers(r: Receipt, n: int) { r.previousAnchorSequence < n <= r.prunedThrough }

  predicate Covered(receipts: seq<Receipt>, n: int) {
    exists i :: 0 <= i < |receipts| && Covers(receipts[i], n)
  }

  lemma CoveredSnoc(receipts: seq<Receipt>, n: int)
    requires receipts != []
    ensures Covered(receipts, n) <==> Covered(receipts[..|receipts| - 1], n) || Covers(receipts[|receipts| - 1], n)
  {
    var front := receipts[..|receipts| - 1];
    if Covered(front, n) {
      var i :| 0 <= i < |front| && Covers(front[i], n);
      assert Covers(receipts[i], n);
    }
    if Covered(receipts, n) && !Covers(receipts[|receipts| - 1], n) {
      var i :| 0 <= i < |receipts| && Covers(receipts[i], n);
      assert Covers(front[i], n);
    }
  }

  lemma LastReceiptContinues(d: Digests, trust: Trust, receipts: seq<Receipt>)
    requires HistoryHolds(d, trust, receipts) && receipts != []
    ensures var front := receipts[..|receipts| - 1];
      HistoryHolds(d, trust, front) && Continues(receipts[|receipts| - 1], AnchorAfter(d, front))
  {
  }

  lemma {:induction false} HistoryAddsUp(d: Digests, trust: Trust, receipts: seq<Receipt>)
    requires HistoryHolds(d, trust, receipts)
    ensures PrunedTotal(receipts) == AnchorAfter(d, receipts).sequence >= 0
  {
    if receipts != [] {
      LastReceiptContinues(d, trust, receipts);
      HistoryAddsUp(d, trust, receipts[..|receipts| - 1]);
    }
  }

  lemma {:induction false} HistoryCovers(d: Digests, trust: Trust, receipts: seq<Receipt>, n: int)
    requires HistoryHolds(d, trust, receipts)
    ensures Covered(receipts, n) <==> 1 <= n <= AnchorAfter(d, receipts).sequence
  {
    if receipts != [] {
      LastReceiptContinues(d, trust, receipts);
      HistoryCovers(d, trust, receipts[..|receipts| - 1], n);
      HistoryAddsUp(d, trust, receipts[..|receipts| - 1]);
      CoveredSnoc(receipts, n);
    }
  }

  lemma {:induction false} ReceiptsEndByTheAnchor(d: Digests, trust: Trust, receipts: seq<Receipt>, i: nat)
    requires HistoryHolds(d, trust, receipts) && i < |receipts|
    ensures receipts[i].prunedThrough <= AnchorAfter(d, receipts).sequence
  {
    LastReceiptContinues(d, trust, receipts);
    if i < |receipts| - 1 { ReceiptsEndByTheAnchor(d, trust, receipts[..|receipts| - 1], i); }
  }

  lemma {:induction false} NoReceiptCoversTwice(d: Digests, trust: Trust, receipts: seq<Receipt>, i: nat, j: nat, n: int)
    requires HistoryHolds(d, trust, receipts) && i < j < |receipts| && Covers(receipts[i], n)
    ensures !Covers(receipts[j], n)
    ensures receipts[j].previousReceipt == Some(receipts[j - 1].receiptId)
  {
    var front := receipts[..|receipts| - 1];
    LastReceiptContinues(d, trust, receipts);
    if j < |receipts| - 1 {
      NoReceiptCoversTwice(d, trust, front, i, j, n);
    } else {
      ReceiptsEndByTheAnchor(d, trust, front, i);
    }
  }

  /**
   An accepted history tiles the sequence numbers up to its anchor: exactly those are covered, none is covered twice,
   and the lengths of the receipts add up to the anchor.
   */
  lemma HistoryTiles(d: Digests, trust: Trust, receipts: seq<Receipt>)
    requires HistoryHolds(d, trust, receipts)
    ensures PrunedTotal(receipts) == AnchorAfter(d, receipts).sequence
    ensures forall n :: Covered(receipts, n) <==> 1 <= n <= AnchorAfter(d, receipts).sequence
    ensures forall i, j, n :: 0 <= i < j < |receipts| && Covers(receipts[i], n) ==> !Covers(receipts[j], n)
  {
    HistoryAddsUp(d, trust, receipts);
    forall n ensures Covered(receipts, n) <==> 1 <= n <= AnchorAfter(d, receipts).sequence {
      HistoryCovers(d, trust, receipts, n);
    }
    forall i, j, n | 0 <= i < j < |receipts| && Covers(receipts[i], n) ensures !Covers(receipts[j], n) {
      NoReceiptCoversTwice(d, trust, receipts, i, j, n);
    }
  }

  /** In every accepted chain what was pruned and what is kept add up to everything ever chained. */
  lemma PrunedAndKeptAddUp(d: Digests, trust: Trust, s: Store)
    requires Sound(d, trust, s)
    ensures PrunedTotal(s.receipts) + |s.links| == s.state.value.headSequence
  {
    HistoryAddsUp(d, trust, s.receipts);
  }

  /** How many rows a log of any age can have been given so far. */
  lemma MigratedHead(d: Digests, rows: seq<EventRow>, now: int)
    requires Migrate(d, rows, now).Some?
    ensures Migrate(d, rows, now).value.state.value.headSequence == |rows|
  {
  }

  /**
   Every store reachable from a migrated log by any appends and retentions, with the keys that are trusted throughout,
   is judged valid; the links the verifier counts are the head less the anchor; all rows ever chained are either still
   linked or covered by a receipt.
   */
  lemma ReachableChainsAreValid(d: Digests, trust: Trust, rows: seq<EventRow>, now: int, ops: seq<AuditOp>)
    requires DistinctEvents(rows) && Migrate(d, rows, now).Some? && |rows| + |ops| <= MAX_SAFE
    ensures var s0 := Migrate(d, rows, now).value;
      var s := After(d, trust, s0, ops);
      && Sound(d, trust, s) && Rooted(s)
      && |s.links| == s.state.value.headSequence - s.state.value.anchorSequence
      && s.state.value.headSequence == |rows| + Appended(d, trust, s0, ops)
      && PrunedTotal(s.receipts) + |s.links| == |rows| + Appended(d, trust, s0, ops)
      && Evolved(s0, s)
  {
    var s0 := Migrate(d, rows, now).value;
    MigratedIsKept(d, trust, rows, now);
    MigratedHead(d, rows, now);
    RunsKeepAll(d, trust, s0, ops);
    PrunedAndKeptAddUp(d, trust, After(d, trust, s0, ops));
  }

  // ----- the head over time -----

  /**
   Two verified stores of one log at different times: what the later one still holds of the earlier one is unchanged,
   and a store that shows the same head as a reachable one holds the same log above the larger anchor.
   */
  lemma ReachableHeadsCommit(sha: Hash, trust: Trust, rows: seq<EventRow>, now: int, ops: seq<AuditOp>, trust': Trust, t: Store)
    requires DistinctEvents(rows) && Migrate(DigestsOf(sha), rows, now).Some? && |rows| + |ops| <= MAX_SAFE
    requires Sound(DigestsOf(sha), trust', t) && Rooted(t)
    requires var s := After(DigestsOf(sha), trust, Migrate(DigestsOf(sha), rows, now).value, ops);
      && s.state.Some? && t.state.value.headHash == s.state.value.headHash
      && s.state.value.anchorSequence <= t.state.value.anchorSequence
    ensures var s := After(DigestsOf(sha), trust, Migrate(DigestsOf(sha), rows, now).value, ops);
      && s.state.Some? && 0 <= s.state.value.anchorSequence <= t.state.value.anchorSequence
      && (StoresCollide(sha, s, t) || (Committed(s, t) && s.state.value.headSequence == t.state.value.headSequence))
  {
    ReachableChainsAreValid(DigestsOf(sha), trust, rows, now, ops);
    HeadHashCommitsToTheLog(sha, trust, After(DigestsOf(sha), trust, Migrate(DigestsOf(sha), rows, now).value, ops), trust', t);
  }

  // ----- where a break is reported -----

  predicate BreakCode(c: FailureCode) {
    c == SequenceGap || c == PreviousHashMismatch || c == MissingEvent || c == PayloadHashMismatch || c == ChainHashMismatch
  }

  lemma LinkFaultIsLocal(d: Digests, events: seq<EventRow>, l: Link, n: nat, previous: Text)
    requires LinkFault(d, events, l, n, previous).Some? && BreakCode(LinkFault(d, events, l, n, previous).value.code)
    ensures LinkFault(d, events, l, n, previous).value.sequence == Some(n)
  {
  }

  lemma ReceiptFaultsAreNoBreaks(trust: Trust, r: Receipt, a: Anchor)
    ensures ReceiptFault(trust, r, a).Some? ==> !BreakCode(ReceiptFault(trust, r, a).value.code)
  {
  }

  lemma FirstBadReceiptIsNoBreak(d: Digests, trust: Trust, receipts: seq<Receipt>, k: nat, fault: Fault)
    requires FirstBadReceipt(d, trust, receipts, k, fault)
    ensures !BreakCode(fault.code)
  {
    ReceiptFaultsAreNoBreaks(trust, receipts[k], AnchorAfter(d, receipts[..k]));
  }

  lemma BadHistoriesAreNoBreaks(d: Digests, trust: Trust, receipts: seq<Receipt>, state: ChainState, fault: Fault)
    requires BadHistory(d, trust, receipts, state, fault)
    ensures !BreakCode(fault.code)
  {
    if fault.code != RetentionBoundaryMismatch {
      var k :| FirstBadReceipt(d, trust, receipts, k, fault);
      FirstBadReceiptIsNoBreak(d, trust, receipts, k, fault);
    }
  }

  lemma BreaksAreOfLinks(d: Digests, trust: Trust, s: Store, fault: Fault, verified: nat)
    requires Blames(d, trust, s, fault, verified) && BreakCode(fault.code)
    ensures s.state.Some? && 0 <= s.state.value.anchorSequence
    ensures FirstBreak(d, s, s.state.value.anchorSequence, s.state.value.anchorHash, verified, fault)
  {
    if s.state.Some? && BadHistory(d, trust, s.receipts, s.state.value, fault) {
      BadHistoriesAreNoBreaks(d, trust, s.receipts, s.state.value, fault);
    }
  }

  /** A break reported where it is: what is before is intact, what is there is not, and the sequence says so. */
  predicate Localised(d: Digests, s: Store, anchor: nat, anchorHash: Text, verified: nat, fault: Fault) {
    && verified < |s.links| && fault.sequence == Some(anchor + verified + 1)
    && LinksHold(d, s.events, anchor, anchorHash, s.links[..verified])
    && !LinksHold(d, s.events, anchor, anchorHash, s.links[..verified + 1])
  }

  lemma FirstBreakIsLocal(d: Digests, s: Store, anchor: nat, anchorHash: Text, verified: nat, fault: Fault)
    requires FirstBreak(d, s, anchor, anchorHash, verified, fault) && BreakCode(fault.code)
    ensures Localised(d, s, anchor, anchorHash, verified, fault)
  {
    LinkFaultIsLocal(d, s.events, s.links[verified], anchor + 1 + verified, TipHash(anchorHash, s.links[..verified]));
    LinksExtend(d, s.events, anchor, anchorHash, s.links, verified);
  }

  /** A reported break is the first: every link between the anchor and the reported sequence is intact, that one is not. */
  lemma BreaksAreLocalised(d: Digests, trust: Trust, s: Store, fault: Fault, verified: nat)
    requires Blames(d, trust, s, fault, verified) && BreakCode(fault.code)
    ensures s.state.Some? && 0 <= s.state.value.anchorSequence
    ensures Localised(d, s, s.state.value.anchorSequence, s.state.value.anchorHash, verified, fault)
  {
    BreaksAreOfLinks(d, trust, s, fault, verified);
    FirstBreakIsLocal(d, s, s.state.value.anchorSequence, s.state.value.anchorHash, verified, fault);
  }
}
