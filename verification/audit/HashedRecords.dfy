/**
 What the hashed and signed texts say: read as JSON, each is an object with exactly the fields of the source under the
 names of the source (packages/governance/src/auditChainHash.ts, auditRetention.ts, ledgerSerialization.ts).
 */
module HashedRecords {
  import opened Prelude
  import opened Texts
  import opened KeyedLists
  import opened CanonicalJson
  import opened CanonicalParser
  import opened Hashing
  import opened AuditHash
  import AuditModel
  import E = AuditEntries
  import Fingerprints
  import Numbers

  /** A text is that of an object with so many members. */
  ghost predicate ReadsAs(text: Text, ns: seq<Keyed<Json>>, count: nat) {
    ParseValue(text) == Some((Obj(ns), [])) && |ns| == count
  }

  /** An object has a value under a key. */
  ghost predicate Has(ns: seq<Keyed<Json>>, key: string, value: Json) {
    Keyed(Ascii(key), value) in ns
  }

  /** The members of an object are among others, in their normal form. */
  ghost predicate AreRead(ms: seq<Keyed<Json>>, ns: seq<Keyed<Json>>) {
    forall k :: 0 <= k < |ms| ==> Keyed(ms[k].key, Normalize(ms[k].value)) in ns
  }

  /** Every member of an object is read back from its canonical text, in its normal form. */
  lemma ObjectsAreReadBack(ms: seq<Keyed<Json>>) returns (ns: seq<Keyed<Json>>)
    ensures Normalize(Obj(ms)) == Obj(ns) && ReadsAs(Canonicalize(Obj(ms)), ns, |ms|)
    ensures AreRead(ms, ns)
  {
    var normal := NormalizeMembers(ms);
    ns := Sort(normal);
    ParseCanonical(Obj(ms));
    SortHolds(normal);
    forall i | 0 <= i < |ms| ensures Keyed(ms[i].key, Normalize(ms[i].value)) in ns {
      assert normal[i] in normal;
    }
  }

  predicate IsScalar(v: Json) { !v.Arr? && !v.Obj? }

  lemma ReadMember(ms: seq<Keyed<Json>>, ns: seq<Keyed<Json>>, i: nat, key: string, value: Json)
    requires AreRead(ms, ns)
    requires i < |ms| && ms[i].key == Ascii(key) && ms[i].value == value && IsScalar(value)
    ensures Has(ns, key, value)
  {
  }

  /** The text whose hash every chain begins with. */
  lemma ChainsBeginWithTheGenesis(sha: Hash)
    ensures DigestsOf(sha).genesis == sha(Ascii("gev.audit.chain.v1:genesis"))
  {
    assert CHAIN_VERSION + ":genesis" == "gev.audit.chain.v1:genesis";
  }

  // ----- links -----

  /** The hashed text of a link. */
  lemma LinkTextsReadAsLinks(sequence: nat, previous: Text, payload: Text) returns (ns: seq<Keyed<Json>>)
    ensures ReadsAs(LinkText(sequence, previous, payload), ns, 5)
    ensures Has(ns, "format", Str(Ascii("gev.audit.link.v1"))) && Has(ns, "chain_version", Str(Ascii("gev.audit.chain.v1")))
    ensures Has(ns, "payload_hash", Str(payload)) && Has(ns, "previous_hash", Str(previous))
    ensures Has(ns, "sequence", Number(Numbers.OfNat(sequence)))
  {
    var ms := LinkMembers(sequence, previous, payload);
    ns := ObjectsAreReadBack(ms);
    ReadMember(ms, ns, 0, "format", Str(Ascii("gev.audit.link.v1")));
    ReadMember(ms, ns, 1, "chain_version", Str(Ascii("gev.audit.chain.v1")));
    ReadMember(ms, ns, 2, "payload_hash", Str(payload));
    ReadMember(ms, ns, 3, "previous_hash", Str(previous));
    ReadMember(ms, ns, 4, "sequence", Number(Numbers.OfNat(sequence)));
  }

  // ----- events -----

  /** An object holds what an event says of an intent. */
  ghost predicate HoldsIntent(rs: seq<Keyed<Json>>, row: EventRow) {
    && Has(rs, "action", Nullable(row.action)) && Has(rs, "actor", Nullable(row.actor)) && Has(rs, "target", Nullable(row.target))
    && Has(rs, "task_ref", Nullable(row.taskRef)) && Has(rs, "params", Nullable(row.params))
  }

  /** What it says of an outcome. */
  ghost predicate HoldsOutcome(rs: seq<Keyed<Json>>, row: EventRow) {
    && Has(rs, "status", Nullable(row.status)) && Has(rs, "result", Nullable(row.result)) && Has(rs, "error", Nullable(row.error))
    && Has(rs, "duration_ms", NullableNumber(row.duration))
  }

  /** An object holds the columns of an event and nothing else. */
  ghost predicate HoldsEvent(rs: seq<Keyed<Json>>, row: EventRow) {
    && |rs| == 13 && HoldsIntent(rs, row) && HoldsOutcome(rs, row)
    && Has(rs, "id", Str(row.id)) && Has(rs, "intent_id", Nullable(row.intentId)) && Has(rs, "kind", Str(row.kind)) && Has(rs, "ts", Str(row.ts))
  }

  lemma IntentsAreRead(row: EventRow, ms: seq<Keyed<Json>>, rs: seq<Keyed<Json>>)
    requires ms == RowMembers(row) && AreRead(ms, rs)
    ensures HoldsIntent(rs, row)
  {
    ReadMember(ms, rs, 0, "action", Nullable(row.action));
    ReadMember(ms, rs, 1, "actor", Nullable(row.actor));
    ReadMember(ms, rs, 7, "params", Nullable(row.params));
    ReadMember(ms, rs, 10, "target", Nullable(row.target));
    ReadMember(ms, rs, 11, "task_ref", Nullable(row.taskRef));
  }

  lemma OutcomesAreRead(row: EventRow, ms: seq<Keyed<Json>>, rs: seq<Keyed<Json>>)
    requires ms == RowMembers(row) && AreRead(ms, rs)
    ensures HoldsOutcome(rs, row)
  {
    ReadMember(ms, rs, 2, "duration_ms", NullableNumber(row.duration));
    ReadMember(ms, rs, 3, "error", Nullable(row.error));
    ReadMember(ms, rs, 8, "result", Nullable(row.result));
    ReadMember(ms, rs, 9, "status", Nullable(row.status));
  }

  lemma NamesAreRead(row: EventRow, ms: seq<Keyed<Json>>, rs: seq<Keyed<Json>>)
    requires ms == RowMembers(row) && AreRead(ms, rs)
    ensures |ms| == 13
    ensures Has(rs, "id", Str(row.id)) && Has(rs, "intent_id", Nullable(row.intentId)) && Has(rs, "kind", Str(row.kind)) && Has(rs, "ts", Str(row.ts))
  {
    ReadMember(ms, rs, 4, "id", Str(row.id));
    ReadMember(ms, rs, 5, "intent_id", Nullable(row.intentId));
    ReadMember(ms, rs, 6, "kind", Str(row.kind));
    ReadMember(ms, rs, 12, "ts", Str(row.ts));
  }

  lemma RowsAreReadBack(row: EventRow) returns (rs: seq<Keyed<Json>>)
    ensures Normalize(Obj(RowMembers(row))) == Obj(rs) && HoldsEvent(rs, row)
  {
    var ms := RowMembers(row);
    rs := ObjectsAreReadBack(ms);
    IntentsAreRead(row, ms, rs);
    OutcomesAreRead(row, ms, rs);
    NamesAreRead(row, ms, rs);
  }

  /** The hashed text of an event. */
  lemma PayloadTextsReadAsEvents(row: EventRow, redaction: Text) returns (ns: seq<Keyed<Json>>, rs: seq<Keyed<Json>>)
    ensures ReadsAs(PayloadText(row, redaction), ns, 3)
    ensures Has(ns, "format", Str(Ascii("gev.audit.event.v1"))) && Has(ns, "redaction_version", Str(redaction))
    ensures Has(ns, "row", Obj(rs)) && HoldsEvent(rs, row)
  {
    var ms := PayloadMembers(row, redaction);
    ns := ObjectsAreReadBack(ms);
    rs := RowsAreReadBack(row);
    ReadMember(ms, ns, 0, "format", Str(Ascii("gev.audit.event.v1")));
    ReadMember(ms, ns, 1, "redaction_version", Str(redaction));
    assert Keyed(ms[2].key, Normalize(ms[2].value)) in ns;
  }

  // ----- receipts -----

  /** An object holds who signed and approved what for which reason. */
  ghost predicate HoldsApproval(ns: seq<Keyed<Json>>, r: AuditModel.Receipt) {
    && Has(ns, "algorithm", Str(r.algorithm)) && Has(ns, "approved_at", Str(r.approvedAt)) && Has(ns, "approved_by", Str(r.approvedBy))
    && Has(ns, "reason", Str(r.reason)) && Has(ns, "signer_id", Str(r.signerId)) && Has(ns, "key_id", Str(r.keyId))
  }

  /** The names of the receipt and of its formats. */
  ghost predicate HoldsNames(ns: seq<Keyed<Json>>, r: AuditModel.Receipt) {
    && Has(ns, "chain_version", Str(r.chainVersion)) && Has(ns, "format", Str(r.format))
    && Has(ns, "receipt_id", Str(r.receiptId)) && Has(ns, "previous_receipt_id", Nullable(r.previousReceipt))
  }

  /** The part of the chain that is taken away. */
  ghost predicate HoldsHashes(ns: seq<Keyed<Json>>, r: AuditModel.Receipt) {
    && Has(ns, "head_hash", Str(r.headHash)) && Has(ns, "previous_anchor_hash", Str(r.previousAnchorHash))
    && Has(ns, "pruned_through_hash", Str(r.prunedHash))
  }

  ghost predicate HoldsNumbers(ns: seq<Keyed<Json>>, r: AuditModel.Receipt) {
    && Has(ns, "head_sequence", Number(AuditModel.OfInt(r.headSequence)))
    && Has(ns, "previous_anchor_sequence", Number(AuditModel.OfInt(r.previousAnchorSequence)))
    && Has(ns, "pruned_through_sequence", Number(AuditModel.OfInt(r.prunedThrough)))
    && Has(ns, "retained_from_sequence", Number(AuditModel.OfInt(r.retainedFrom)))
  }

  lemma AlgorithmIsRead(r: AuditModel.Receipt, ms: seq<Keyed<Json>>, ns: seq<Keyed<Json>>)
    requires ms == AuditModel.ReceiptMembers(r) && AreRead(ms, ns)
    ensures Has(ns, "algorithm", Str(r.algorithm))
  {
    ReadMember(ms, ns, 0, "algorithm", Str(r.algorithm));
  }

  lemma ApprovalTimeIsRead(r: AuditModel.Receipt, ms: seq<Keyed<Json>>, ns: seq<Keyed<Json>>)
    requires ms == AuditModel.ReceiptMembers(r) && AreRead(ms, ns)
    ensures Has(ns, "approved_at", Str(r.approvedAt))
  {
    ReadMember(ms, ns, 1, "approved_at", Str(r.approvedAt));
  }

  lemma ApproverIsRead(r: AuditModel.Receipt, ms: seq<Keyed<Json>>, ns: seq<Keyed<Json>>)
    requires ms == AuditModel.ReceiptMembers(r) && AreRead(ms, ns)
    ensures Has(ns, "approved_by", Str(r.approvedBy))
  {
    ReadMember(ms, ns, 2, "approved_by", Str(r.approvedBy));
  }

  lemma ChainVersionIsRead(r: AuditModel.Receipt, ms: seq<Keyed<Json>>, ns: seq<Keyed<Json>>)
    requires ms == AuditModel.ReceiptMembers(r) && AreRead(ms, ns)
    ensures Has(ns, "chain_version", Str(r.chainVersion))
  {
    ReadMember(ms, ns, 3, "chain_version", Str(r.chainVersion));
  }

  lemma FormatIsRead(r: AuditModel.Receipt, ms: seq<Keyed<Json>>, ns: seq<Keyed<Json>>)
    requires ms == AuditModel.ReceiptMembers(r) && AreRead(ms, ns)
    ensures Has(ns, "format", Str(r.format))
  {
    ReadMember(ms, ns, 4, "format", Str(r.format));
  }

  lemma HeadHashIsRead(r: AuditModel.Receipt, ms: seq<Keyed<Json>>, ns: seq<Keyed<Json>>)
    requires ms == AuditModel.ReceiptMembers(r) && AreRead(ms, ns)
    ensures Has(ns, "head_hash", Str(r.headHash))
  {
    ReadMember(ms, ns, 5, "head_hash", Str(r.headHash));
  }

  lemma HeadNumberIsRead(r: AuditModel.Receipt, ms: seq<Keyed<Json>>, ns: seq<Keyed<Json>>)
    requires ms == AuditModel.ReceiptMembers(r) && AreRead(ms, ns)
    ensures Has(ns, "head_sequence", Number(AuditModel.OfInt(r.headSequence)))
  {
    ReadMember(ms, ns, 6, "head_sequence", Number(AuditModel.OfInt(r.headSequence)));
  }

  lemma SignerIsRead(r: AuditModel.Receipt, ms: seq<Keyed<Json>>, ns: seq<Keyed<Json>>)
    requires ms == AuditModel.ReceiptMembers(r) && AreRead(ms, ns)
    ensures Has(ns, "key_id", Str(r.keyId))
    ensures Has(ns, "reason", Str(r.reason))
    ensures Has(ns, "signer_id", Str(r.signerId))
  {
    ReadMember(ms, ns, 7, "key_id", Str(r.keyId));
    ReadMember(ms, ns, 13, "reason", Str(r.reason));
    ReadMember(ms, ns, 16, "signer_id", Str(r.signerId));
  }

  lemma AnchorHashIsRead(r: AuditModel.Receipt, ms: seq<Keyed<Json>>, ns: seq<Keyed<Json>>)
    requires ms == AuditModel.ReceiptMembers(r) && AreRead(ms, ns)
    ensures Has(ns, "previous_anchor_hash", Str(r.previousAnchorHash))
  {
    ReadMember(ms, ns, 8, "previous_anchor_hash", Str(r.previousAnchorHash));
  }

  lemma CutoffHashIsRead(r: AuditModel.Receipt, ms: seq<Keyed<Json>>, ns: seq<Keyed<Json>>)
    requires ms == AuditModel.ReceiptMembers(r) && AreRead(ms, ns)
    ensures Has(ns, "pruned_through_hash", Str(r.prunedHash))
  {
    ReadMember(ms, ns, 11, "pruned_through_hash", Str(r.prunedHash));
  }

  lemma AnchorNumberIsRead(r: AuditModel.Receipt, ms: seq<Keyed<Json>>, ns: seq<Keyed<Json>>)
    requires ms == AuditModel.ReceiptMembers(r) && AreRead(ms, ns)
    ensures Has(ns, "previous_anchor_sequence", Number(AuditModel.OfInt(r.previousAnchorSequence)))
  {
    ReadMember(ms, ns, 9, "previous_anchor_sequence", Number(AuditModel.OfInt(r.previousAnchorSequence)));
  }

  lemma NamesOfReceiptsAreRead(r: AuditModel.Receipt, ms: seq<Keyed<Json>>, ns: seq<Keyed<Json>>)
    requires ms == AuditModel.ReceiptMembers(r) && AreRead(ms, ns)
    ensures Has(ns, "previous_receipt_id", Nullable(r.previousReceipt))
    ensures Has(ns, "receipt_id", Str(r.receiptId))
  {
    ReadMember(ms, ns, 10, "previous_receipt_id", Nullable(r.previousReceipt));
    ReadMember(ms, ns, 14, "receipt_id", Str(r.receiptId));
  }

  lemma CutoffIsRead(r: AuditModel.Receipt, ms: seq<Keyed<Json>>, ns: seq<Keyed<Json>>)
    requires ms == AuditModel.ReceiptMembers(r) && AreRead(ms, ns)
    ensures Has(ns, "pruned_through_sequence", Number(AuditModel.OfInt(r.prunedThrough)))
  {
    ReadMember(ms, ns, 12, "pruned_through_sequence", Number(AuditModel.OfInt(r.prunedThrough)));
  }

  lemma RestIsRead(r: AuditModel.Receipt, ms: seq<Keyed<Json>>, ns: seq<Keyed<Json>>)
    requires ms == AuditModel.ReceiptMembers(r) && AreRead(ms, ns)
    ensures Has(ns, "retained_from_sequence", Number(AuditModel.OfInt(r.retainedFrom)))
  {
    ReadMember(ms, ns, 15, "retained_from_sequence", Number(AuditModel.OfInt(r.retainedFrom)));
  }

  /** The signed text of a receipt: its seventeen signed columns and nothing else. */
  lemma ReceiptTextsReadAsReceipts(r: AuditModel.Receipt) returns (ns: seq<Keyed<Json>>)
    ensures ReadsAs(AuditModel.ReceiptPayload(r), ns, 17)
    ensures HoldsApproval(ns, r) && HoldsNames(ns, r) && HoldsHashes(ns, r) && HoldsNumbers(ns, r)
  {
    var ms := AuditModel.ReceiptMembers(r);
    ns := ObjectsAreReadBack(ms);
    AlgorithmIsRead(r, ms, ns);
    ApprovalTimeIsRead(r, ms, ns);
    ApproverIsRead(r, ms, ns);
    ChainVersionIsRead(r, ms, ns);
    FormatIsRead(r, ms, ns);
    HeadHashIsRead(r, ms, ns);
    HeadNumberIsRead(r, ms, ns);
    SignerIsRead(r, ms, ns);
    AnchorHashIsRead(r, ms, ns);
    CutoffHashIsRead(r, ms, ns);
    AnchorNumberIsRead(r, ms, ns);
    NamesOfReceiptsAreRead(r, ms, ns);
    CutoffIsRead(r, ms, ns);
    RestIsRead(r, ms, ns);
  }

  // ----- requests -----

  /** An object holds the components of a request. */
  ghost predicate HoldsRequest(ns: seq<Keyed<Json>>, es: seq<Keyed<Json>>, c: Fingerprints.Components) {
    && Has(ns, "contract_version", Str(Ascii("gev.m3.ledger.v1"))) && Has(ns, "fingerprint_version", Str(Ascii("gev.m3.fingerprint.v1")))
    && Has(ns, "actor", Str(Ascii(match c.actor case Ai => "ai" case Human => "human" case Automation => "system")))
    && Has(ns, "tenant_id", Nullable(c.tenant)) && Has(ns, "action", Str(c.action)) && Has(ns, "task_ref", Str(c.taskRef))
    && Has(ns, "input", Normalize(c.input)) && Has(ns, "is_mutating", Bool(c.isMutating))
    && Has(ns, "estimate", Obj(es)) && |es| == 3
    && Has(es, "currency", Str(Ascii("usd"))) && Has(es, "min", Number(c.estimateMin)) && Has(es, "max", Number(c.estimateMax))
  }

  lemma EstimatesAreReadBack(c: Fingerprints.Components) returns (es: seq<Keyed<Json>>)
    ensures Normalize(Obj(Fingerprints.EstimateMembers(c))) == Obj(es) && |es| == 3
    ensures Has(es, "currency", Str(Ascii("usd"))) && Has(es, "min", Number(c.estimateMin)) && Has(es, "max", Number(c.estimateMax))
  {
    var ms := Fingerprints.EstimateMembers(c);
    es := ObjectsAreReadBack(ms);
    ReadMember(ms, es, 0, "currency", Str(Ascii("usd")));
    ReadMember(ms, es, 1, "min", Number(c.estimateMin));
    ReadMember(ms, es, 2, "max", Number(c.estimateMax));
  }

  lemma VersionsAreRead(c: Fingerprints.Components, ms: seq<Keyed<Json>>, ns: seq<Keyed<Json>>)
    requires ms == Fingerprints.ComponentMembers(c) && AreRead(ms, ns)
    ensures Has(ns, "contract_version", Str(Ascii("gev.m3.ledger.v1"))) && Has(ns, "fingerprint_version", Str(Ascii("gev.m3.fingerprint.v1")))
  {
    ReadMember(ms, ns, 0, "contract_version", Str(Ascii("gev.m3.ledger.v1")));
    ReadMember(ms, ns, 1, "fingerprint_version", Str(Ascii("gev.m3.fingerprint.v1")));
  }

  lemma CallersAreRead(c: Fingerprints.Components, ms: seq<Keyed<Json>>, ns: seq<Keyed<Json>>)
    requires ms == Fingerprints.ComponentMembers(c) && AreRead(ms, ns)
    ensures Has(ns, "actor", Str(Ascii(match c.actor case Ai => "ai" case Human => "human" case Automation => "system")))
    ensures Has(ns, "tenant_id", Nullable(c.tenant)) && Has(ns, "action", Str(c.action))
  {
    ReadMember(ms, ns, 2, "actor", Str(Ascii(match c.actor case Ai => "ai" case Human => "human" case Automation => "system")));
    ReadMember(ms, ns, 3, "tenant_id", Nullable(c.tenant));
    ReadMember(ms, ns, 4, "action", Str(c.action));
  }

  lemma InputsAreRead(c: Fingerprints.Components, ms: seq<Keyed<Json>>, ns: seq<Keyed<Json>>)
    requires ms == Fingerprints.ComponentMembers(c) && AreRead(ms, ns)
    ensures |ms| == 9 && Has(ns, "input", Normalize(c.input)) && Has(ns, "task_ref", Str(c.taskRef)) && Has(ns, "is_mutating", Bool(c.isMutating))
    ensures Has(ns, "estimate", Normalize(Obj(Fingerprints.EstimateMembers(c))))
  {
    assert Keyed(ms[5].key, Normalize(ms[5].value)) in ns;
    ReadMember(ms, ns, 6, "task_ref", Str(c.taskRef));
    ReadMember(ms, ns, 7, "is_mutating", Bool(c.isMutating));
    assert Keyed(ms[8].key, Normalize(ms[8].value)) in ns;
  }

  /** The hashed text of a request's components. */
  lemma ComponentTextsReadAsRequests(c: Fingerprints.Components) returns (ns: seq<Keyed<Json>>, es: seq<Keyed<Json>>)
    ensures ReadsAs(Fingerprints.ComponentText(c), ns, 9) && HoldsRequest(ns, es, c)
  {
    var ms := Fingerprints.ComponentMembers(c);
    ns := ObjectsAreReadBack(ms);
    es := EstimatesAreReadBack(c);
    VersionsAreRead(c, ms, ns);
    CallersAreRead(c, ms, ns);
    InputsAreRead(c, ms, ns);
  }

  // ----- rows -----

  /** What the columns of a stored entry hold. */
  lemma RowsHoldTheEntry(e: E.AuditEntry, rowId: Text)
    ensures var row := E.ToRow(e, rowId);
      match e
      case Intent(id, ts, actor, action, target, params, taskRef) =>
        && row.kind == Ascii("audit.intent") && row.id == id && row.ts == ts && row.intentId == None
        && row.actor == Some(actor) && row.action == Some(action) && row.target == Some(target) && row.taskRef == Some(taskRef)
        && (row.params.Some? <==> params.Some?)
        && (params.Some? ==> ParseValue(row.params.value) == Some((Normalize(params.value), [])))
        && row.status == None && row.result == None && row.error == None && row.duration == None
      case Outcome(intent, ts, status, result, error, duration) =>
        && row.kind == Ascii("audit.outcome") && row.id == rowId && row.ts == ts && row.intentId == Some(intent)
        && row.actor == None && row.action == None && row.target == None && row.taskRef == None && row.params == None
        && row.status == Some(status) && row.error == error && row.duration == duration
        && (row.result.Some? <==> result.Some?)
        && (result.Some? ==> ParseValue(row.result.value) == Some((Normalize(result.value), [])))
  {
    match e
    case Intent(_, _, _, _, _, params, _) => if params.Some? { ParseCanonical(params.value); }
    case Outcome(_, _, _, result, _, _) => if result.Some? { ParseCanonical(result.value); }
  }
}
