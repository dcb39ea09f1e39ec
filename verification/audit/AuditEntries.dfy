/**
 Audit entries and the rows they are stored as (packages/governance/src/auditChainHash.ts:48-85, 128-153): the way to
 storage and back loses nothing but the order of object keys.
 */
module AuditEntries {
  import opened Prelude
  import opened Texts
  import opened CanonicalJson
  import opened CanonicalParser
  import opened AuditHash
  import Numbers

  datatype AuditEntry =
    | Intent(id: Text, ts: Text, actor: Text, action: Text, target: Text, params: Option<Json>, taskRef: Text)
    | Outcome(intent: Text, ts: Text, status: Text, result: Option<Json>, error: Option<Text>, duration: Option<Numbers.Num>)

  const INTENT_KIND: Text := Ascii("audit.intent")
  const OUTCOME_KIND: Text := Ascii("audit.outcome")

  function Serialized(v: Option<Json>): Option<Text> {
    match v { case None => None case Some(j) => Some(Canonicalize(j)) }
  }

  /** `auditIntentToStorageRow` and `auditOutcomeToStorageRow`; an outcome gets a row id of its own. */
  function ToRow(e: AuditEntry, rowId: Text): EventRow {
    match e
    case Intent(id, ts, actor, action, target, params, taskRef) =>
      EventRow(id, INTENT_KIND, None, ts, Some(actor), Some(action), Some(target), Serialized(params), Some(taskRef),
               None, None, None, None)
    case Outcome(intent, ts, status, result, error, duration) =>
      EventRow(rowId, OUTCOME_KIND, Some(intent), ts, None, None, None, None, None, Some(status), Serialized(result), error, duration)
  }

  /** The value of a whole text. */
  function Parsed(t: Text): Option<Json> {
    match ParseValue(t) { case Some((v, rest)) => if rest == [] then Some(v) else None case None => None }
  }

  /** `auditStorageRowToEntry`. None stands for an error. */
  function FromRow(row: EventRow): Option<AuditEntry> {
    if row.kind == INTENT_KIND then
      if row.actor.None? || row.action.None? || row.target.None? || row.taskRef.None? then None
      else if row.params.Some? && Parsed(row.params.value).None? then None
      else Some(Intent(row.id, row.ts, row.actor.value, row.action.value, row.target.value,
                       if row.params.Some? then Parsed(row.params.value) else None, row.taskRef.value))
    else if row.kind == OUTCOME_KIND then
      if row.intentId.None? || row.status.None? then None
      else if row.result.Some? && Parsed(row.result.value).None? then None
      else Some(Outcome(row.intentId.value, row.ts, row.status.value,
                        if row.result.Some? then Parsed(row.result.value) else None, row.error, row.duration))
    else None
  }

  /** An entry with its payload's keys sorted. */
  function Sorted(e: AuditEntry): AuditEntry {
    match e
    case Intent(_, _, _, _, _, Some(v), _) => e.(params := Some(Normalize(v)))
    case Outcome(_, _, _, Some(v), _, _) => e.(result := Some(Normalize(v)))
    case _ => e
  }

  lemma SerializedTextParses(v: Option<Json>)
    ensures Serialized(v).Some? <==> v.Some?
    ensures v.Some? ==> Parsed(Serialized(v).value) == Some(Normalize(v.value))
  {
    if v.Some? { ParseCanonical(v.value); }
  }

  lemma KindsDiffer()
    ensures INTENT_KIND != OUTCOME_KIND
  {
    assert |INTENT_KIND| != |OUTCOME_KIND|;
  }

  /** A stored entry is read back as it was, its payload's keys sorted. */
  lemma EntriesRoundTrip(e: AuditEntry, rowId: Text)
    ensures FromRow(ToRow(e, rowId)) == Some(Sorted(e))
  {
    KindsDiffer();
    match e
    case Intent(_, _, _, _, _, params, _) => SerializedTextParses(params);
    case Outcome(_, _, _, result, _, _) => SerializedTextParses(result);
  }

  ghost predicate SamePayload(v: Option<Json>, w: Option<Json>) {
    match (v, w)
    case (Some(a), Some(b)) => SameValue(a, b)
    case (None, None) => true
    case _ => false
  }

  /** The payload of an entry. */
  function Payload(e: AuditEntry): Option<Json> {
    if e.Intent? then e.params else e.result
  }

  function WithoutPayload(e: AuditEntry): AuditEntry {
    if e.Intent? then e.(params := None) else e.(result := None)
  }

  predicate ProperPayload(e: AuditEntry) {
    Payload(e).Some? ==> Proper(Payload(e).value)
  }

  /** Two entries are stored alike exactly when they are the same entry, payloads compared as JSON values. */
  lemma RowsIdentifyEntries(e: AuditEntry, f: AuditEntry, rowId: Text)
    requires ProperPayload(e) && ProperPayload(f)
    ensures ToRow(e, rowId) == ToRow(f, rowId) <==> WithoutPayload(e) == WithoutPayload(f) && SamePayload(Payload(e), Payload(f))
  {
    KindsDiffer();
    if Payload(e).Some? && Payload(f).Some? {
      CanonicalTextIdentifiesValue(Payload(e).value, Payload(f).value);
    }
  }
}
