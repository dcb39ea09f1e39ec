/**
 The chain store, the migration and the audit sink in their own form: objects and loops that insert, link, delete and
 move the head and the anchor (packages/governance/src/auditChainStore.ts, auditRetention.ts, auditChainMigration.ts,
 auditSink.ts), each proved against its specification.
 */
module AuditSink {
  import opened Prelude
  import opened Texts
  import opened Hashing
  import opened AuditHash
  import opened AuditModel
  import opened AuditVerifier
  import opened AuditCommitment
  import opened AuditSpec
  import opened AuditLaws
  import Base64

  lemma {:induction false} DeletedOneByOne(events: seq<EventRow>, ids: seq<Text>, id: Text)
    ensures Without(Without(events, ids), [id]) == Without(events, ids + [id])
  {
    if events != [] {
      var front, last := events[..|events| - 1], events[|events| - 1];
      DeletedOneByOne(front, ids, id);
      if last.id !in ids {
        assert (Without(front, ids) + [last])[..|Without(front, ids)|] == Without(front, ids);
        assert Without(events, ids) == Without(front, ids) + [last];
      } else {
        assert Without(events, ids) == Without(front, ids);
      }
    }
  }

  lemma WithoutNone(front: seq<EventRow>, last: EventRow)
    ensures Without(front + [last], []) == Without(front, []) + [last]
  {
    assert (front + [last])[..|front|] == front;
  }

  lemma {:induction false} NothingDeleted(events: seq<EventRow>)
    ensures Without(events, []) == events
  {
    if events != [] {
      var front, last := events[..|events| - 1], events[|events| - 1];
      assert events == front + [last];
      NothingDeleted(front);
      WithoutNone(front, last);
    }
  }

  lemma DeletedUpTo(events: seq<EventRow>, ids: seq<Text>, k: nat)
    requires k < |ids|
    ensures Without(Without(events, ids[..k]), [ids[k]]) == Without(events, ids[..k + 1])
  {
    DeletedOneByOne(events, ids[..k], ids[k]);
    assert ids[..k + 1] == ids[..k] + [ids[k]];
  }

  class AuditChainStore {
    var tables: Store
    const digests: Digests
    const trust: Trust

    constructor (tables: Store, digests: Digests, trust: Trust)
      ensures this.tables == tables && this.digests == digests && this.trust == trust
    {
      this.tables := tables;
      this.digests := digests;
      this.trust := trust;
    }

    method VerifyIntegrity() returns (r: Integrity)
      ensures r.Valid? <==> Sound(digests, trust, tables)
      ensures r.Valid? ==> r.verified == |tables.links|
      ensures r.Invalid? ==> Blames(digests, trust, tables, r.fault, r.verified)
    {
      r := AuditVerifier.VerifyIntegrity(digests, trust, tables);
    }

    /** `appendStorageRow`: false stands for an error, which leaves the tables as they were. */
    method AppendStorageRow(row: EventRow, redaction: Text, now: int) returns (ok: bool)
      modifies this
      ensures var r := Append(digests, old(tables), row, redaction, now);
        ok == r.Some? && tables == (if ok then r.value else old(tables))
    {
      if tables.state.None? || !ValidState(digests, tables.state.value) {
        return false;
      }
      var state := tables.state.value;
      if state.headSequence > state.anchorSequence {
        var head := FindLink(tables.links, state.headSequence);
        if head.None? || head.value.chainHash != state.headHash {
          return false;
        }
      }
      if FindEvent(tables.events, row.id).Some? {
        return false;
      }
      var before := tables;
      tables := tables.(events := tables.events + [row]);
      var sequence := state.headSequence + 1;
      var payload := digests.payload(row, redaction);
      var hash := digests.link(sequence, state.headHash, payload);
      var link := Link(sequence, row.id, Ascii(CHAIN_VERSION), redaction, state.headHash, payload, hash, now);
      if !Insertable(tables.links, link) {
        tables := before;
        return false;
      }
      tables := tables.(links := tables.links + [link]);
      tables := tables.(state := Some(state.(headSequence := sequence, headHash := hash)));
      ok := true;
    }

    /** `applyAuditRetention`. */
    method ApplyRetention(c: RetentionCall) returns (r: Option<RetentionResult>)
      modifies this
      ensures match Retain(trust, old(tables), c)
        case Some(done) => tables == done.0 && r == Some(done.1)
        case None => tables == old(tables) && r.None?
    {
      var receipt := Approve(trust, tables, c);
      if receipt.None? || tables.state.None? {
        return None;
      }
      var result := ExecuteRetention(receipt.value);
      r := Some(result);
    }

    /** The transaction: files the receipt, deletes links and then events, and moves the anchor. */
    method ExecuteRetention(receipt: Receipt) returns (r: RetentionResult)
      requires tables.state.Some?
      modifies this
      ensures (tables, r) == Execute(old(tables), receipt)
    {
      tables := tables.(receipts := tables.receipts + [receipt]);
      var ids := PrunedIds(tables.links, receipt.prunedThrough);
      tables := tables.(links := Above(tables.links, receipt.prunedThrough));
      DeleteEvents(ids);
      tables := tables.(state := Some(tables.state.value.(anchorSequence := receipt.prunedThrough, anchorHash := receipt.prunedHash,
                                                          lastReceipt := Some(receipt.receiptId))));
      r := RetentionResult(receipt.receiptId, |ids|, receipt.prunedThrough, receipt.prunedHash, receipt.prunedThrough + 1);
    }

    method DeleteEvents(ids: seq<Text>)
      modifies this
      ensures tables == old(tables).(events := Without(old(tables.events), ids))
    {
      NothingDeleted(tables.events);
      for k := 0 to |ids|
        invariant tables == old(tables).(events := Without(old(tables.events), ids[..k]))
      {
        DeletedUpTo(old(tables.events), ids, k);
        tables := tables.(events := Without(tables.events, [ids[k]]));
      }
      assert ids[..|ids|] == ids;
    }
  }

  /** `migrateAuditChain`: chains the rows of an old log in the order they were inserted. */
  method MigrateAuditChain(d: Digests, rows: seq<EventRow>, now: int) returns (s: Option<Store>)
    ensures s == Migrate(d, rows, now)
  {
    var previous: Text := d.genesis;
    var sequence := 0;
    var links: seq<Link> := [];
    while sequence < |rows|
      invariant 0 <= sequence <= |rows|
      invariant links == LegacyLinks(d, rows[..sequence], now)
      invariant previous == TipHash(d.genesis, links)
    {
      var row := rows[sequence];
      assert rows[..sequence + 1][..sequence] == rows[..sequence];
      sequence := sequence + 1;
      var payload := d.payload(row, Ascii(LEGACY_REDACTION_VERSION));
      var hash := d.link(sequence, previous, payload);
      links := links + [Link(sequence, row.id, Ascii(CHAIN_VERSION), Ascii(LEGACY_REDACTION_VERSION), previous, payload, hash, now)];
      previous := hash;
    }
    assert rows[..|rows|] == rows;
    if !DistinctHashes(links) {
      return None;
    }
    s := Some(Store(SCHEMA_VERSION,
                    Some(ChainState(Ascii(CHAIN_VERSION), d.genesis, 0, d.genesis, sequence, previous, None)), [], links, rows));
  }

  // ----- the sink -----

  /** The audit rows a retention through the sink writes about itself, and the times it writes them. */
  datatype RetainRows = RetainRows(intent: EventRow, done: RetentionResult -> EventRow, blocked: EventRow, now: int)

  const REDACTION: Text := Ascii(REDACTION_VERSION)

  datatype SinkReply = Retained(result: RetentionResult) | Refused | Unrecorded

  /**
   `retain`: records the intent; then retains and records the outcome in one transaction, or, if either fails, records
   that the retention was blocked.
   */
  function RetainThroughSink(d: Digests, trust: Trust, s: Store, c: RetentionCall, rows: RetainRows): (SinkReply, Store) {
    match Append(d, s, rows.intent, REDACTION, rows.now)
    case None => (Unrecorded, s)
    case Some(s1) => Concluded(d, trust, s1, c, rows)
  }

  function Concluded(d: Digests, trust: Trust, s: Store, c: RetentionCall, rows: RetainRows): (SinkReply, Store) {
    match RetainWithOutcome(d, trust, s, c, rows)
    case Some(done) => (Retained(done.0), done.1)
    case None =>
      match Append(d, s, rows.blocked, REDACTION, rows.now)
      case None => (Unrecorded, s)
      case Some(s') => (Refused, s')
  }

  function RetainWithOutcome(d: Digests, trust: Trust, s: Store, c: RetentionCall, rows: RetainRows): Option<(RetentionResult, Store)> {
    match Retain(trust, s, c)
    case None => None
    case Some(retained) =>
      match Append(d, retained.0, rows.done(retained.1), REDACTION, rows.now)
      case None => None
      case Some(s') => Some((retained.1, s'))
  }

  lemma AppendSteps(d: Digests, trust: Trust, s: Store, row: EventRow, now: int)
    requires Kept(d, trust, s) && s.state.value.headSequence < MAX_SAFE
    ensures match Append(d, s, row, REDACTION, now)
      case None => true
      case Some(t) =>
        && Kept(d, trust, t) && t.state.value.headSequence == s.state.value.headSequence + 1
        && t.state.value.anchorSequence == s.state.value.anchorSequence
  {
    if Append(d, s, row, REDACTION, now).Some? {
      AppendKeepsAll(d, trust, s, row, REDACTION, now);
      AppendAddsOne(d, s, row, REDACTION, now);
    }
  }

  lemma AppendedComesLast(d: Digests, s: Store, row: EventRow, now: int)
    requires Append(d, s, row, REDACTION, now).Some?
    ensures Append(d, s, row, REDACTION, now).value.events == s.events + [row]
  {
  }

  lemma RetainSteps(d: Digests, trust: Trust, s: Store, c: RetentionCall)
    requires Kept(d, trust, s)
    ensures match Retain(trust, s, c)
      case None => true
      case Some(done) =>
        && Kept(d, trust, done.0) && done.0.state.value.headSequence == s.state.value.headSequence
        && done.0.state.value.anchorSequence == c.request.cutoff
  {
    if Retain(trust, s, c).Some? {
      RetainKeepsAll(d, trust, s, c);
      RetentionConserves(d, trust, s, c);
    }
  }

  /**
   A retention through the sink is all or nothing and always on record: the chain stays sound, and it either moved the
   anchor to the cutoff and recorded intent and outcome, or moved no anchor and recorded intent and refusal. An outcome
   goes unrecorded only when a row could not be appended.
   */
  lemma RetentionIsAllOrNothing(d: Digests, trust: Trust, s: Store, c: RetentionCall, rows: RetainRows)
    requires Kept(d, trust, s) && s.state.value.headSequence + 2 <= MAX_SAFE
    ensures var (reply, t) := RetainThroughSink(d, trust, s, c, rows);
      && Kept(d, trust, t)
      && t.state.value.anchorSequence == (if reply.Retained? then c.request.cutoff else s.state.value.anchorSequence)
      && (!reply.Unrecorded? ==> t.state.value.headSequence == s.state.value.headSequence + 2)
      && (reply.Unrecorded? ==> t.state.value.headSequence <= s.state.value.headSequence + 1)
  {
    AppendSteps(d, trust, s, rows.intent, rows.now);
    var first := Append(d, s, rows.intent, REDACTION, rows.now);
    if first.Some? {
      RetainSteps(d, trust, first.value, c);
      var retained := Retain(trust, first.value, c);
      if retained.Some? {
        AppendSteps(d, trust, retained.value.0, rows.done(retained.value.1), rows.now);
      }
      AppendSteps(d, trust, first.value, rows.blocked, rows.now);
    }
  }

  /** What is recorded: the outcome behind everything that is kept, or intent and refusal behind everything there was. */
  lemma RetentionIsRecorded(d: Digests, trust: Trust, s: Store, c: RetentionCall, rows: RetainRows)
    ensures var (reply, t) := RetainThroughSink(d, trust, s, c, rows);
      && (reply.Retained? ==> t.events != [] && t.events[|t.events| - 1] == rows.done(reply.result))
      && (reply.Refused? ==> t.events == s.events + [rows.intent] + [rows.blocked])
  {
    var first := Append(d, s, rows.intent, REDACTION, rows.now);
    if first.Some? {
      AppendedComesLast(d, s, rows.intent, rows.now);
      ConclusionComesLast(d, trust, first.value, c, rows);
    }
  }

  lemma ConclusionComesLast(d: Digests, trust: Trust, s: Store, c: RetentionCall, rows: RetainRows)
    ensures var (reply, t) := Concluded(d, trust, s, c, rows);
      && (reply.Retained? ==> t.events != [] && t.events[|t.events| - 1] == rows.done(reply.result))
      && (reply.Refused? ==> t.events == s.events + [rows.blocked])
  {
    if RetainWithOutcome(d, trust, s, c, rows).Some? {
      var retained := Retain(trust, s, c).value;
      AppendedComesLast(d, retained.0, rows.done(retained.1), rows.now);
    } else if Append(d, s, rows.blocked, REDACTION, rows.now).Some? {
      AppendedComesLast(d, s, rows.blocked, rows.now);
    }
  }

  /** What the listeners hear of the end of a retention. */
  function Notices(reply: SinkReply, rows: RetainRows): seq<EventRow> {
    match reply
    case Retained(result) => [rows.done(result)]
    case Refused => [rows.blocked]
    case Unrecorded => []
  }

  /** `SqliteAuditSink`: rows reach the listeners only once they are committed. */
  class SqliteAuditSink {
    const chain: AuditChainStore
    var published: seq<EventRow>

    constructor (chain: AuditChainStore)
      ensures this.chain == chain && published == []
    {
      this.chain := chain;
      published := [];
    }

    /** `intent` and `outcome`. */
    method Record(row: EventRow, now: int) returns (ok: bool)
      modifies this, chain
      ensures var r := Append(chain.digests, old(chain.tables), row, REDACTION, now);
        && ok == r.Some?
        && chain.tables == (if ok then r.value else old(chain.tables))
        && published == if ok then old(published) + [row] else old(published)
    {
      ok := chain.AppendStorageRow(row, REDACTION, now);
      if ok {
        published := published + [row];
      }
    }

    /** The transaction that retains and records the outcome; it is undone when either fails. */
    method RetainAndRecord(c: RetentionCall, rows: RetainRows) returns (r: Option<RetentionResult>)
      modifies this, chain
      ensures match RetainWithOutcome(chain.digests, chain.trust, old(chain.tables), c, rows)
        case Some(done) => r == Some(done.0) && chain.tables == done.1 && published == old(published) + [rows.done(done.0)]
        case None => r.None? && chain.tables == old(chain.tables) && published == old(published)
    {
      var before := chain.tables;
      r := chain.ApplyRetention(c);
      if r.Some? {
        var ok := Record(rows.done(r.value), rows.now);
        if !ok {
          chain.tables := before;
          r := None;
        }
      }
    }

    method Conclude(c: RetentionCall, rows: RetainRows) returns (reply: SinkReply)
      modifies this, chain
      ensures (reply, chain.tables) == Concluded(chain.digests, chain.trust, old(chain.tables), c, rows)
      ensures published == old(published) + Notices(reply, rows)
    {
      var result := RetainAndRecord(c, rows);
      if result.Some? {
        return Retained(result.value);
      }
      var ok := Record(rows.blocked, rows.now);
      reply := if ok then Refused else Unrecorded;
    }

    method Retain(c: RetentionCall, rows: RetainRows) returns (reply: SinkReply)
      modifies this, chain
      ensures (reply, chain.tables) == RetainThroughSink(chain.digests, chain.trust, old(chain.tables), c, rows)
      ensures !reply.Unrecorded? ==> published == old(published) + [rows.intent] + Notices(reply, rows)
    {
      var ok := Record(rows.intent, rows.now);
      if ok {
        reply := Conclude(c, rows);
      } else {
        reply := Unrecorded;
      }
    }
  }
}
