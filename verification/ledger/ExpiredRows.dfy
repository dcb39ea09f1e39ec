/**
 The query of the reaper and why working through its snapshot of rows is the same as asking again for the earliest
 overdue row each time.
 */
module ExpiredRows {
  import opened Prelude
  import opened LedgerModel
  import opened LedgerSpec
  import opened LedgerRows

  /** Inserts a row index into indices ordered by creation and id. */
  function InsertByAge(ops: seq<Operation>, i: nat, rows: seq<nat>): (r: seq<nat>)
    requires i < |ops| && Within(ops, rows)
    ensures |r| == |rows| + 1 && Within(ops, r) && forall x: nat :: x in r <==> x == i || x in rows
  {
    if rows == [] then [i]
    else
      assert rows == [rows[0]] + rows[1..];
      if Earlier(ops[i], ops[rows[0]]) then [i] + rows else [rows[0]] + InsertByAge(ops, i, rows[1..])
  }

  ghost predicate Within(ops: seq<Operation>, rows: seq<nat>) {
    forall k :: 0 <= k < |rows| ==> rows[k] < |ops|
  }

  /** The overdue rows among the first n, ordered. */
  function OverdueUpTo(ops: seq<Operation>, n: nat, now: int): (r: seq<nat>)
    requires n <= |ops|
    ensures Within(ops, r) && forall x: nat :: x in r <==> x < n && Overdue(ops[x], now)
  {
    if n == 0 then []
    else
      var rest := OverdueUpTo(ops, n - 1, now);
      if Overdue(ops[n - 1], now) then InsertByAge(ops, n - 1, rest) else rest
  }

  /** The rows `readExpiredOperations` answers. */
  function ReadExpired(ops: seq<Operation>, now: int, limit: nat): (r: seq<nat>)
    ensures forall k :: 0 <= k < |r| ==> r[k] < |ops| && Overdue(ops[r[k]], now)
  {
    var all := OverdueUpTo(ops, |ops|, now);
    assert forall k :: 0 <= k < |all| ==> all[k] in all;
    Front(all, limit)
  }

  /** A row is earlier than each of others. */
  ghost predicate IsEarlier(ops: seq<Operation>, i: nat, rows: seq<nat>) {
    i < |ops| && forall x: nat :: x in rows ==> x < |ops| && Earlier(ops[i], ops[x])
  }

  ghost predicate ByAge(ops: seq<Operation>, rows: seq<nat>) {
    Within(ops, rows) && (rows != [] ==> IsEarlier(ops, rows[0], rows[1..]) && ByAge(ops, rows[1..]))
  }

  /** The overdue rows, all of them and in order. */
  ghost predicate Pending(ops: seq<Operation>, rows: seq<nat>, now: int) {
    ByAge(ops, rows) && forall x: nat :: x in rows <==> x < |ops| && Overdue(ops[x], now)
  }

  lemma MembersOfCons(rows: seq<nat>)
    requires rows != []
    ensures forall x: nat :: x in rows <==> x == rows[0] || x in rows[1..]
  {
    assert rows == [rows[0]] + rows[1..];
  }

  lemma EarlierThanAll(ops: seq<Operation>, i: nat, rows: seq<nat>)
    requires ByAge(ops, rows) && i < |ops| && rows != [] && rows[0] < |ops| && Earlier(ops[i], ops[rows[0]])
    ensures IsEarlier(ops, i, rows)
  {
    MembersOfCons(rows);
  }

  lemma {:induction false} InsertKeepsByAge(ops: seq<Operation>, i: nat, rows: seq<nat>)
    requires DistinctIds(ops) && i < |ops| && ByAge(ops, rows) && i !in rows
    ensures ByAge(ops, InsertByAge(ops, i, rows))
  {
    if rows == [] {
    } else {
      MembersOfCons(rows);
      if Earlier(ops[i], ops[rows[0]]) {
        EarlierThanAll(ops, i, rows);
        assert ([i] + rows)[1..] == rows;
      } else {
        InsertKeepsByAge(ops, i, rows[1..]);
        var rest := InsertByAge(ops, i, rows[1..]);
        assert ([rows[0]] + rest)[1..] == rest;
      }
    }
  }

  lemma OneMoreOverdue(ops: seq<Operation>, n: nat, now: int, rest: seq<nat>, rows: seq<nat>)
    requires DistinctIds(ops) && n < |ops| && ByAge(ops, rest) && n !in rest
    requires rows == if Overdue(ops[n], now) then InsertByAge(ops, n, rest) else rest
    ensures ByAge(ops, rows)
  {
    if Overdue(ops[n], now) { InsertKeepsByAge(ops, n, rest); }
  }

  lemma {:induction false} OverdueAreByAge(ops: seq<Operation>, n: nat, now: int)
    requires DistinctIds(ops) && n <= |ops|
    ensures ByAge(ops, OverdueUpTo(ops, n, now))
  {
    if n > 0 {
      OverdueAreByAge(ops, n - 1, now);
      OneMoreOverdue(ops, n - 1, now, OverdueUpTo(ops, n - 1, now), OverdueUpTo(ops, n, now));
    }
  }

  /** Of two rows in order the first is the earlier one. */
  lemma {:induction false} ByAgeAt(ops: seq<Operation>, rows: seq<nat>, j: nat, k: nat)
    requires ByAge(ops, rows) && j < k < |rows|
    ensures rows[j] < |ops| && rows[k] < |ops| && Earlier(ops[rows[j]], ops[rows[k]])
  {
    if j == 0 {
      assert rows[k] == rows[1..][k - 1] && rows[k] in rows[1..];
    } else {
      ByAgeAt(ops, rows[1..], j - 1, k - 1);
    }
  }

  lemma FirstPendingIsFirstOverdue(ops: seq<Operation>, rows: seq<nat>, now: int)
    requires Pending(ops, rows, now)
    ensures FirstOverdue(ops, now) == if rows == [] then None else Some(rows[0])
  {
    if rows != [] {
      MembersOfCons(rows);
      assert rows[0] in rows;
    }
  }

  lemma {:induction false} SameAgesSameOrder(ops: seq<Operation>, ops': seq<Operation>, rows: seq<nat>)
    requires ByAge(ops, rows) && |ops'| == |ops|
    requires forall i :: 0 <= i < |ops| ==> ops'[i].id == ops[i].id && ops'[i].createdAt == ops[i].createdAt
    ensures ByAge(ops', rows)
  {
    if rows != [] { SameAgesSameOrder(ops, ops', rows[1..]); }
  }

  lemma ExpiringTheFirstLeavesTheRest(ops: seq<Operation>, rows: seq<nat>, now: int)
    requires Pending(ops, rows, now) && rows != []
    ensures rows[0] < |ops| && Pending(ops[rows[0] := ExpiredRow(ops[rows[0]], now)], rows[1..], now)
  {
    MembersOfCons(rows);
    SameAgesSameOrder(ops, ops[rows[0] := ExpiredRow(ops[rows[0]], now)], rows[1..]);
  }

  /** Expires the rows of a snapshot one after the other. */
  function ExpireAll(db: Db, rows: seq<nat>, now: int): Db
    requires forall k :: 0 <= k < |rows| ==> rows[k] < |db.ops|
    decreases |rows|
  {
    if rows == [] then db else ExpireAll(ExpireOne(db, rows[0], now), rows[1..], now)
  }

  function Front(rows: seq<nat>, limit: nat): seq<nat> {
    if |rows| <= limit then rows else rows[..limit]
  }

  lemma BatchStarts(db: Db, rows: seq<nat>, limit: nat, now: int)
    requires Pending(db.ops, rows, now) && limit > 0 && rows != []
    ensures ExpireBatch(db, limit, now) == ExpireBatch(ExpireOne(db, rows[0], now), limit - 1, now)
  {
    FirstPendingIsFirstOverdue(db.ops, rows, now);
  }

  lemma BatchEnds(db: Db, rows: seq<nat>, limit: nat, now: int)
    requires Pending(db.ops, rows, now) && (limit == 0 || rows == [])
    ensures ExpireBatch(db, limit, now) == db && ExpireAll(db, Front(rows, limit), now) == db
  {
    FirstPendingIsFirstOverdue(db.ops, rows, now);
    assert Front(rows, limit) == [];
  }

  lemma ExpireAllStarts(db: Db, rows: seq<nat>, limit: nat, now: int)
    requires (forall k :: 0 <= k < |rows| ==> rows[k] < |db.ops|) && limit > 0 && rows != []
    ensures ExpireAll(db, Front(rows, limit), now) == ExpireAll(ExpireOne(db, rows[0], now), Front(rows[1..], limit - 1), now)
  {
    assert Front(rows, limit)[1..] == Front(rows[1..], limit - 1);
  }

  lemma RestIsPending(db: Db, rows: seq<nat>, now: int, next: Db)
    requires Pending(db.ops, rows, now) && rows != [] && next == ExpireOne(db, rows[0], now)
    ensures Pending(next.ops, rows[1..], now)
  {
    ExpiringTheFirstLeavesTheRest(db.ops, rows, now);
  }

  /** Working through the front of a snapshot ends where the batch ends. */
  ghost predicate Reaches(db: Db, rows: seq<nat>, limit: nat, now: int) {
    Within(db.ops, Front(rows, limit)) && ExpireAll(db, Front(rows, limit), now) == ExpireBatch(db, limit, now)
  }

  lemma FirstExpires(db: Db, rows: seq<nat>, limit: nat, now: int, next: Db)
    requires Pending(db.ops, rows, now) && limit > 0 && rows != [] && next == ExpireOne(db, rows[0], now)
    requires Reaches(next, rows[1..], limit - 1, now)
    ensures Reaches(db, rows, limit, now)
  {
    BatchStarts(db, rows, limit, now);
    ExpireAllStarts(db, rows, limit, now);
  }

  lemma NoneExpires(db: Db, rows: seq<nat>, limit: nat, now: int)
    requires Pending(db.ops, rows, now) && (limit == 0 || rows == [])
    ensures Reaches(db, rows, limit, now)
  {
    BatchEnds(db, rows, limit, now);
  }

  /** Working through a snapshot ends where selecting the earliest row each time ends. */
  lemma {:induction false} SnapshotReaches(db: Db, rows: seq<nat>, limit: nat, now: int)
    requires Pending(db.ops, rows, now)
    ensures Reaches(db, rows, limit, now)
    decreases limit
  {
    if limit == 0 || rows == [] {
      NoneExpires(db, rows, limit, now);
    } else {
      var next := ExpireOne(db, rows[0], now);
      RestIsPending(db, rows, now, next);
      SnapshotReaches(next, rows[1..], limit - 1, now);
      FirstExpires(db, rows, limit, now, next);
    }
  }

  /** The reaper's loop over its snapshot is the batch of earliest overdue rows. */
  lemma ReaperWorksThroughItsSnapshot(db: Db, limit: nat, now: int)
    requires DistinctIds(db.ops)
    ensures ExpireAll(db, ReadExpired(db.ops, now, limit), now) == ExpireBatch(db, limit, now)
  {
    OverdueAreByAge(db.ops, |db.ops|, now);
    SnapshotReaches(db, OverdueUpTo(db.ops, |db.ops|, now), limit, now);
  }

  /**
   The snapshot holds the oldest overdue rows: as many as the limit allows, each older than every overdue row behind it or
   left out, or as old and with the smaller id.
   */
  lemma OldestAreReadFirst(ops: seq<Operation>, now: int, limit: nat, k: nat, x: nat)
    requires DistinctIds(ops) && k < |ReadExpired(ops, now, limit)|
    requires x < |ops| && ops[x].deadline <= now && (ops[x].state == Reserved || ops[x].state == Executing)
    requires x !in ReadExpired(ops, now, limit)[..k + 1]
    ensures var first := ops[ReadExpired(ops, now, limit)[k]];
      first.createdAt < ops[x].createdAt || (first.createdAt == ops[x].createdAt && first.id < ops[x].id)
  {
    var all := OverdueUpTo(ops, |ops|, now);
    OverdueAreByAge(ops, |ops|, now);
    assert x in all;
    var j: nat :| j < |all| && all[j] == x;
    assert forall i :: 0 <= i <= k ==> ReadExpired(ops, now, limit)[..k + 1][i] == all[i];
    ByAgeAt(ops, all, k, j);
  }

  lemma {:induction false} ExpireAllAppended(db: Db, rows: seq<nat>, i: nat, now: int)
    requires (forall k :: 0 <= k < |rows| ==> rows[k] < |db.ops|) && i < |db.ops|
    ensures |ExpireAll(db, rows, now).ops| == |db.ops|
    ensures ExpireAll(db, rows + [i], now) == ExpireOne(ExpireAll(db, rows, now), i, now)
    decreases |rows|
  {
    if rows == [] {
      assert [i][1..] == [];
    } else {
      ExpireAllAppended(ExpireOne(db, rows[0], now), rows[1..], i, now);
      assert (rows + [i])[1..] == rows[1..] + [i];
    }
  }
}
