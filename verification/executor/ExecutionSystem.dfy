/**
 Many executions, retried and abandoned at will, beside the reaper, humans, the governor and other clients of the
 ledger. Every step is atomic on the ledger; steps of different parties come in any order.
 */
module ExecutionSystem {
  import opened Prelude
  import opened Texts
  import opened Hashing
  import opened Fingerprints
  import opened LedgerModel
  import opened LedgerSpec
  import opened LedgerRows
  import opened LedgerLaws
  import opened LedgerRuns
  import opened LedgerTheorems
  import opened ToolExecution
  import opened ExecutionPhases

  /** What an observer notes about executions, in order. */
  datatype Note = WasApproved(exec: nat) | WasStarted(exec: nat) | WasInvoked(exec: nat)

  datatype Sys = Sys(ledger: State, execs: seq<Executor>, log: seq<Note>)

  const START: Sys := Sys(INITIAL, [], [])

  datatype Move =
    | Spawn(call: Call)
    | Advances(i: nat, a: Ambient)
    | Foreign(c: Command, io: Io)

  predicate Owned(execs: seq<Executor>, id: OpId) {
    exists i :: 0 <= i < |execs| && execs[i].row.Some? && execs[i].call.request.id == id
  }

  /** Others may do anything except act on an operation granted to an executor; a human may reconcile that too. */
  predicate Enabled(s: Sys, m: Move) {
    match m
    case Spawn(_) => true
    case Advances(i, _) => i < |s.execs|
    case Foreign(c, _) => c.CallReconcile? || TargetOf(c).None? || !Owned(s.execs, TargetOf(c).value)
  }

  function NotesOf(e: Executor, e': Executor, i: nat): seq<Note> {
    if !e.approved && e'.approved then [WasApproved(i)]
    else if e.pc.Starting? && e'.pc.Invoking? then [WasStarted(i)]
    else if !e.invoked && e'.invoked then [WasInvoked(i)]
    else []
  }

  function NextLedger(sha: Hash, ledger: State, c: Option<Command>, io: Io): State {
    match c
    case Some(command) => Next(sha, ledger, Event(command, io))
    case None => ledger
  }

  function Take(sha: Hash, s: Sys, m: Move): Sys {
    if !Enabled(s, m) then s
    else match m
      case Spawn(call) => s.(execs := s.execs + [Fresh(call)])
      case Advances(i, a) =>
        var e := s.execs[i];
        var e' := Advance(sha, e, a, s.ledger.db);
        Sys(NextLedger(sha, s.ledger, LedgerCall(e), a.io), s.execs[i := e'], s.log + NotesOf(e, e', i))
      case Foreign(c, io) => s.(ledger := Next(sha, s.ledger, Event(c, io)))
  }

  function Run(sha: Hash, s: Sys, moves: seq<Move>): Sys
    decreases |moves|
  {
    if moves == [] then s else Run(sha, Take(sha, s, moves[0]), moves[1..])
  }

  // ----- what every interleaving keeps -----

  /** An execution agrees with the row it was granted, or has none and has done nothing. */
  predicate Agrees(sha: Hash, e: Executor, ops: seq<Operation>) {
    match e.row
    case None => (e.pc.Reserving? || e.pc.Done?) && !e.invoked && !e.approved
    case Some(r) => r < |ops| && Knows(sha, e, ops[r])
  }

  ghost predicate AllAgree(sha: Hash, s: Sys) {
    forall i :: 0 <= i < |s.execs| ==> Agrees(sha, s.execs[i], s.ledger.db.ops)
  }

  /** No row has two owners. */
  ghost predicate OneOwner(execs: seq<Executor>) {
    forall i, j :: 0 <= i < j < |execs| && execs[i].row.Some? ==> execs[i].row != execs[j].row
  }

  /** A dangerous tool passes its gate before it is started. */
  predicate Cleared(e: Executor) {
    e.call.dangerous && (e.pc.Rechecking? || e.pc.Starting? || e.pc.Invoking? || e.invoked) ==> e.approved
  }

  /** What the log says agrees with the executions. */
  ghost predicate LogTells(s: Sys) {
    && (forall i :: 0 <= i < |s.execs| && s.execs[i].approved ==> WasApproved(i) in s.log)
    && (forall i :: 0 <= i < |s.execs| && s.execs[i].pc.Invoking? ==> WasStarted(i) in s.log)
    && (forall p :: 0 <= p < |s.log| ==> s.log[p].exec < |s.execs|)
    && (forall p :: 0 <= p < |s.log| && s.log[p].WasInvoked? ==> s.execs[s.log[p].exec].invoked && s.execs[s.log[p].exec].row.Some?)
  }

  /** The order of the log: approval, start, one invocation. */
  ghost predicate LogOrdered(execs: seq<Executor>, log: seq<Note>) {
    && (forall p :: 0 <= p < |log| && log[p].WasInvoked? ==> WasStarted(log[p].exec) in log[..p])
    && (forall p :: 0 <= p < |log| && log[p].WasStarted? && log[p].exec < |execs| && execs[log[p].exec].call.dangerous ==>
          WasApproved(log[p].exec) in log[..p])
    && (forall p, q :: 0 <= p < q < |log| && log[p].WasInvoked? ==> log[p] != log[q])
  }

  ghost predicate Inv(sha: Hash, s: Sys) {
    && Lawful(s.ledger.db, s.ledger.history)
    && AllAgree(sha, s)
    && OneOwner(s.execs)
    && (forall i :: 0 <= i < |s.execs| ==> Cleared(s.execs[i]))
    && LogTells(s)
    && LogOrdered(s.execs, s.log)
  }

  // ----- steps of others -----

  /** A command that does not target an execution's row leaves the execution in agreement. */
  lemma ForeignKeepsAgreement(sha: Hash, e: Executor, db: Db, c: Command, io: Io)
    requires RowsInv(db.ops) && Agrees(sha, e, db.ops)
    requires e.row.Some? ==> c.CallReconcile? || TargetOf(c) != Some(e.call.request.id)
    ensures Agrees(sha, e, Apply(sha, db, c, io).ops)
  {
    if e.row.Some? {
      var r := e.row.value;
      ForeignCommandsInterfere(sha, db, c, io, r);
      PhasesAreStable(sha, e, db.ops[r], Apply(sha, db, c, io).ops[r]);
    }
  }

  lemma ForeignKeepsAll(sha: Hash, s: Sys, c: Command, io: Io, db': Db)
    requires RowsInv(s.ledger.db.ops) && AllAgree(sha, s) && Enabled(s, Foreign(c, io)) && db' == Apply(sha, s.ledger.db, c, io)
    ensures forall i :: 0 <= i < |s.execs| ==> Agrees(sha, s.execs[i], db'.ops)
  {
    forall i | 0 <= i < |s.execs| ensures Agrees(sha, s.execs[i], db'.ops) {
      assert Agrees(sha, s.execs[i], s.ledger.db.ops);
      ForeignKeepsAgreement(sha, s.execs[i], s.ledger.db, c, io);
    }
  }

  lemma ForeignKeepsInv(sha: Hash, s: Sys, c: Command, io: Io)
    requires Inv(sha, s) && Enabled(s, Foreign(c, io))
    ensures Inv(sha, Take(sha, s, Foreign(c, io)))
  {
    NextKeepsLaws(sha, s.ledger, Event(c, io));
    ForeignKeepsAll(sha, s, c, io, Next(sha, s.ledger, Event(c, io)).db);
  }

  lemma SpawnKeepsExecutions(sha: Hash, s: Sys, call: Call, s': Sys)
    requires AllAgree(sha, s) && OneOwner(s.execs) && (forall i :: 0 <= i < |s.execs| ==> Cleared(s.execs[i]))
    requires s' == s.(execs := s.execs + [Fresh(call)])
    ensures AllAgree(sha, s') && OneOwner(s'.execs) && forall i :: 0 <= i < |s'.execs| ==> Cleared(s'.execs[i])
  {
    forall i | 0 <= i < |s'.execs| ensures Agrees(sha, s'.execs[i], s'.ledger.db.ops) && Cleared(s'.execs[i]) {
      if i < |s.execs| { assert Agrees(sha, s.execs[i], s.ledger.db.ops); }
    }
  }

  lemma SpawnKeepsLog(s: Sys, call: Call, s': Sys)
    requires LogTells(s) && LogOrdered(s.execs, s.log) && s' == s.(execs := s.execs + [Fresh(call)])
    ensures LogTells(s') && LogOrdered(s'.execs, s'.log)
  {
  }

  lemma SpawnKeepsInv(sha: Hash, s: Sys, call: Call)
    requires Inv(sha, s)
    ensures Inv(sha, Take(sha, s, Spawn(call)))
  {
    var s' := Take(sha, s, Spawn(call));
    SpawnKeepsExecutions(sha, s, call, s');
    SpawnKeepsLog(s, call, s');
  }

  // ----- steps of an execution -----

  /** Executions with different rows have different operation ids. */
  lemma OwnersDiffer(sha: Hash, s: Sys, i: nat, j: nat)
    requires Inv(sha, s) && i < |s.execs| && j < |s.execs| && i != j
    requires s.execs[i].row.Some? && s.execs[j].row.Some?
    ensures s.execs[i].call.request.id != s.execs[j].call.request.id
  {
    var ri, rj := s.execs[i].row.value, s.execs[j].row.value;
    assert Agrees(sha, s.execs[i], s.ledger.db.ops) && Agrees(sha, s.execs[j], s.ledger.db.ops);
    assert ri != rj;
    assert s.ledger.db.ops[ri].id != s.ledger.db.ops[rj].id;
  }

  lemma OwnStepAgrees(sha: Hash, e: Executor, a: Ambient, db: Db)
    requires RowsInv(db.ops) && Agrees(sha, e, db.ops)
    ensures Agrees(sha, Advance(sha, e, a, db), LedgerAfter(sha, e, a, db).ops)
  {
    if e.row.Some? {
      OwnStepKnows(sha, e, a, db, e.row.value);
      StepKeepsTheRow(e, a, Ask(sha, e, a, db), |db.ops|);
    } else if e.pc.Reserving? {
      GrantKnows(sha, e, a, db);
    }
  }

  /** An execution keeps its row, and is granted the one that is added. */
  lemma RowsAreGrantedOnce(e: Executor, a: Ambient, answer: Answer, rows: nat)
    requires if e.row.None? then e.pc.Reserving? || e.pc.Done? else !e.pc.Reserving?
    ensures var e' := Proceed(e, a, answer, rows);
      e'.call == e.call && (e'.row == e.row || (e.row.None? && e'.row == Some(rows)))
  {
  }

  lemma StepKeepsTheRow(e: Executor, a: Ambient, answer: Answer, rows: nat)
    ensures var e' := Proceed(e, a, answer, rows);
      e'.call == e.call && (!e.pc.Reserving? ==> e'.row == e.row)
  {
  }

  lemma StepKeepsCleared(e: Executor, a: Ambient, answer: Answer, rows: nat)
    requires Cleared(e) && (e.pc.Reserving? ==> !e.invoked)
    ensures Cleared(Proceed(e, a, answer, rows))
  {
  }

  /** Which call an execution makes, and on which operation. */
  lemma CallsTargetTheirOperation(e: Executor)
    ensures LedgerCall(e).Some? && !e.pc.Reserving? ==> TargetOf(LedgerCall(e).value) == Some(e.call.request.id)
    ensures LedgerCall(e).Some? && e.pc.Reserving? ==> TargetOf(LedgerCall(e).value).None?
    ensures LedgerCall(e).Some? ==> !LedgerCall(e).value.CallReconcile?
  {
  }

  lemma CallsSpareOthers(e: Executor, other: Executor)
    requires if e.row.None? then e.pc.Reserving? || e.pc.Done? else !e.pc.Reserving?
    requires e.row.Some? && other.row.Some? ==> e.call.request.id != other.call.request.id
    ensures LedgerCall(e).Some? && other.row.Some? ==> TargetOf(LedgerCall(e).value) != Some(other.call.request.id)
  {
    CallsTargetTheirOperation(e);
  }

  lemma OthersStillAgree(sha: Hash, e: Executor, a: Ambient, db: Db, other: Executor)
    requires RowsInv(db.ops) && Agrees(sha, other, db.ops)
    requires if e.row.None? then e.pc.Reserving? || e.pc.Done? else !e.pc.Reserving?
    requires e.row.Some? && other.row.Some? ==> e.call.request.id != other.call.request.id
    ensures Agrees(sha, other, LedgerAfter(sha, e, a, db).ops)
  {
    CallsSpareOthers(e, other);
    StepsAreLedgerCalls(sha, e, a, db);
    var c := LedgerCall(e);
    if c.Some? { ForeignKeepsAgreement(sha, other, db, c.value, a.io); }
  }

  lemma AdvanceLedger(sha: Hash, s: Sys, i: nat, a: Ambient)
    requires Inv(sha, s) && i < |s.execs|
    ensures var s' := Take(sha, s, Advances(i, a));
      Lawful(s'.ledger.db, s'.ledger.history) && s'.ledger.db == LedgerAfter(sha, s.execs[i], a, s.ledger.db)
  {
    var c := LedgerCall(s.execs[i]);
    StepsAreLedgerCalls(sha, s.execs[i], a, s.ledger.db);
    if c.Some? { NextKeepsLaws(sha, s.ledger, Event(c.value, a.io)); }
  }

  /** What a step of an execution does to the system. */
  ghost predicate Stepped(sha: Hash, s: Sys, i: nat, s': Sys) {
    && Moved(s, i, s')
    && Lawful(s'.ledger.db, s'.ledger.history)
    && Agrees(sha, s'.execs[i], s'.ledger.db.ops) && Cleared(s'.execs[i])
    && (forall j :: 0 <= j < |s.execs| && j != i ==> Agrees(sha, s.execs[j], s'.ledger.db.ops))
  }

  /** One execution moves: it keeps its row or is granted the one that is added, and notes what it did. */
  ghost predicate Moved(s: Sys, i: nat, s': Sys) {
    && i < |s.execs| == |s'.execs| && s'.execs == s.execs[i := s'.execs[i]]
    && var e, e' := s.execs[i], s'.execs[i];
      && e'.call == e.call && (e'.row == e.row || (e.row.None? && e'.row == Some(|s.ledger.db.ops|)))
      && s'.log == s.log + NotesOf(e, e', i) && NotesTell(e, e', i)
  }

  lemma OthersAgreeAfter(sha: Hash, s: Sys, i: nat, a: Ambient, j: nat)
    requires Inv(sha, s) && i < |s.execs| && j < |s.execs| && j != i
    ensures Agrees(sha, s.execs[j], LedgerAfter(sha, s.execs[i], a, s.ledger.db).ops)
  {
    var e, other := s.execs[i], s.execs[j];
    assert Agrees(sha, e, s.ledger.db.ops) && Agrees(sha, other, s.ledger.db.ops);
    if e.row.Some? && other.row.Some? { OwnersDiffer(sha, s, i, j); }
    OthersStillAgree(sha, e, a, s.ledger.db, other);
  }

  lemma ExecutionSteps(sha: Hash, e: Executor, a: Ambient, db: Db, i: nat) returns (e': Executor)
    requires RowsInv(db.ops) && Agrees(sha, e, db.ops) && Cleared(e)
    ensures e' == Advance(sha, e, a, db)
    ensures Agrees(sha, e', LedgerAfter(sha, e, a, db).ops) && Cleared(e')
    ensures e'.call == e.call && (e'.row == e.row || (e.row.None? && e'.row == Some(|db.ops|)))
    ensures NotesTell(e, e', i)
  {
    var answer := Ask(sha, e, a, db);
    e' := Proceed(e, a, answer, |db.ops|);
    OwnStepAgrees(sha, e, a, db);
    StepKeepsCleared(e, a, answer, |db.ops|);
    RowsAreGrantedOnce(e, a, answer, |db.ops|);
    NotesMean(e, a, answer, |db.ops|, i);
  }

  lemma AdvanceIsAStep(sha: Hash, s: Sys, i: nat, a: Ambient) returns (s': Sys)
    requires Inv(sha, s) && i < |s.execs|
    ensures s' == Take(sha, s, Advances(i, a)) && Stepped(sha, s, i, s')
  {
    var e, db := s.execs[i], s.ledger.db;
    assert Agrees(sha, e, db.ops) && Cleared(e);
    s' := Take(sha, s, Advances(i, a));
    AdvanceLedger(sha, s, i, a);
    var e' := ExecutionSteps(sha, e, a, db, i);
    forall j | 0 <= j < |s.execs| && j != i ensures Agrees(sha, s.execs[j], s'.ledger.db.ops) {
      OthersAgreeAfter(sha, s, i, a, j);
    }
  }

  lemma MovesKeepOwners(s: Sys, i: nat, s': Sys)
    requires Moved(s, i, s') && OneOwner(s.execs)
    requires forall j :: 0 <= j < |s.execs| && s.execs[j].row.Some? ==> s.execs[j].row.value < |s.ledger.db.ops|
    ensures OneOwner(s'.execs)
  {
  }

  lemma RowsExist(sha: Hash, s: Sys)
    requires AllAgree(sha, s)
    ensures forall j :: 0 <= j < |s.execs| && s.execs[j].row.Some? ==> s.execs[j].row.value < |s.ledger.db.ops|
  {
    forall j | 0 <= j < |s.execs| && s.execs[j].row.Some? ensures s.execs[j].row.value < |s.ledger.db.ops| {
      assert Agrees(sha, s.execs[j], s.ledger.db.ops);
    }
  }

  // ----- the log -----

  /** What a note says about the step that wrote it. */
  ghost predicate NotesTell(e: Executor, e': Executor, i: nat) {
    var notes := NotesOf(e, e', i);
    && (notes == [] || notes == [WasApproved(i)] || notes == [WasStarted(i)] || notes == [WasInvoked(i)])
    && (notes == [WasApproved(i)] <==> !e.approved && e'.approved)
    && (notes == [WasStarted(i)] ==> e.pc.Starting?)
    && (e'.pc.Invoking? ==> notes == [WasStarted(i)])
    && (notes == [WasInvoked(i)] ==> e.pc.Invoking? && !e.invoked && e'.invoked && e'.row == e.row && e.row.Some?)
    && (e.invoked ==> e'.invoked) && (e.approved ==> e'.approved)
  }

  lemma NotesMean(e: Executor, a: Ambient, answer: Answer, rows: nat, i: nat)
    requires (e.row.None? ==> e.pc.Reserving? || e.pc.Done?) && (e.pc.Reserving? || e.pc.Invoking? ==> !e.invoked)
    ensures NotesTell(e, Proceed(e, a, answer, rows), i)
  {
  }

  lemma AppendedLogTells(s: Sys, s': Sys, i: nat, notes: seq<Note>)
    requires LogTells(s) && i < |s.execs| == |s'.execs| && s'.execs == s.execs[i := s'.execs[i]] && s'.log == s.log + notes
    requires |notes| <= 1 && (notes != [] ==> notes[0].exec == i)
    requires var e, e' := s.execs[i], s'.execs[i];
      && (e'.approved && !e.approved ==> notes == [WasApproved(i)])
      && (e'.pc.Invoking? ==> notes == [WasStarted(i)])
      && (notes == [WasInvoked(i)] ==> e'.invoked && e'.row.Some?)
      && (e.invoked ==> e'.invoked) && (e.row.Some? ==> e'.row.Some?)
    ensures LogTells(s')
  {
    forall j | 0 <= j < |s'.execs| && s'.execs[j].approved ensures WasApproved(j) in s'.log {
      assert notes == [WasApproved(i)] ==> WasApproved(i) in notes;
    }
    forall j | 0 <= j < |s'.execs| && s'.execs[j].pc.Invoking? ensures WasStarted(j) in s'.log {
      assert notes == [WasStarted(i)] ==> WasStarted(i) in notes;
    }
  }

  lemma AppendedLogOrdered(execs: seq<Executor>, execs': seq<Executor>, log: seq<Note>, note: Note)
    requires LogOrdered(execs, log) && |execs'| == |execs|
    requires forall j :: 0 <= j < |execs| ==> execs'[j].call == execs[j].call
    requires note.exec < |execs|
    requires note.WasInvoked? ==> WasStarted(note.exec) in log && note !in log
    requires note.WasStarted? && execs[note.exec].call.dangerous ==> WasApproved(note.exec) in log
    ensures LogOrdered(execs', log + [note])
  {
    var log' := log + [note];
    forall p | 0 <= p < |log'| ensures log'[..p] == if p < |log| then log[..p] else log { }
  }

  lemma MovesKeepLog(s: Sys, i: nat, s': Sys)
    requires LogTells(s) && LogOrdered(s.execs, s.log) && Moved(s, i, s') && Cleared(s.execs[i])
    ensures LogTells(s') && LogOrdered(s'.execs, s'.log)
  {
    var notes := NotesOf(s.execs[i], s'.execs[i], i);
    AppendedLogTells(s, s', i, notes);
    if notes == [] {
      assert s'.log == s.log;
    } else {
      assert notes[0] == WasInvoked(i) ==> notes[0] !in s.log;
      AppendedLogOrdered(s.execs, s'.execs, s.log, notes[0]);
      assert notes == [notes[0]];
    }
  }

  lemma StepKeepsInv(sha: Hash, s: Sys, i: nat, s': Sys)
    requires Inv(sha, s) && Stepped(sha, s, i, s')
    ensures Inv(sha, s')
  {
    RowsExist(sha, s);
    MovesKeepOwners(s, i, s');
    MovesKeepLog(s, i, s');
  }

  lemma TakeKeepsInv(sha: Hash, s: Sys, m: Move)
    requires Inv(sha, s)
    ensures Inv(sha, Take(sha, s, m))
  {
    if Enabled(s, m) {
      match m
      case Spawn(call) => SpawnKeepsInv(sha, s, call);
      case Advances(i, a) =>
        var s' := AdvanceIsAStep(sha, s, i, a);
        StepKeepsInv(sha, s, i, s');
      case Foreign(c, io) => ForeignKeepsInv(sha, s, c, io);
    }
  }

  lemma {:induction false} RunKeepsInv(sha: Hash, s: Sys, moves: seq<Move>)
    requires Inv(sha, s)
    ensures Inv(sha, Run(sha, s, moves))
    decreases |moves|
  {
    if moves != [] {
      TakeKeepsInv(sha, s, moves[0]);
      RunKeepsInv(sha, Take(sha, s, moves[0]), moves[1..]);
    }
  }

  lemma EveryInterleavingKeepsInv(sha: Hash, moves: seq<Move>)
    ensures Inv(sha, Run(sha, START, moves))
  {
    InitialIsLawful();
    RunKeepsInv(sha, START, moves);
  }
}
