# Governed operations: a Dafny model

This project models the governed-operation core of the repository and proves what it is for: the budget ledger with the
tool executor that drives it, the audit hash chain with signed retention, and the canonical JSON both rest on. Smaller
hard pieces stand beside them: the bounded sanitizer of audit values, scene deep links, the point-in-polygon test, the
concentration index, snapshot reconciliation of globe layers and the frame budget window.

## How the model is laid out

| directory | what it models |
|---|---|
| `canonical/` | UTF-16 text, UTF-8, numbers and strings as ECMAScript prints them, `canonicalizeJson` with a parser that inverts it, values with holes, digests |
| `ledger/` | the rows of the budget ledger, every method of the ledger and the governor as one atomic step, the laws those steps keep, runs of them, and the same methods as objects over a shared store |
| `executor/` | `executeReservedTool` as a step machine, the system of many executions beside reaper, humans, governor and other clients, and the executor as ordered imperative code |
| `audit/` | chain tables, verifier, append, retention, migration, sink, storage rows, sanitizer |
| `scene/`, `geo/`, `economic/`, `layers/`, `Sorting.dfy` | base64url and scene links; polygon; HHI and CR4; layer reconciliation and frame budget |

Code that changes state is written twice. A specification function says what one call answers and what it leaves behind.
A class or a method with loops does the same statement by statement and is proved equal to it. Lemmas over runs use the
specification.

Modelling decisions that hold everywhere:

- A transaction is atomic. `Io` carries the clock reading of a call and whether it throws before it commits; then the
  state is as it was. Storage failures and payloads that a schema rejects are both such throws.
- SHA-256 is a function from text to 64 hexadecimal digits about which nothing else is assumed. Every such function has
  collisions somewhere. Where the source relies on collision resistance, the lemma's conclusion names the texts that
  would have to collide: a text hashed for one store and a text hashed for the other, the text of a new link and those of
  the links before it, the texts of two requests. `Hashing.SomeHashKeepsApart` shows that no such alternative comes for
  free: any texts, up to the number of digests, are kept apart by some function. `Utf8.Utf8IsInjective` is why hashing
  texts and hashing their bytes come to the same.
- Ed25519 verification, `Date.parse`, regular-expression redaction, locale order and percent-decoding are function
  parameters.
- Identifiers that the source draws at random are naturals or texts; times are integers (milliseconds).
- Prices, coordinates, shares and frame times are exact reals.

Where the code does something other than one may expect of it, each with a lemma that shows it:

- A result larger than 262,144 bytes settles the operation, yet the caller is told `LEDGER_UNAVAILABLE`, at once
  (`ExecutionOutcomes.UndisturbedEndsAreForetold`, `OversizedSuccessIsUnavailable`) and on every replay for good
  (`ExecutionOutcomes.WrittenResultsAreToldForGood`): the stored digest record lacks the fields a stored result must have.
- The head hash of a verified log that has its beginning or a link above its anchor determines the length of the log
  exactly when the trusted keys have signed no history of retentions that ends at that hash with another length
  (`AuditCommitment.HashFixesTheLengthExactly`). The verifier accepts a store that such a history alone makes up;
  retention never makes one.
- The time at which a link was appended is not covered by any hash (`AuditCommitment.AppendTimesAreNotCommitted`).
- A chain stays acceptable under append exactly while its head is below 2^53 - 1 (`AuditLaws.AppendKeepsSound`).
- `resumeTenant` lifts a tenant's STASIS whatever is in doubt (`LedgerTheorems.ResumeTenantIgnoresDoubt`), so that a tenant
  in doubt may be admitted again (`TenantTheorems.TenantsInDoubtAreAdmittedAgain`).
- The governor's check does not count what is held: it lets pass what the ledger refuses exactly when the holds make the
  difference (`LedgerDecisions.ChecksDifferFromReservations`).
- Tenants together may hold more than the platform's cap (`LedgerTheorems.TenantsTogetherMayExceedThePlatformCap`), up to
  the caps of all owners (`TenantTheorems.PlatformTotalsAreBounded`).
- A scene link on a base with nothing before its '#' and '?' and a scene in its own fragment does not carry the new scene:
  every link on it reads the same, the old scene if a '&' ends it and otherwise nothing (`SceneLink.OldScenesSpoilLinks`).
  On exactly the other bases every scene comes back (`SceneLink.LinksComeBackExactly`); for bases with percent signs it is
  assumed that decoding leaves a plain tail behind a '#' in its place.
- The sanitizer keeps the holes of sparse arrays, and canonical text writes nothing for them. The row of such a payload can
  be read back exactly when every hole is all of its array, and then without it
  (`SparsePayloads.SparseEntriesRoundTripExactly`, `SparsePayloads.ArraysPrintJsonExactly`).
- The size guard of the layers leaves a stale entity when a snapshot asks for as many ids as there are entities but has
  nothing to show for one that is new, as most layers do for an item without a position
  (`BaseLayer.GuardMissesExactly`, `BaseLayer.UnshownItemsDefeatTheGuard`).
- A point inserted at a latitude inside an edge changes nothing exactly when it lies on the edge with longitudes normalized,
  or the edge is level (`Polygon.InsertedPointsMatterExactly`); half way along an edge over the antimeridian it does not
  (`Polygon.PointOverTheAntimeridianMatters`). A rectangle from -180 to 180 holds no point (`Polygon.WholeEarthIsEmpty`).
- The frame report rounds before it compares. Every window within a target passes exactly when the target rounds down to
  hundredths, and then some windows beyond it pass as well: the report is exact for no target
  (`FrameBudget.WindowsWithinPassExactly`, `WindowsBeyondPassExactly`, `ReportsAreNeverExact`). The default of 16.666 ms rounds
  up (`FrameBudget.SteadyFramesOnTargetFail`).

## Model

| member | source | states |
|---|---|---|
| CanonicalParser.ParseCanonical | packages/governance/src/canonicalJson.ts:14-31 | a parser inverts the printer on every value: it returns the value with the keys of every object sorted and leaves nothing over |
| CanonicalParser.CanonicalTextIdentifiesValue | packages/governance/src/canonicalJson.ts:14-31 | two values have equal canonical text if and only if they are the same JSON value, objects compared as finite maps; insertion order of keys does not show |
| CanonicalJson.CanonicalizePrintsNormalForm | packages/governance/src/canonicalJson.ts:24-30 | what is printed with keys sorted at every level is the plain print of the value's normal form |
| CanonicalParser.CanonicalTextIsWellFormed | packages/governance/src/canonicalJson.ts:15-17 | canonical text never contains a lone surrogate, whatever strings the value holds |
| CanonicalForm.CanonicalKeysAscend | packages/governance/src/canonicalJson.ts:27-30 | in the value that canonical text reads as, at every level, each key is a prefix of every later one or has the smaller code unit where they first differ |
| CanonicalForm.ExponentsAppearExactly | packages/governance/src/canonicalJson.ts:18-23 | a number is written with an exponent if and only if its size is at least 1e21 or, not being zero, below 1e-6 |
| CanonicalForm.PlainNumbersAreMinimal | packages/governance/src/canonicalJson.ts:18-23 | without an exponent there is no zero to spare in front or at the end, and a minus sign exactly below zero |
| CanonicalForm.EscapesFollowTheStandard | packages/governance/src/canonicalJson.ts:15-17 | which code units are escaped, with which letters, and which with four lower-case hexadecimal digits of their value |
| Utf8.ScalarsFollowTheStandard | packages/governance/src/ledgerSerialization.ts:19-24 | the bytes of every scalar: how many, which first bytes, and that the bits that do not mark them are the scalar |
| Numbers.ParsePrintedNumber | packages/governance/src/canonicalJson.ts:18-23 | every finite number is recovered from its ECMAScript text in all four layouts |
| Strings.ParseQuoted | packages/governance/src/canonicalJson.ts:15-17 | every string, surrogates and control characters included, is recovered from its escaped text |
| Utf8.Utf8RoundTrip | packages/governance/src/ledgerSerialization.ts:19-24 | well-formed text survives encoding to UTF-8 and decoding |
| Utf8.Utf8IsInjective | packages/governance/src/auditChainHash.ts:110-110 | different well-formed texts have different bytes, so digests of bytes are digests of texts |
| CanonicalValue.IsCanonicalJsonValue | packages/contracts/src/ledger.ts:40-79 | the walk over an object graph answers its specification and leaves its set of visited objects as it was |
| CanonicalValue.AcceptsExactlyJson | packages/contracts/src/ledger.ts:40-79 | the walk terminates on every finite graph and accepts exactly those that unfold to a finite JSON value: no cycle, hole, undefined or foreign object |
| CanonicalValue.UnfoldingIsUnique | packages/contracts/src/ledger.ts:102-119 | an accepted graph is one JSON value |
| Money.RoundingIsDirected | packages/governance/src/money.ts:5-24 | estimates and charges are never rounded below the price nor a micro-dollar above it, caps never above |
| Money.AmountsRoundTrip | packages/governance/src/money.ts:5-31 | amounts survive the trip to dollars and back under either rounding |
| Money.SchemaAmountsConvert | packages/contracts/src/ledger.ts:268-276 | the bounds the schema puts on a reconciled amount are exactly those under which it converts, so the conversion never fails inside the transaction |
| Money.SettlementMatchesReservation | packages/core/src/toolExecutionTypes.ts:139-145 | for every price that is not negative the executor settles the ceiling that was reserved, and both conversions reject the same prices |
| Fingerprints.ComponentTextIdentifies | packages/governance/src/ledgerSerialization.ts:12-24 | two requests have the same fingerprint text if and only if they agree in every component, the input up to key order |
| HashedRecords.ComponentTextsReadAsRequests | packages/governance/src/ledgerSerialization.ts:12-24 | read as JSON, the hashed text of a request is an object with its nine fields and three of its estimate under the names of the source |
| BudgetLedgerStore.BudgetLedgerStore.ReadBudgetRow | packages/governance/src/budgetLedgerStore.ts:135-154 | answers the platform's budget row, creating it with the default cap |
| BudgetLedgerStore.BudgetLedgerStore.EnsureTenantBudget | packages/governance/src/budgetLedgerStore.ts:237-264 | answers a tenant's row, creating it with the platform's cap |
| BudgetLedgerStore.BudgetLedgerStore.RecordSettlement | packages/governance/src/budgetLedgerStore.ts:468-495 | adds a charge to the platform's spend and trips it on a breach of its cap (own operations only) or an overrun |
| BudgetLedgerStore.BudgetLedgerStore.RecordTenantSettlement | packages/governance/src/budgetLedgerStore.ts:445-466 | the same for the tenant |
| BudgetLedgerStore.BudgetLedgerStore.ApplyTerminal | packages/governance/src/budgetLedgerStore.ts:198-231 | ends a row with its amount, result and evidence and charges its owners, or fails as a whole |
| BudgetLedgerStore.BudgetLedgerStore.ApplyInDoubt | packages/governance/src/budgetLedgerStore.ts:406-443 | marks a row in doubt, halts its owner and records the outcome |
| BudgetLedger.SqliteBudgetLedger.Reserve | packages/governance/src/budgetLedger.ts:85-214 | the whole reservation: replay and classification, STASIS, tenant and platform budgets, denial with its trip and audit rows; an error changes nothing |
| BudgetLedger.SqliteBudgetLedger.DecideUnder | packages/governance/src/budgetLedger.ts:125-210 | the decision under one budget: what is held and spent against the cap |
| BudgetLedger.SqliteBudgetLedger.StartExecution | packages/governance/src/budgetLedger.ts:216-246 | dispatch: only from RESERVED, with the right fingerprint and before the deadline; otherwise the matching error |
| BudgetLedger.SqliteBudgetLedger.Finish | packages/governance/src/budgetLedger.ts:429-471 | settling and refunding with their guards, idempotency, evidence rule and audit outcome |
| BudgetLedger.SqliteBudgetLedger.MarkInDoubt | packages/governance/src/budgetLedger.ts:258-296 | marking an executing operation in doubt, idempotently |
| BudgetLedger.SqliteBudgetLedger.Reconcile | packages/governance/src/budgetLedger.ts:298-341 | a human's decision of a doubt, with its audit pair; identical repetition answers, different repetition conflicts |
| BudgetLedger.SqliteBudgetLedger.RecoverExpired | packages/governance/src/budgetLedger.ts:352-377 | the reaper's loop over its snapshot leaves what its specification says and reports exactly the ids it refunded and put in doubt |
| BudgetLedger.SqliteBudgetLedger.Lookup | packages/governance/src/budgetLedger.ts:343-350 | answers the row with an id if and only if there is one |
| BudgetLedger.SqliteBudgetLedger.ResumeTenant | packages/governance/src/budgetLedger.ts:402-407 | the ledger's own resume of a tenant, which always notes the human |
| BudgetLedger.SqliteBudgetLedger.TripTenant | packages/governance/src/budgetLedger.ts:409-418 | halts a tenant's budget, creating its row at need |
| LedgerDecisions.RequestsAreRejectedExactly | packages/contracts/src/ledger.ts:89-119 | a reservation is rejected as invalid if and only if a name is out of bounds, the input has a key twice, or the estimate is not ordered or cannot be converted |
| LedgerDecisions.NewRequestsAreGrantedExactly | packages/governance/src/budgetLedger.ts:91-210 | a valid new request is granted if and only if neither platform nor owner is halted and spent, held and price are within the cap or the price is zero; otherwise it is recorded as denied, the reason is given, and a budget that lacked the room is halted |
| LedgerDecisions.NewRequestsFailExactly | packages/governance/src/budgetLedgerStore.ts:156-165 | a valid new request fails, and changes nothing, if and only if its intent id is taken or the platform runs and the sum of holds is out of range |
| LedgerDecisions.EarlierOperationsAnswer | packages/governance/src/budgetLedgerStore.ts:324-343 | which reply the row that answers a request gives, by its fingerprint, state and deadline |
| LedgerDecisions.SettlementsTripExactly | packages/governance/src/budgetLedgerStore.ts:445-495 | after a settlement a budget is halted if and only if it was, or its spend now meets its cap (the platform: own operations only), or the charge exceeds the reservation, with the code of that reason |
| LedgerDecisions.ReconciliationsTripExactly | packages/governance/src/budgetLedger.ts:298-341 | the same for a human decision that an operation in doubt was carried out |
| LedgerDecisions.DispatchesExactly | packages/governance/src/budgetLedger.ts:216-246 | a dispatch goes through if and only if the row is reserved for the same request before its deadline; which error otherwise |
| LedgerDecisions.CompletesExactly | packages/governance/src/budgetLedger.ts:429-471 | a completion goes through if and only if the row is there already or the trigger lets it go there, with evidence after dispatch and room for the charge; what it writes, and which error otherwise |
| LedgerDecisions.MarksExactly | packages/governance/src/budgetLedger.ts:258-296 | a mark goes through if and only if the row of the same request is executing or in doubt; it halts the owner with COMPLIANCE_DRIFT |
| LedgerDecisions.ReconcilesExactly | packages/governance/src/budgetLedger.ts:298-341 | a human decision goes through if and only if it is the one that stands, or the row is in doubt, its intent id new and the charge countable |
| LedgerDecisions.ErrorsChangeNothing | packages/governance/src/budgetLedger.ts:478-485 | a call on one operation that is answered with an error leaves everything as it was |
| ExpiredRows.ReaperWorksThroughItsSnapshot | packages/governance/src/budgetLedgerStore.ts:345-351 | working through a snapshot of overdue rows ordered by creation and id is the same as asking for the earliest overdue row each time |
| ExpiredRows.OldestAreReadFirst | packages/governance/src/budgetLedgerStore.ts:345-351 | every row of the snapshot is older than each overdue row behind it or left out, or as old with the smaller id |
| BudgetGovernor.CapBudgetGovernor.Check | packages/governance/src/budgetGovernor.ts:153-180 | the verdict under STASIS and cap with what remains, tripping when the estimate does not fit |
| BudgetGovernor.CapBudgetGovernor.CheckTenant | packages/governance/src/budgetGovernor.ts:267-303 | the tenant's verdict, after the platform's STASIS |
| BudgetGovernor.CapBudgetGovernor.RecordSpend | packages/governance/src/budgetGovernor.ts:201-237 | direct spending, tripping when the cap is met and not yet tripped |
| BudgetGovernor.CapBudgetGovernor.RecordTenantSpend | packages/governance/src/budgetGovernor.ts:312-349 | the same for a tenant |
| BudgetGovernor.CapBudgetGovernor.Resume | packages/governance/src/budgetGovernor.ts:240-265 | STASIS is cleared by a human and only while nothing is in doubt |
| BudgetGovernor.CapBudgetGovernor.ResumeTenant | packages/governance/src/budgetGovernor.ts:365-383 | a human lifts a tenant's STASIS; who resumed is recorded only after a trip |
| BudgetGovernor.CapBudgetGovernor.Trip | packages/governance/src/budgetGovernor.ts:182-187 | trips the shared row |
| BudgetGovernor.CapBudgetGovernor.SetTenantCap | packages/governance/src/budgetGovernor.ts:351-363 | sets a tenant's cap, rounded down |
| LedgerDecisions.ChecksExactly | packages/governance/src/budgetGovernor.ts:153-180 | an estimate passes if and only if nothing is halted and it fits next to what is spent, with what remains; a budget it does not fit is halted |
| LedgerDecisions.ChecksTenantsExactly | packages/governance/src/budgetGovernor.ts:267-303 | the same for a tenant |
| LedgerDecisions.DirectSpendingTripsExactly | packages/governance/src/budgetGovernor.ts:201-237 | direct spending is counted and halts a running budget if and only if it meets the cap |
| LedgerDecisions.ChecksDifferFromReservations | packages/governance/src/budgetGovernor.ts:153-180 | check and reservation of one price differ if and only if nothing is halted and what is held makes the price too much, or it is zero under an overspent cap |
| LedgerDecisions.ResumesExactly | packages/governance/src/budgetGovernor.ts:240-265 | STASIS is lifted if and only if a human asks and no operation at all is in doubt; who resumed is noted after a trip |
| LedgerDecisions.OpensExactly | packages/governance/src/budgetGovernor.ts:101-148 | a new platform starts halted if and only if the money spent before meets its cap; a row that exists stays |
| LedgerDecisions.CapsAreSetExactly | packages/governance/src/budgetGovernor.ts:351-363 | a tenant has the cap that is set, and nothing else of any budget changes |
| LedgerRows.ChangeKeepsRows | packages/governance/src/governanceDb.ts:138-217 | every step keeps ids unique, one active operation per fingerprint, and each row in agreement with its journal: the table's constraints never fire |
| LedgerRows.ReserveChanges | packages/governance/src/budgetLedger.ts:85-214 | a reservation adds at most one fresh row and moves none |
| LedgerRows.FinishChanges | packages/governance/src/budgetLedger.ts:429-471 | settling or refunding moves at most the row it names, along a transition the trigger allows |
| LedgerLaws.StepKeepsLaws | packages/governance/src/budgetLedger.ts:85-341 | every ledger step keeps all laws: rows, budgets, audit, STASIS, money |
| LedgerRuns.EveryRunIsLawful | packages/governance/src/budgetLedger.ts:54-497 | every state of every run of ledger and governor calls, by anyone, with any clock and failures, satisfies all laws |
| LedgerTheorems.FinalRowsNeverChange | packages/governance/src/governanceDb.ts:201-206 | SETTLED, REFUNDED and DENIED operations never change again in any continuation |
| LedgerTheorems.OnlyHumansDecideDoubt | packages/governance/src/budgetLedger.ts:298-341 | an operation in doubt changes only by a human reconciliation of that operation |
| LedgerTheorems.SettlementIsWrittenOnce | packages/governance/src/budgetLedger.ts:429-471 | the charge of an operation changes at most once, from zero, with the settlement journal entry, and then never again |
| LedgerTheorems.JournalKindsAreUnique | packages/governance/src/governanceDb.ts:185-197 | no operation ever gets two journal entries of one kind |
| LedgerTheorems.RepeatedFinishChangesNothing | packages/governance/src/budgetLedger.ts:438-438 | repeating an accepted settlement or refund, at once or after any further calls, answers the same row and changes nothing, the audit log included |
| LedgerTheorems.RepeatedMarkChangesNothing | packages/governance/src/budgetLedger.ts:264-264 | repeating an accepted mark, at once or after any further calls, changes nothing: answered while the row is in doubt, refused once it is decided |
| LedgerTheorems.RepeatedReconcileChangesNothing | packages/governance/src/budgetLedger.ts:309-315 | the same for an identical reconciliation, at once or later |
| LedgerTheorems.SpendingIsConserved | packages/governance/src/budgetLedgerStore.ts:445-495 | in every run each budget has spent exactly what its operations were charged plus direct spending |
| LedgerTheorems.TenantsStayWithinTheirCaps | packages/governance/src/budgetLedger.ts:125-175 | in every run a tenant's spent and held money stay within its highest cap plus direct spending plus charges beyond reservations |
| LedgerTheorems.UndisturbedTenantIsWithinItsCap | packages/governance/src/budgetLedger.ts:125-175 | with a cap never lowered, no direct spending and no overrun, spent plus held is at most the cap |
| LedgerTheorems.PlatformStaysWithinItsCap | packages/governance/src/budgetLedger.ts:177-210 | the same bound for the platform's own operations |
| LedgerTheorems.TenantsTogetherMayExceedThePlatformCap | packages/governance/src/budgetLedgerStore.ts:475-480 | a run in which two tenants hold twice the platform's cap without tripping it |
| TenantTheorems.PlatformTotalsAreBounded | packages/governance/src/budgetLedger.ts:125-210 | in every run all that is spent and held, by anyone, is at most the highest caps of the platform and of the tenants with operations, direct spending and overruns |
| TenantTheorems.WithoutTenantsThePlatformIsWithinItsCap | packages/governance/src/budgetLedger.ts:177-210 | while no tenant has an operation the platform stays within its own cap, direct spending and overruns |
| TenantTheorems.SumsSplitByOwner | packages/governance/src/budgetLedgerStore.ts:445-495 | every sum over all operations is the platform's own and the tenants', each counted once |
| LedgerTheorems.DoubtHaltsThePlatform | packages/governance/src/budgetLedger.ts:281-290 | in every reachable state a platform operation in doubt implies STASIS |
| LedgerTheorems.OnlyAHumanResumes | packages/governance/src/budgetGovernor.ts:240-265 | STASIS is lifted only by a human's resume, and only when nothing at all is in doubt |
| LedgerTheorems.StasisAdmitsNothing | packages/governance/src/budgetLedger.ts:103-123 | under STASIS nothing is granted; a new operation is recorded as denied |
| LedgerTheorems.ResumeTenantIgnoresDoubt | packages/governance/src/budgetGovernor.ts:365-383 | after a tenant is resumed, its doubts halt it if and only if it has none: there is no such guard for tenants |
| TenantTheorems.TenantsInDoubtAreAdmittedAgain | packages/governance/src/budgetGovernor.ts:365-383 | a run in which a tenant whose operation is in doubt is resumed and granted another |
| LedgerTheorems.EveryOperationIsAudited | packages/governance/src/budgetLedger.ts:101-116 | in every run each operation has exactly one audit intent, and exactly one outcome from the moment it is decided |
| LedgerTheorems.OneLiveOperationPerRequest | packages/governance/src/budgetLedgerStore.ts:89-100 | the same request never has two operations alive at once |
| LedgerTheorems.RepliesAreAboutTheSameRequest | packages/governance/src/budgetLedgerStore.ts:324-343 | an answer about an earlier operation is about the same request, or the canonical texts of these two requests collide |
| LedgerTheorems.ReaperExpiresTheBatch | packages/governance/src/budgetLedger.ts:352-377 | a batch expires as many overdue rows as it may; one as large as their number leaves none |
| LedgerTheorems.ReaperDecidesByState | packages/governance/src/budgetLedger.ts:359-370 | the reaper refunds overdue reservations, puts dispatched operations in doubt and touches nothing else |
| ToolExecutor.ToolExecutor.ExecuteReservedTool | packages/core/src/reservedToolExecution.ts:36-222 | the imperative executor, run without interference, answers and leaves behind what the step machine does |
| ToolExecutor.ToolExecutor.RequestApproval | packages/core/src/reservedToolExecution.ts:224-282 | the refusal code of the gate for every reply, and none when it approves |
| ToolExecutor.ToolExecutor.MarkExecutionInDoubt | packages/core/src/reservedToolExecution.ts:306-350 | marking after an ambiguous handler |
| ToolExecutor.ToolExecutor.RefundReserved | packages/core/src/reservedToolExecution.ts:352-381 | refunding without evidence and reading the stored result back |
| ToolExecutor.ToolExecutor.SettleReserved | packages/core/src/reservedToolExecution.ts:383-439 | settling, and marking in doubt when the settlement cannot be confirmed |
| ExecutionAnswers.AnsweredCallsAreTold | packages/core/src/reservedToolExecution.ts:91-137 | a call that an earlier row answers runs nothing, changes nothing and is told a conflict, progress, doubt or the stored result, by that row |
| ExecutionAnswers.NewCallsAreTold | packages/core/src/reservedToolExecution.ts:76-103 | a new call has a row if and only if the ledger can decide and the budgets have room; otherwise it is told a refusal, which is recorded, or that the ledger is unavailable |
| ExecutionAnswers.UngrantedCodesTellTheRows | packages/core/src/reservedToolExecution.ts:76-137 | for every code what it says of the rows when nothing was granted: bound to another request, in progress, in doubt or late, refused, or stored by a final row of the same request |
| ExecutionAnswers.UngrantedCodesInRuns | packages/core/src/reservedToolExecution.ts:76-137 | in every run in which only executors finish operations each code says exactly that; success is told if and only if the same request is settled with it |
| ExecutionAudits.UndisturbedCallsAreAudited | packages/core/src/toolExecutionTypes.ts:103-116 | a granted undisturbed call writes its intent and one outcome: ok for a success, blocked for a rejection or expiry, error for everything else |
| ExecutionPhases.PhasesAreStable | packages/core/src/reservedToolExecution.ts:139-222 | what an execution knows about its row survives whatever others may do to it |
| ExecutionPhases.ForeignCommandsInterfere | packages/governance/src/budgetLedger.ts:352-377 | all that others can do to an operation is to expire it or, for a human, to decide its doubt |
| ExecutionSystem.EveryInterleavingKeepsInv | packages/core/src/reservedToolExecution.ts:36-222 | every interleaving of executions, reaper, humans, governor and other clients keeps each execution in agreement with its row, one owner per row and the order of approval, start and invocation |
| ExecutionTheorems.SystemRunsAreLedgerRuns | packages/core/src/reservedToolExecution.ts:49-75 | the ledger of every system run is the ledger of a run of calls, so all ledger laws hold there |
| ExecutionTheorems.HandlersRunAtMostOnce | packages/core/src/reservedToolExecution.ts:184-195 | however calls are retried, a handler runs at most once per operation id |
| ExecutionTheorems.HandlersRunAfterDispatchAndApproval | packages/core/src/reservedToolExecution.ts:144-186 | a handler runs only after its start, and a dangerous one was approved before that |
| ExecutionTheorems.StartIsTheDispatch | packages/governance/src/budgetLedger.ts:216-246 | the start of an execution is the step that moves its row from RESERVED to EXECUTING before its deadline |
| ExecutionTheorems.RunOperationsAreRefundedByHumansOnly | packages/core/src/reservedToolExecution.ts:352-368 | an operation whose handler was called is never refunded but by a human reconciliation with evidence |
| ExecutionTheorems.CodesTellTheDurableState | packages/core/src/reservedToolExecution.ts:139-222 | under every interleaving the code an execution answered stays true of its row: success and output failure if and only if settled with that result, doubt, refund codes with the handler never called |
| ExecutionTheorems.ExecutorsChargeTheReservation | packages/core/src/reservedToolExecution.ts:392-398 | an executor charges nothing or exactly what was reserved |
| ExecutionTheorems.ExecutorDrivenTenantsStayWithinTheirCap | packages/core/src/reservedToolExecution.ts:214-221 | a tenant driven by executors alone never spends and holds more than its cap |
| ExecutionTheorems.UndisturbedCodeIsTheDurableState | packages/core/src/toolExecutionTypes.ts:118-137 | without interference and with a working ledger the code is a function of the durable state, and the handler was called exactly when the operation is not refunded |
| ExecutionOutcomes.UndisturbedEndsAreForetold | packages/core/src/reservedToolExecution.ts:139-222 | the row and the code of an undisturbed granted call are foretold by what its steps meet; the ledger is called unavailable if and only if the result that is written is larger than 262,144 bytes |
| ExecutionOutcomes.SettlementNeedsRoom | packages/governance/src/budgetLedgerStore.ts:445-495 | a settlement succeeds if and only if the budgets can count its charge within the safe integers |
| ExecutionOutcomes.FinalResultsAreToldAgain | packages/core/src/toolExecutionTypes.ts:118-137 | after any further calls, executing the request of a final row again calls no handler, changes nothing and tells the stored result |
| ExecutionOutcomes.WrittenResultsAreToldForGood | packages/governance/src/ledgerSerialization.ts:26-50 | every later call with the id and request of an undisturbed one is told what that was told; a result over the limit is unavailable for good |
| ExecutionOutcomes.OversizedSuccessIsUnavailable | packages/core/src/toolExecutionTypes.ts:118-137 | a call that succeeds with too large a result is settled and told that the ledger is unavailable |
| AuditHash.PayloadTextIdentifies | packages/governance/src/auditChainHash.ts:87-111 | the hashed payload text holds every column of the event and its redaction version |
| AuditHash.LinkTextIdentifies | packages/governance/src/auditChainHash.ts:113-126 | the hashed link text holds sequence, previous hash and payload hash |
| AuditHash.TextsIdentifyContents | packages/governance/src/auditChainHash.ts:87-126 | no two different contents of any kind, payload, link or genesis, have the same hashed text |
| HashedRecords.PayloadTextsReadAsEvents | packages/governance/src/auditChainHash.ts:87-111 | read as JSON, the hashed text of an event is an object with its format, redaction version and thirteen columns under the names of the source |
| HashedRecords.LinkTextsReadAsLinks | packages/governance/src/auditChainHash.ts:113-126 | the same for a link and its five fields |
| HashedRecords.ReceiptTextsReadAsReceipts | packages/governance/src/auditRetention.ts:93-115 | the same for the signed text of a receipt and its seventeen fields |
| AuditHash.DigestsCommit | packages/governance/src/auditChainHash.ts:16-19 | equal digests of payloads, links and genesis come from equal contents, or the two texts collide |
| AuditEntries.EntriesRoundTrip | packages/governance/src/auditChainHash.ts:128-153 | an entry stored and read back is the entry, its payload's keys sorted |
| AuditEntries.RowsIdentifyEntries | packages/governance/src/auditChainHash.ts:48-85 | two entries are stored alike if and only if they are the same entry, payloads compared as JSON values |
| HashedRecords.RowsHoldTheEntry | packages/governance/src/auditChainHash.ts:48-85 | what each column of the row of an intent or an outcome holds, payloads as texts that read as them |
| SparsePayloads.SparseEntriesRoundTripExactly | packages/governance/src/auditChainHash.ts:128-153 | a row whose payload may have holes is read back if and only if every hole is all of its array, as the entry without those holes |
| SparseParser.SparseTextsParseExactly | packages/governance/src/canonicalJson.ts:24-26 | the canonical text of a value with holes is JSON if and only if every hole is all of its array |
| SparsePayloads.ArraysPrintJsonExactly | packages/governance/src/auditRedaction.ts:118-125 | a sanitized array prints JSON if and only if none of its first 64 places is a hole and all they hold prints JSON, or it is one hole |
| SparsePayloads.DenseValuesAreReadBack | packages/governance/src/auditRedaction.ts:151-160 | audited values of graphs without such holes are stored and read back |
| AuditModel.SignedTextIdentifies | packages/governance/src/auditRetention.ts:93-115 | two receipts with the same signed text agree on every signed field |
| AuditModel.SignatureTextsAreSpellings | packages/governance/src/auditRetention.ts:149-156 | a signature text is accepted if and only if it is the base64url spelling of 64 bytes |
| AuditVerifier.VerifyRetentionHistory | packages/governance/src/auditRetention.ts:173-234 | the loop accepts exactly the histories in which every receipt continues the ones before and is signed, with the state row at their end; otherwise it names the first bad receipt |
| AuditTrust.AcceptedHistoriesExactly | packages/governance/src/auditRetention.ts:117-234 | a history is accepted if and only if every receipt begins where the one before ends and is signed by the listed key of its signer, which was in force at the approval: not yet revoked, and within its validity |
| AuditTrust.ReceiptsAreRefusedExactly | packages/governance/src/auditRetention.ts:182-216 | which fault a receipt is refused for, the boundary before the signature |
| AuditVerifier.WalkLinks | packages/governance/src/auditChainStore.ts:175-201 | the walk finds the first link that is not intact, if there is one |
| AuditVerifier.VerifyIntegrity | packages/governance/src/auditChainStore.ts:110-235 | the verdict is valid exactly on sound chains and counts all links; otherwise it blames the first part of the description that fails |
| AuditTrust.LinksAreRefusedExactly | packages/governance/src/auditChainStore.ts:175-201 | which fault a link is refused for: row, number, previous hash, event, payload hash, chain hash, in this order |
| AuditTrust.SoundExactly | packages/governance/src/auditChainStore.ts:110-235 | a chain is sound if and only if the state row says where receipts and links end, every receipt is accepted, every link intact at its place and every event linked, said column by column |
| AuditRuns.BreaksAreLocalised | packages/governance/src/auditChainStore.ts:175-201 | for the gap, previous-hash, missing-event, payload and chain-hash codes the reported sequence is anchor plus verified plus one, everything before is intact and the link there is not |
| AuditCommitment.HeadCommitsToTheLog | packages/governance/src/auditChainStore.ts:175-210 | two sound chains with the same head agree on every event and link above the larger anchor, whose hash is the other's chain hash there, or a text hashed for one collides with a text hashed for the other |
| AuditCommitment.HeadHashCommitsToTheLog | packages/governance/src/auditChainStore.ts:203-210 | for chains that have their beginning or a link above the anchor the head hash alone commits, to the length too, but for a collision between their texts |
| AuditCommitment.HashAloneDoesNotCommit | packages/governance/src/auditChainStore.ts:203-210 | beside any store there is a verified one with the same head hash and another length, as soon as the trusted keys have signed a history that ends there |
| AuditCommitment.HashFixesTheLengthExactly | packages/governance/src/auditChainStore.ts:203-210 | the head hash of a sound, rooted store determines the length among all verified stores, up to a collision of their texts, if and only if no accepted receipt history ends at that hash with another length |
| AuditCommitment.SignedLengthsAreOpen | packages/governance/src/auditRetention.ts:221-233 | where another length is signed, no store with that head hash, rooted or not, has its length determined by it |
| AuditCommitment.AppendTimesAreNotCommitted | packages/governance/src/auditChainHash.ts:113-126 | rewriting the times of links leaves a sound chain sound |
| AuditSink.AuditChainStore.AppendStorageRow | packages/governance/src/auditChainStore.ts:237-296 | inserts event and link and moves the head, or fails and changes nothing |
| AuditLaws.AppendKeepsSound | packages/governance/src/auditChainStore.ts:237-296 | a sound chain stays sound under append if and only if its head is below the largest safe integer |
| AuditLaws.AppendSucceeds | packages/governance/src/auditChainStore.ts:237-250 | on a sound chain an append fails only for an event id that is taken, or when the text of the new link collides with a text hashed for the chain before |
| AuditLaws.AppendFailsOnATakenHash | packages/governance/src/auditChainStore.ts:252-294 | with a fresh id it succeeds if and only if no held link has the new hash |
| AuditTrust.AppendsBehindItsHead | packages/governance/src/auditChainStore.ts:237-296 | on any tables an append that succeeds found the head where the state row says, and added one link with the hashes of its event and itself |
| AuditSink.AuditChainStore.ApplyRetention | packages/governance/src/auditRetention.ts:236-387 | the retention with its checks, signed receipt, deletions and new anchor, or an error that changes nothing |
| AuditSink.AuditChainStore.DeleteEvents | packages/governance/src/auditRetention.ts:364-365 | the loop deletes exactly the events with the listed ids |
| AuditTrust.RetainsExactly | packages/governance/src/auditRetention.ts:236-325 | on a sound chain a retention is carried out if and only if a human asks for what the policy allows, no incident is open, the receipt id is new and an active key in force signs; what the receipt says |
| AuditLaws.WrittenReceiptIsAttested | packages/governance/src/auditRetention.ts:288-320 | the receipt a retention files is one the verifier accepts, whatever signed it |
| AuditLaws.RetainKeepsAll | packages/governance/src/auditRetention.ts:236-387 | a committed retention of a sound chain leaves a sound chain with a link above its anchor |
| AuditLaws.RetentionConserves | packages/governance/src/auditRetention.ts:265-286 | it takes exactly the links and events up to the cutoff and reports their number within the policy's limit, keeps at least the policy's minimum unchanged, and moves nothing else |
| AuditSink.MigrateAuditChain | packages/governance/src/auditChainMigration.ts:102-140 | the loop chains the rows of an old log in order from the genesis hash |
| AuditLaws.MigrationIsSound | packages/governance/src/auditChainMigration.ts:102-140 | the migrated log is sound and holds every row, and no log fails to migrate unless the texts of two of its links collide |
| AuditTrust.MigratedLinksExactly | packages/governance/src/auditChainMigration.ts:102-140 | each old row has its link at its place, marked as not redacted |
| AuditRuns.RunsKeepAll | packages/governance/src/auditChainStore.ts:237-296 | over any run nothing that is still linked ever changed, and the head counts every row appended |
| AuditRuns.ReachableChainsAreValid | packages/governance/src/auditChainStore.ts:110-235 | every store reachable from a migrated log is judged valid, with head less anchor links; pruned and kept add up to all rows ever chained |
| AuditRuns.ReachableHeadsCommit | packages/governance/src/auditChainStore.ts:203-210 | any verified, rooted store that shows the head hash of a reachable one holds the same log above the larger anchor and is as long, or texts hashed for the two collide |
| AuditRuns.HistoryTiles | packages/governance/src/auditRetention.ts:182-219 | an accepted receipt history covers exactly 1 to the anchor, nothing twice, and its lengths add up |
| AuditRuns.PrunedAndKeptAddUp | packages/governance/src/auditRetention.ts:221-233 | in every accepted chain pruned and kept add up to the head |
| AuditSink.SqliteAuditSink.Record | packages/governance/src/auditSink.ts:92-103 | a row is appended in a transaction and published only once committed |
| AuditSink.SqliteAuditSink.Retain | packages/governance/src/auditSink.ts:109-169 | the sink's retention is its specification, and listeners hear of intent and outcome |
| AuditSink.RetentionIsAllOrNothing | packages/governance/src/auditSink.ts:109-169 | a retention through the sink keeps the chain sound and is all or nothing: anchor moved with intent and outcome on record, or not moved with intent and refusal on record |
| AuditSink.RetentionIsRecorded | packages/governance/src/auditSink.ts:109-169 | the outcome is the last event of a committed retention; of a refused one intent and refusal follow everything there was |
| Sanitizer.SanitizeValue | packages/governance/src/auditRedaction.ts:108-149 | the walk over a graph that may be cyclic and sparse terminates, answers its specification, holes included, and restores the active path |
| SanitizerLaws.SanitizedIsTame | packages/governance/src/auditRedaction.ts:108-149 | every graph yields at most seven containers inside each other, each with at most 65 entries, and short strings |
| SanitizerLaws.TameTextsAreBounded | packages/governance/src/auditRedaction.ts:151-154 | the canonical text of such a value is bounded by its levels |
| SanitizerLaws.AuditValuesAreSmall | packages/governance/src/auditRedaction.ts:151-160 | the audited value always has a canonical text of at most 16,384 bytes |
| SanitizerSecrets.SecretsDoNotShow | packages/governance/src/auditRedaction.ts:134-141 | two graphs that differ only in what stands under sensitive keys are sanitized to the same value |
| SanitizerSecrets.OnlyCleanedTextsShow | packages/governance/src/auditRedaction.ts:83-110 | two graphs that differ only in texts and keys that redaction makes equal, and in what stands under sensitive keys, are sanitized to the same value |
| SanitizerMeaning.FittingGraphsAreShown | packages/governance/src/auditRedaction.ts:108-149 | a graph within the limits whose texts and keys need no redaction is sanitized to the JSON value it unfolds to, key order aside |
| SanitizerMeaning.FittingGraphsAreAudited | packages/governance/src/auditRedaction.ts:151-160 | what is audited of it is that value, or the size and digest of its text above 16,384 bytes |
| SanitizerMeaning.ArraysAreCutAt64 | packages/governance/src/auditRedaction.ts:118-125 | an array shows its first 64 places and then how many more it has |
| SanitizerMeaning.ObjectsAreCutAt64 | packages/governance/src/auditRedaction.ts:128-145 | an object with more keys shows the 64 that collate first, a mark under sensitive ones, and then how many more it has |
| SanitizerMeaning.ForbiddenKeysDoNotShow | packages/governance/src/auditRedaction.ts:134-137 | no key that could stand for a prototype shows at any level, before or after redaction |
| Base64.BytesToBase64Url | packages/core/src/sceneSerializer.ts:30-37 | the encoding loop yields the URL form, from which the bytes come back |
| Base64.SextetsKeepTheBits | packages/core/src/sceneSerializer.ts:30-37 | the groups of six bits, read as one number, are the bytes read as one number with zeros behind |
| Base64.Base64UrlToBytes | packages/core/src/sceneSerializer.ts:42-72 | the padding and filling loops decode exactly the decodable texts |
| Base64.UrlFormFollowsTheStandard | packages/core/src/sceneSerializer.ts:36-36 | replacing and stripping yields the unpadded form of RFC 4648, section 5 |
| Base64.UrlFormIsUrlSafe | packages/core/src/sceneSerializer.ts:36-36 | the URL form is URL safe and its length is never one more than whole groups |
| Base64.UrlRoundTrip | packages/core/src/sceneSerializer.ts:30-72 | every byte string survives stripping, re-padding and decoding |
| Base64.RestoredIsStandard | packages/core/src/sceneSerializer.ts:42-60 | restoring and padding gives back the standard base64 text itself, so every decoder of standard base64 completes the round trip, in browsers and elsewhere |
| SceneLink.SerializedTextsComeBack | packages/core/src/sceneSerializer.ts:78-112 | a serialized scene is deserialized to its text, but for a leading byte order mark |
| SceneLink.PlainScenesAreReadAsTheyAre | packages/core/src/sceneSerializer.ts:93-112 | a payload in braces, whatever space is around it, is the JSON text itself |
| SceneLink.ScenesAreFoundBehindSeparators | packages/core/src/sceneSerializer.ts:150-160 | a scene is found behind each of the signs '&', '?' and '#' |
| SceneLink.BasesAreCleanedExactly | packages/core/src/sceneSerializer.ts:132-140 | what is left of a base: all of it when it begins with '#' or '?', and otherwise what is before the first of them |
| SceneLink.RunOnCaptureIsNotRead | packages/core/src/sceneSerializer.ts:150-160 | a capture that runs on through the new scene is never read, whatever its percent escapes |
| SceneLink.LinksRoundTrip | packages/core/src/sceneSerializer.ts:132-160 | parsing a created link recovers the scene for every base with something before its '#' and '?', and for every other base whose own fragment holds no scene |
| SceneLink.LinksComeBackExactly | packages/core/src/sceneSerializer.ts:132-160 | every scene comes back if and only if the base has something before its '#' and '?' or no scene in its own fragment |
| SceneLink.OldScenesSpoilLinks | packages/core/src/sceneSerializer.ts:132-160 | on every other base all links read the same: the scene the base brought if a '&' ends it, and otherwise nothing |
| Polygon.TurnsDoNotMatter | packages/core/src/geoMath.ts:19-25 | normalizing ignores whole turns and leaves exactly the longitudes in range alone |
| Polygon.IsPointInPolygon | packages/core/src/scopeMask.ts:79-108 | the toggling loop answers the parity of crossed edges |
| Polygon.RotationChangesNothing | packages/core/src/scopeMask.ts:87-105 | the answer does not depend on where the vertex list starts |
| Polygon.ReversalChangesNothing | packages/core/src/scopeMask.ts:87-105 | nor on its direction |
| Polygon.TurnsChangeNothing | packages/core/src/scopeMask.ts:85-97 | nor on whole turns added to any longitude |
| Polygon.PointOnEdgeChangesNothing | packages/core/src/scopeMask.ts:99-100 | nor on a point inserted on an edge whose ends are in range |
| Polygon.PointOnNormalizedEdgeChangesNothing | packages/core/src/scopeMask.ts:85-100 | nor, for any longitudes, on a point that lies on the edge as normalized |
| Polygon.InsertedPointsMatterExactly | packages/core/src/scopeMask.ts:85-105 | a point inserted at a latitude strictly inside an edge changes the answer for no point if and only if it lies on the edge, longitudes normalized, or the edge is level |
| Polygon.PointOverTheAntimeridianMatters | packages/core/src/scopeMask.ts:95-100 | a point half way along an edge over the antimeridian does change the answer |
| Polygon.DiagonalSplits | packages/core/src/scopeMask.ts:87-105 | a point is inside if and only if it is inside exactly one of the parts a diagonal makes |
| Polygon.RectanglesAreHalfOpen | packages/core/src/scopeMask.ts:99-100 | on every upright rectangle the test is membership in the half-open box between its latitudes and its normalized longitudes |
| Polygon.WholeEarthIsEmpty | packages/core/src/geoMath.ts:19-25 | a rectangle from -180 to 180 holds no point |
| Concentration.CalculateHhiFromShares | packages/economic/src/concentration.ts:29-80 | the loops compute total, squares and maximum, reject what must be rejected, and report the rounded figures |
| Concentration.ReportsExactly | packages/economic/src/concentration.ts:60-79 | index, largest share and four-firm ratio to the nearest hundredth, the index at most 10,000, and the tier by 1,500 and 2,500 |
| Concentration.RejectsExactly | packages/economic/src/concentration.ts:43-58 | shares are rejected if and only if one is negative or they add up to more than 100.001 |
| Concentration.CalculateHhiFromValues | packages/economic/src/concentration.ts:85-114 | sizes are turned into shares of their total |
| Concentration.ValuesNeverThrow | packages/economic/src/concentration.ts:85-114 | sizes that are not negative never raise an error |
| Concentration.IndexIsBounded | packages/economic/src/concentration.ts:43-60 | the index of n firms lies between 10000 / n and 10000 |
| Concentration.MergersNeverLowerTheIndex | packages/economic/src/concentration.ts:60-67 | merging two firms never lowers the reported index nor the tier |
| Concentration.Cr4IsTheBestOfFour | packages/economic/src/concentration.ts:69-71 | CR4 is the largest share at most four firms have together, and some four have it |
| BaseLayer.BaseLayerController.EnqueueUpdates | packages/cesium-kit/src/baseLayer.ts:47-52 | replaces what is pending and schedules one frame, or drains at once without frames |
| BaseLayer.BaseLayerController.DrainQueue | packages/cesium-kit/src/baseLayer.ts:115-151 | the guarded drain over any items, also those the layer registers nothing for |
| BaseLayer.BaseLayerController.DestroyLayer | packages/cesium-kit/src/baseLayer.ts:156-166 | empties the layer for good |
| BaseLayer.SkippingIsSweeping | packages/cesium-kit/src/baseLayer.ts:139-147 | when everything asked for can be shown, the guarded drain is the unconditional sweep |
| BaseLayer.GuardMissesExactly | packages/cesium-kit/src/baseLayer.ts:139-147 | the two differ if and only if processing adds nothing, as many ids are asked for as there are entities, and some entity is none of them |
| BaseLayer.FramesLeaveNothingStale | packages/cesium-kit/src/baseLayer.ts:115-151 | a frame leaves only entities its snapshot asks for if and only if the guard does not miss |
| BaseLayer.FramesShowTheLastSnapshot | packages/cesium-kit/src/baseLayer.ts:98-151 | however many snapshots were coalesced and whatever was shown before, after the next frame the layer holds exactly the last one, if all of it can be shown |
| BaseLayer.DestroyedLayersStayEmpty | packages/cesium-kit/src/baseLayer.ts:47-48 | nothing brings entities back to a destroyed layer |
| BaseLayer.UnshownItemsDefeatTheGuard | packages/cesium-kit/src/flightLayer.ts:28-31 | a run of two snapshots after which the layer shows an entity its last snapshot does not ask for |
| FrameBudget.FrameBudgetMonitor.RecordFrame | packages/cesium-kit/src/frameBudget.ts:63-86 | one frame: delta, window, counters |
| FrameBudget.FrameBudgetMonitor.Reset | packages/cesium-kit/src/frameBudget.ts:220-226 | forgets samples and counters |
| FrameBudget.FrameBudgetMonitor.GetMetrics | packages/cesium-kit/src/frameBudget.ts:124-186 | every figure of the report, rounded: rates, average between least and greatest sample, three ordered percentiles |
| FrameBudget.FixedIsNearest | packages/cesium-kit/src/frameBudget.ts:172-185 | a rounded figure is the nearest multiple of its step |
| FrameBudget.RatesMean | packages/cesium-kit/src/frameBudget.ts:148-170 | frames per second from milliseconds, capped at 240, seconds from milliseconds, breaches per hundred frames |
| FrameBudget.GetReport | packages/cesium-kit/src/frameBudget.ts:191-203 | the report passes if and only if the 95th percentile, rounded to hundredths, is within the target |
| FrameBudget.WindowsWithinPassExactly | packages/cesium-kit/src/frameBudget.ts:191-203 | for every target: all windows within it pass if and only if the target rounds down to hundredths |
| FrameBudget.WindowsBeyondPassExactly | packages/cesium-kit/src/frameBudget.ts:191-203 | some window entirely beyond it passes if and only if the target rounds down, too |
| FrameBudget.SteadyFramesOnTargetFail | packages/cesium-kit/src/frameBudget.ts:191-203 | a window of frames at exactly the default target breaches nothing and fails the report |
| FrameBudget.BufferHoldsTheLastDeltas | packages/cesium-kit/src/frameBudget.ts:63-86 | over any run the buffer holds exactly the last deltas that fit the window and the breaches count all since the last reset |
| FrameBudget.PercentilesAreNearestRank | packages/cesium-kit/src/frameBudget.ts:208-215 | at least p percent of the samples are at or below their percentile and fewer than p percent are below it |
| FrameBudget.PercentilesGrow | packages/cesium-kit/src/frameBudget.ts:164-168 | p50, p95 and p99 are in order |

## Left out

- SQLite itself, SQL text, pragmas, file handling, busy timeouts: a transaction is one step on the tables.
- SHA-256, Ed25519 and AES-GCM as algorithms; the shortest decimal of a double is given, not computed from its bits.
- Floating-point rounding: `toMicrousd`, the polygon test, HHI and the percentiles are stated in exact arithmetic. In
  doubles `p / 100 * n` may exceed an integer by a rounding error and move a percentile by one rank.
- Schema validation beyond the refinements named above; payloads it rejects are calls that throw.
- Messages, periods, warning thresholds and revisions of budget rows beyond what decides something.
- The other client of the ledger, the server's cost middleware: it appears as foreign commands that do not act on
  operations granted to an executor.
- The interplay of audit retention and the ledger's own audit rows: the ledger's audit list is not pruned.
- The catch block of `verifyIntegrity` for storage errors while reading: only the report's own contract is modelled.
- Commit errors after a successful commit: a call that throws has not changed the state.
- `tail` queries, listeners that throw, closing connections.
- Providers, source registries, HTTP, WebSocket, MCP, CLI, Svelte, Cesium drawing, Yjs, SGP4, trigonometry, voice.
- Sanitizer.Rules: the redaction patterns and the sensitive-key test are parameters; the lemmas hold for all of them.
- Base64.Base64UrlToBytes: decodes as `atob` does. Where `Buffer` is defined the source uses that, which also takes texts that
  `atob` rejects; what it makes of those is not modelled, so SceneLink.OldScenesSpoilLinks and SceneLink.LinksComeBackExactly
  speak of `atob` and of `TextDecoder`.
- BaseLayer.BaseLayerController.DrainQueue: keeps of an entity only its latest payload; that the collaboration layer hides an
  entity without a cursor instead of moving it is not part of the model.
- SceneLink.DecodeUri: leaves open what percent-decoding makes of escapes, since created links contain none.
- SceneLink.Deserialize: rejects bytes that are no UTF-8, where `TextDecoder` puts replacement characters; created links hold none.
- BudgetLedger.SqliteBudgetLedger.RecoverExpired: requires distinct ids, which the primary key guarantees.
- AuditRuns.ReachableChainsAreValid: assumes that old and new rows together number at most 2^53 - 1, the bound that `AuditLaws.AppendKeepsSound` shows to be exact.
