# Verified models of the coordination, approval and analysis cores

This project models the parts of the repository whose correctness is about whole runs, interleavings
or all inputs, and proves what they promise. `dafny verify dfyconfig.toml` checks everything.

**The A2A work coordinator** (`pipeline/a2a_coordination.py`) is the centre. `Coordinator` is a labelled
transition system in which any number of submit, get and cancel calls, by any number of coordinator
processes, interleave at the granularity of the store lock; the clock, worker replies and failures, lease
renewals and crashes are steps of their own. `Records` holds the record update of every locked section,
`TaskStoreModel.TaskStore` is the store class over hash-chained event files, whose methods are proved to
make exactly those updates, and the run theorems are in `StoreInvariant`, `Submission`, `Cancellation`,
`Leases`, `Replies` (what is on record is what the worker said), `Authorization`, `Isolation` (principals do not
meet), `Delegation` and `GrantCeilings`. `Executions` says what calls that nothing interrupts do, from any
reachable state. `Scopes`, `Budgets` and `EventLog` are the pure parts underneath.

**The other cores**: the mutex bank account (`BankAccount`), the two-pointer programs
(`TwoPointer`), the dependency-cycle finder (`DependencyCycles`), the alternating-bit protocol
(`AlternatingBit`), the capacity-bounding rewrite of guarded-command machines (`CapacityBounding`, over
`GuardedCommands` and `LinearPeaks`), human
approval with protected signing (`Approval`), the method scanner that replaces a regular expression
(`MethodScanner`), the C overflow facts and brace matcher (`OverflowBounds`), the bounded JSON worklist
(`JsonWorklist`) and the state-space bound of flattened architecture models (`ModelScope`).

## Where the code does less than it seems to promise

Each of these is stated exactly in the model, with the condition under which the promise does hold.

- **Scope corner.** `d/**` contains the scope `d`, yet the path `d` is not allowed by `d/**`. So containment
  narrows the allowed paths except for an exact scope naming a containing tree's root (`Scopes.ContainsExact`,
  `Scopes.RootCorner`), and that exception appears in `Delegation.AuthorityShrinks`.
- **Millionth event.** Event files are listed by a six-digit pattern, so the millionth append of a task is
  reported as stored but never read back (`EventLog.AppendReadBack`).
- **Empty task directory.** A crash between making a task's directory and linking its first event blocks the
  creation of every task from then on (`TaskStoreModel.EmptyDirectoryBlocksCreation`).
- **Erased identity.** A well-attributed observation with an empty remote id overwrites a bound one
  (`Records.RemoteIdKept` says exactly when a bound id survives).
- **Unforwarded cancellation.** With a cancellation already stored, an event that first binds a live remote id
  forwards it if and only if it is a valid observation that does not itself answer a cancellation
  (`Cancellation.BindingForwardsIff`). `Cancellation.NoLostCancellation` allows no other loss but the crash of the
  very call that was about to send it, and a refresh makes up for both (`Cancellation.RefreshForwards`).
- **Late commits.** A recovery claim reads the clock before it takes the lock, so leases separate claims by the
  times they observed; what is left of the lease at the commit is the lease less the wait, for every wait
  (`Leases.ClaimsSeparated`, `Leases.LateCommitUnprotected`).
- **Clock steps.** The coordinator reads the wall clock. If it steps back, a claim that read the earlier, later time
  can take a live dispatch (`Leases.LiveClaimIff`); what leases promise about the current time assumes it does not.
- **One-sided ceilings.** A budget key that the chosen worker does not list has a per-item ceiling but no aggregate
  one: two tasks that each ask for all of it are both admitted (`GrantCeilings.OneSidedKeyExceeds`). A grant's
  ceiling binds all its active tasks in all runs exactly when it is not negative and, unless it is zero, every
  worker that can take work under the grant lists the key (`GrantCeilings.GrantBudgetIff`); for one admission the
  condition is `Budgets.AdmissionKeepsIff`.
- **Growth guards.** The rewrite guards `f := e + n` with `f < hi` whatever `e` is. That keeps `f := f + n` within
  `hi` exactly when n is at most one, and does not stop `f := g + 1`, nor `f := 1 + f`, which gets no guard
  (`CapacityBounding.GrowthGuardExact`, `OtherFieldEscapes`, `FlippedGrowthEscapes`). For every integer effect,
  guarded or not, `CapacityBounding.EffectKeepsIff` decides from the text whether the bound is kept.
- **Change after the check.** A signature over bytes that changed after the bound-file check is published as
  SIGNED; the status query then reports nothing (`Approval.ChangeAfterCheck`). A published signature covers approved
  bytes if and only if the artifact still matched at the verification (`Approval.SignedCovers`).
- **Octal literals.** The overflow deriver reads `010` as ten. Its fact is safe (`OverflowBounds.OctalIsSafe`); when it
  is still the weakest one is `OverflowBounds.SumExactIff` for sums and differences, and
  `OverflowBounds.ProductExactIff` for products.

## Model

| member | source | states |
|---|---|---|
| `Scopes.NormalizeExact` | pipeline/a2a_coordination.py:79-90 | exactly which texts are scopes, what they normalise to, and which are refused as protected |
| `Scopes.NormalizeIdempotent` | pipeline/a2a_coordination.py:79-90 | a normalised scope normalises to itself, so re-reading stored work items changes nothing |
| `Scopes.ContainsPreorder` | pipeline/a2a_coordination.py:93-103 | `_scope_contains` is reflexive and transitive on all strings |
| `Scopes.ContainsAntisymmetric` | pipeline/a2a_coordination.py:93-103 | on normalised scopes it is a partial order |
| `Scopes.TreeAllows` | pipeline/a2a_coordination.py:106-108 | the file-name pattern of a tree admits exactly the paths strictly below its root |
| `Scopes.ContainsSound` | pipeline/a2a_coordination.py:93-108 | a path allowed by a contained scope is allowed by the container, unless it is the container's root |
| `Scopes.ContainsExact` | pipeline/a2a_coordination.py:93-108 | containment equals narrowing of allowed paths, except for the root corner (both directions) |
| `Scopes.RootCorner` | pipeline/a2a_coordination.py:93-108 | the corner itself: `d/**` contains `d` but does not allow the path `d` |
| `Records.TextFormsExact` | pipeline/a2a_coordination.py:39-40 | identifiers and digests, character by character |
| `Records.ConstructRoundTrip` | pipeline/a2a_coordination.py:128-169 | a constructed work item is valid, and rebuilding it from its stored form gives the same item |
| `Records.ConstructExact` | pipeline/a2a_coordination.py:128-169 | an item is constructed exactly when its identifiers are good, all its paths normalise and some path is allowed; its scopes are then the normalised paths |
| `Records.CheckChangedExact` | pipeline/a2a_coordination.py:974-987 | changed paths are accepted exactly when each normalises, is allowed and is unprotected |
| `Records.ValidateExact` | pipeline/a2a_coordination.py:956-1001 | a result is accepted, unchanged, exactly when its schema, item, base revision, patch digest, changed paths and artifacts all fit the item |
| `Records.NormalPathIsSafe` | pipeline/a2a_coordination.py:79-90 | a path that normalises is relative, keeps its parts, and has no `..`, `.git` or `.formalspecgen` part |
| `Records.ClassifyExact` | pipeline/a2a_coordination.py:1068-1103 | a reply becomes an observation exactly when its state is one of the eight known ones and its result fits; otherwise a protocol error |
| `Records.UpdatesAdvance` | pipeline/a2a_coordination.py:501-612 | renewal, claim and cancellation keep the binding, absorb terminal outcomes and write the attempt once; dispatch does so if and only if the record it claims carries no other attempt, as no stored one does |
| `Records.EventsAdvance` | pipeline/a2a_coordination.py:628-773 | so does every observation, protocol error and transport error, in any state |
| `Records.EventShape` | pipeline/a2a_coordination.py:644-773 | a misattributed or late event changes no protocol state; any event leaves deadlines and intent alone and moves dispatch in two ways only |
| `Records.EventLeavesTraceIff` | pipeline/a2a_coordination.py:644-773 | an event is left unrecorded if and only if it repeats the outcome of a finished task; every other one is stamped with its time |
| `Records.InconsistentIff` | pipeline/a2a_coordination.py:650-698 | a record is flagged inconsistent exactly by an event of its attempt that names another worker task or another final outcome |
| `Records.RedeliveryIsSilent` | pipeline/a2a_coordination.py:665-680 | the observation that finished a task has no effect when delivered again at any later time |
| `Records.UpdatesStamp` | pipeline/a2a_coordination.py:501-612 | the other updates stamp a record exactly when they append it, and never touch what the worker reported |
| `Records.RemoteIdKept` | pipeline/a2a_coordination.py:650-769 | a bound remote id survives an event exactly unless a well-attributed event with an empty id reaches a live record |
| `Records.DiagnosticsStayCounted` | pipeline/a2a_coordination.py:614-626 | at most 64 diagnostics are kept and every one is counted |
| `Records.DiagnosticsAreNewest` | pipeline/a2a_coordination.py:614-773 | each event adds exactly its own diagnostic, and the kept ones are the newest 64 of all ever added, in order |
| `Budgets.SumRemove` | pipeline/a2a_coordination.py:424-442 | summed budgets do not depend on the order of the tasks |
| `Budgets.LoadCounts` | pipeline/a2a_coordination.py:424-442 | a task counts with its budget while it is active under that authority and principal, or as a child of that parent, and not at all otherwise |
| `Budgets.LoadShrinks` | pipeline/a2a_coordination.py:424-442 | record updates never raise the summed budget of a group |
| `Budgets.AdmittedWithinCeilings` | pipeline/a2a_coordination.py:424-477 | after an admitted creation both the aggregate ceiling and the parent's budget hold, new task included |
| `Budgets.RefusalMeans` | pipeline/a2a_coordination.py:424-477 | each refusal, and admission, holds exactly under its condition on the item, the store and the ceiling |
| `Budgets.AdmissionKeepsIff` | pipeline/a2a_coordination.py:424-442 | an admission keeps every store's account within a limit if and only if the ceiling lists the key with at most the limit, or the item uses none of it, or is never admitted |
| `EventLog.AppendThenLoad` | pipeline/a2a_coordination.py:342-409 | appending keeps every earlier event, keeps the chain, and the record appended is the record loaded |
| `EventLog.AppendReadBack` | pipeline/a2a_coordination.py:342-409 | a reported append can be read back if and only if it is below the millionth event or repeats the last record |
| `EventLog.TamperEvident` | pipeline/a2a_coordination.py:346-374 | two loadable logs with the same last digest are identical, or exhibit a digest collision |
| `EventLog.LastDigestPinsLog` | pipeline/a2a_coordination.py:346-374 | with an injective digest the last digest determines the whole log |
| `TaskStoreModel.AuthorizedIsRead` | pipeline/a2a_coordination.py:823-835 | on an intact store, load and authorise is the protocol's read; another principal's task looks missing |
| `TaskStoreModel.CommitIsUpdate` | pipeline/a2a_coordination.py:376-409 | on an intact store a commit replaces one latest record and keeps every earlier event of every task |
| `TaskStoreModel.CommitKeepsIntact` | pipeline/a2a_coordination.py:376-409 | a commit with room for another event leaves the store intact |
| `TaskStoreModel.LogsRefineTable` | pipeline/a2a_coordination.py:342-499 | for every sequence of store calls, the latest records in the chained logs are what the protocol's table computes, and the logs stay intact |
| `TaskStoreModel.StepsAreCalls` | pipeline/a2a_coordination.py:1003-1198 | the locked steps of the protocol are exactly these calls on its table |
| `TaskStoreModel.CreatedExactlyWhen` | pipeline/a2a_coordination.py:479-499 | a new task is created if and only if every stored directory loads and admission succeeds |
| `TaskStoreModel.CreateAnswersAgree` | pipeline/a2a_coordination.py:479-499 | what `create` answers on an intact store is where the protocol takes the submission next: on to dispatch, to the stored task, or to the error |
| `TaskStoreModel.EmptyDirectoryBlocksCreation` | pipeline/a2a_coordination.py:376-416 | an empty directory left by a crash makes every creation fail |
| `TaskStoreModel.TaskStore.LoadUnlocked` | pipeline/a2a_coordination.py:346-374 | the loop over event files accepts exactly the chained logs and returns their last record |
| `TaskStoreModel.TaskStore.AppendUnlocked` | pipeline/a2a_coordination.py:376-409 | the whole new store after an append, collisions with a hidden file included |
| `TaskStoreModel.TaskStore.BeginDispatch` | pipeline/a2a_coordination.py:501-528 | the whole new store, and on intact stores the protocol's dispatch step |
| `TaskStoreModel.TaskStore.RenewDispatchLease` | pipeline/a2a_coordination.py:530-552 | the whole new store, and on intact stores the protocol's renewal step |
| `TaskStoreModel.TaskStore.ClaimReconciliation` | pipeline/a2a_coordination.py:565-612 | the whole new store, and on intact stores the protocol's claim step, errors included |
| `TaskStoreModel.TaskStore.TransitionRemoteEvent` | pipeline/a2a_coordination.py:628-773 | the whole new store, and on intact stores the protocol's event step |
| `TaskStoreModel.TaskStore.RequestCancellation` | pipeline/a2a_coordination.py:775-809 | the whole new store, and on intact stores the protocol's cancellation step |
| `TaskStoreModel.TaskStore.AllLatestUnlocked` | pipeline/a2a_coordination.py:411-416 | succeeds exactly when every task directory loads, with all latest records, else with the error of the first unreadable one in listing order |
| `TaskStoreModel.TaskStore.GroupTotal` | pipeline/a2a_coordination.py:424-442 | the summing loop computes the load of the group |
| `TaskStoreModel.TaskStore.ExceedsCeiling` | pipeline/a2a_coordination.py:424-442 | reports an excess exactly when some listed key exceeds its ceiling |
| `TaskStoreModel.TaskStore.CheckAggregateBudgetUnlocked` | pipeline/a2a_coordination.py:424-477 | gives the admission verdict, in the source's order of refusals |
| `TaskStoreModel.TaskStore.Create` | pipeline/a2a_coordination.py:479-499 | idempotent retries, conflicts, refusals, load errors and creation, with the whole new store |
| `StoreInvariant.TasksStep` | pipeline/a2a_coordination.py:479-809 | one step of any kind advances every stored record and creates at most the one admitted task |
| `StoreInvariant.StoreStep` | pipeline/a2a_coordination.py:1003-1198 | the store invariant (grants, bindings, parent order, guards inherited) is inductive over all steps |
| `StoreInvariant.RunStoreOk` | pipeline/a2a_coordination.py:1003-1198 | it holds in every state of every run |
| `StoreInvariant.RecordsOnlyAdvance` | pipeline/a2a_coordination.py:628-809 | between any two moments of a run: binding fixed, attempt written once, intent and inconsistency marks never withdrawn |
| `StoreInvariant.TerminalForever` | pipeline/a2a_coordination.py:665-698 | a terminal state, its result, remote id and acceptance never change again |
| `StoreInvariant.CompletionIsNotAcceptance` | pipeline/a2a_coordination.py:700-769 | no run ever records anything but pending acceptance |
| `Submission.SubmittedAtMostOnce` | pipeline/a2a_coordination.py:1040-1066 | over every interleaving, crash and retry, a work item is sent to the worker at most once, and it is the stored granted item |
| `Submission.CancelledNeverSent` | pipeline/a2a_coordination.py:775-809 | a task cancelled before its dispatch began stays cancelled, is never sent, and no call ever comes to sending it |
| `Submission.CancelBeforeDispatch` | pipeline/a2a_coordination.py:775-809 | a cancellation step cancels at once exactly when dispatch has not begun, otherwise leaves the task pending, and records when it was first asked for |
| `Replies.ConfirmedHasReply` | pipeline/a2a_coordination.py:700-769 | every confirmed record reports a reply that the worker gave, earlier in the run, to a call on this task and attempt |
| `Replies.FinishedByReply` | pipeline/a2a_coordination.py:700-769 | a finished task was either cancelled before dispatch or carries the final state and result of such a reply; failed may come from an invalid final reply |
| `Replies.SettlementIsReported` | pipeline/a2a_coordination.py:1068-1103 | a settlement of a reply that reaches a live record leaves exactly what the reply said on record |
| `Replies.StoredResultsFit` | pipeline/a2a_coordination.py:956-1001 | every stored result in every run fits the item it is stored with |
| `Replies.StoredPathsStayWithin` | pipeline/a2a_coordination.py:974-987 | every path a stored result changed stays in the tree, outside `.git` and `.formalspecgen`, and within what every ancestor of the task allows and guards, save for tree roots |
| `Replies.FailureSettles` | pipeline/a2a_coordination.py:713-742 | a settled failure of a submission or reconciliation leaves a live record uncertain, under the same attempt |
| `Replies.UncertainHasFailure` | pipeline/a2a_coordination.py:713-742 | an uncertain record comes from a failure of a submission or reconciliation of this attempt earlier in the run |
| `Executions.SubmitSends` | pipeline/a2a_coordination.py:1003-1066 | an uninterrupted submission of an admissible new item stores it, claims its dispatch for the caller's lease and sends it once, with the guards of its parent |
| `Executions.BeginAnswers` | pipeline/a2a_coordination.py:1041-1048 | a task cancelled between its creation and its dispatch is answered and not sent; otherwise it goes on to be sent under a fresh attempt |
| `Executions.SubmitReports` | pipeline/a2a_coordination.py:1003-1103 | answered, it ends with the reply on record and in the caller's hands |
| `Executions.SubmitFailureIsRecoverable` | pipeline/a2a_coordination.py:1049-1066 | failed, it leaves the attempt open to recovery by anybody, at once |
| `Executions.RetryAnswers` | pipeline/a2a_coordination.py:479-499 | a retry sends and stores nothing: the stored task if it asks for the same item, a conflict otherwise |
| `Executions.ReadAnswersFromStore` | pipeline/a2a_coordination.py:1136-1145 | a plain read, or a refresh of a finished task, is answered from the store |
| `Executions.RefreshAsks` | pipeline/a2a_coordination.py:1173-1177 | a refresh of a live bound task that nobody cancelled asks the worker about its attempt |
| `Executions.RefreshReports` | pipeline/a2a_coordination.py:1173-1177 | answered, it ends with the reply on record and in the caller's hands |
| `Executions.RefreshFailureChangesNothing` | pipeline/a2a_coordination.py:1173-1177 | failed, it tells the caller and leaves the store as it was |
| `Executions.RecoveryAsks` | pipeline/a2a_coordination.py:1145-1152 | a refresh of an abandoned attempt takes it over for a lease and asks the worker about that same attempt |
| `Executions.RecoveryReports` | pipeline/a2a_coordination.py:1152-1170 | answered, it binds and reports the task again |
| `Executions.RecoveryFailureIsRecoverable` | pipeline/a2a_coordination.py:1153-1167 | failed, it leaves the attempt open to the next recovery |
| `Executions.OwnedIsLeftAlone` | pipeline/a2a_coordination.py:1145-1151 | a refresh of an unbound attempt that somebody still owns asks nothing and answers from the store |
| `Executions.CancelSends` | pipeline/a2a_coordination.py:1193-1198 | a cancellation of a live bound task is recorded and sent for the bound identity |
| `Executions.CancelReports` | pipeline/a2a_coordination.py:1105-1127 | answered, it ends with the reply on record: finished as the worker says, pending while it still runs |
| `Executions.CancelFailureStaysPending` | pipeline/a2a_coordination.py:1105-1120 | failed, it stays pending with the identity bound, and is reported as uncertain |
| `Executions.CancelAnswersFromStore` | pipeline/a2a_coordination.py:1193-1198 | a cancellation of a finished task changes nothing; one of an unbound task is recorded, and neither sends anything |
| `Cancellation.NoLostCancellation` | pipeline/a2a_coordination.py:1068-1127 | a live task with stored intent and a bound id has been cancelled with that id, or some call is about to, or an earlier step of the run lost this very request: its call crashed, or the id was bound after the intent by an event that forwards none |
| `Cancellation.CancellationForwarded` | pipeline/a2a_coordination.py:1068-1127 | once all calls ended and no step lost this request, the cancellation was sent with the bound id |
| `Cancellation.BindingForwardsIff` | pipeline/a2a_coordination.py:1068-1103 | a step that binds a live id after the intent leaves its call about to cancel it if and only if the event is a valid observation that answers no cancellation; otherwise the call ends |
| `Cancellation.InvalidObservationNotForwarded` | pipeline/a2a_coordination.py:1068-1103 | the loss is real: such an invalid observation ends its call without forwarding |
| `Cancellation.CancelOfBoundTaskPends` | pipeline/a2a_coordination.py:1193-1198 | cancelling a live task whose id is bound is about to send, whatever observations came before |
| `Cancellation.RefreshForwards` | pipeline/a2a_coordination.py:1136-1177 | any later refresh is about to cancel with the bound id |
| `Cancellation.IdentityKept` | pipeline/a2a_coordination.py:650-663 | a bound remote id is never replaced as long as observations name the task |
| `Cancellation.CancelsOncePerCall` | pipeline/a2a_coordination.py:1105-1198 | each submit, get or cancel call sends at most one cancellation |
| `Leases.ClaimsSeparated` | pipeline/a2a_coordination.py:565-612 | consecutive claims without a failed request in between observed times at least the first lease apart; bound on commit times on a steady clock |
| `Leases.LateCommitUnprotected` | pipeline/a2a_coordination.py:565-612 | the commit bound is tight for every wait: a second claim succeeds at that distance and at none below |
| `Leases.ClaimExactlyWhenExpired` | pipeline/a2a_coordination.py:554-612 | a claim of a waiting attempt succeeds if and only if it is uncertain or its own deadline has passed |
| `Leases.NoClaimWhileLive` | pipeline/a2a_coordination.py:565-612 | in every run on a steady clock, no claim succeeds while the in-flight lease is unexpired |
| `Leases.LiveClaimIff` | pipeline/a2a_coordination.py:565-612 | on any clock, a claim takes a live dispatch if and only if its earlier reading is past the lease and the task is neither finished nor known to the worker |
| `Leases.RenewedDispatchStays` | pipeline/a2a_coordination.py:530-612 | while renewals keep the lease ahead of the clock and nothing settles, attempt and owner stay |
| `Leases.DispatchLeaseHolds` | pipeline/a2a_coordination.py:501-612 | after a dispatch was claimed, or last renewed, and while nothing settled, no recovery claim observed a time before the end of that lease; on a steady clock none commits before it |
| `Leases.DispatchLeaseIff` | pipeline/a2a_coordination.py:565-612 | with no claim in between, a claim on that dispatch succeeds if and only if it observed a time at or after the end of the lease |
| `Leases.NoRenewalAfterClaim` | pipeline/a2a_coordination.py:530-552 | after a claim nobody owns the dispatch again, for the rest of the run |
| `Leases.RenewalByOwnerOnly` | pipeline/a2a_coordination.py:530-552 | a renewal extends the deadline to a lease from now exactly for the owner of the attempt in flight; anybody else's changes nothing |
| `Delegation.ParentsAcyclic` | pipeline/a2a_coordination.py:443-465 | no task is its own ancestor, in any state of any run |
| `Delegation.ChainShrinks` | pipeline/a2a_coordination.py:443-465 | along a chain of any length effects and scopes shrink and protected scopes grow |
| `Delegation.AuthorityShrinks` | pipeline/a2a_coordination.py:942-987 | effects of a descendant are a subset of every ancestor's, and a path it may change is unprotected at and allowed by every ancestor, save tree roots |
| `Delegation.WithinOperatorPolicy` | pipeline/a2a_coordination.py:888-940 | the same against the operator's grant and the worker profile: project, worker, workflow, effects, paths, per-item budget, and the expiry of the grant at creation |
| `Authorization.AuthorizeExact` | pipeline/a2a_coordination.py:888-940 | a submission is authorised exactly when the grant is this principal's, for this project, not expired, and it and the worker cover workflow, effects, paths and budget |
| `Authorization.CreatedInTime` | pipeline/a2a_coordination.py:1003-1040 | every stored task was authorised by a step of the run at the time it says it was created, before its grant expired |
| `Authorization.SentInTime` | pipeline/a2a_coordination.py:1003-1066 | everything ever sent to a worker was authorised in time, as it was sent |
| `Authorization.ExpiredGrantDenies` | pipeline/a2a_coordination.py:897-900 | a submission under an expired grant ends the call and stores and sends nothing |
| `Isolation.AnswersStayWithPrincipal` | pipeline/a2a_coordination.py:823-835 | whatever a call answers with is a task of the principal that made the call, in every run |
| `Isolation.ChangesStayWithPrincipal` | pipeline/a2a_coordination.py:823-835 | only a renewal for a task's principal, or a call made for it, ever creates or changes the task |
| `Delegation.RetryStaysInPrincipal` | pipeline/a2a_coordination.py:479-499 | an idempotent retry sees the same request and a record of its own principal |
| `Delegation.AggregateBudgetKept` | pipeline/a2a_coordination.py:424-442 | over all runs, active budgets of an authority and principal never exceed the ceiling that their creations using the key were checked against |
| `Delegation.CreatedWithinBoth` | pipeline/a2a_coordination.py:1036-1040 | whenever a task is created, its account stays within every key that grant and worker both list, whichever is stricter |
| `GrantCeilings.GrantBudgetKept` | pipeline/a2a_coordination.py:424-442 | a grant's ceiling listed by every worker that can take work under it binds all runs |
| `GrantCeilings.OneSidedKeyExceeds` | pipeline/a2a_coordination.py:888-940 | an eight-step run from an empty store doubles the ceiling of a key that a usable worker does not list |
| `GrantCeilings.GrantBudgetIff` | pipeline/a2a_coordination.py:424-442 | the exact condition, on the policy alone, for a grant's ceiling to bind all runs |
| `Delegation.SiblingBudgetKept` | pipeline/a2a_coordination.py:466-477 | active direct children never exceed their parent's budget for any key the parent lists |
| `BankAccount.Account.DoDeposit` | ConcurrentBankAccount.rs:28-36 | the locked body computes the sequential deposit |
| `BankAccount.Account.DoWithdraw` | ConcurrentBankAccount.rs:38-46 | the locked body computes the sequential withdrawal |
| `BankAccount.MutexStep` | ConcurrentBankAccount.rs:28-53 | mutual exclusion, and a balance loaded under the lock stays current until the store |
| `BankAccount.RunInv` | ConcurrentBankAccount.rs:28-53 | legality, real-time order and balance bounds hold in every state of every run |
| `BankAccount.Linearizable` | ConcurrentBankAccount.rs:28-53 | every history, for any number of threads and calls, has a sequential order with the same replies that respects real time |
| `BankAccount.BalanceConserved` | ConcurrentBankAccount.rs:28-53 | balance is start plus successful deposits less successful withdrawals, within 0..cap |
| `BankAccount.RepliesAreTrue` | ConcurrentBankAccount.rs:28-53 | every reply a caller gets is the one the sequential history calls for at its place: the balance read is start plus deposits less withdrawals, and operations are refused exactly at the cap or at zero |
| `BankAccount.NeverPoisoned` | ConcurrentBankAccount.rs:28-53 | no critical section overflows i32 in any run, so none panics, the mutex is never poisoned and no reply says so |
| `BankAccount.OverflowPoisons` | ConcurrentBankAccount.rs:38-45 | with a cap beyond i32 it would be: a deposit at the largest i32 panics and poisons |
| `BankAccount.ShippedAccounts` | ConcurrentBankingCore.rs:28-53 | both shipped instances (1 of 2, 0 of 10) are linearizable and bounded |
| `TwoPointer.BaselineMaxArea` | baseline/MaxArea.java:7-23 | the nested loops return the maximum over all pairs |
| `TwoPointer.OptimizedMaxArea` | optimized/MaxArea.java:7-27 | the two-pointer loop returns the maximum over all pairs |
| `TwoPointer.FastEqualsBaseline` | optimized/MaxArea.java:5-27 | fast form and baseline return the same value on every nonnegative array |
| `TwoPointer.MaxAreaUnique` | baseline/MaxArea.java:7-23 | the maximum is unique, so the specification pins the result |
| `TwoPointer.AreasFit` | optimized/MaxArea.java:2-4 | within the shipped precondition every area fits an int |
| `TwoPointer.TwoSum` | optimized/SortedTwoSum.java:10-26 | a pair with the target sum whenever one exists, and (-1, -1) exactly when none does |
| `DependencyCycles.WalkSinks` | pipeline/architecture.py:237-253 | a walk from a settled component ends at one settled strictly earlier |
| `DependencyCycles.SettledIsAcyclic` | pipeline/architecture.py:237-253 | a complete settling order excludes every cycle |
| `DependencyCycles.CycleOnStack` | pipeline/architecture.py:240-244 | the reported list is a closed walk along declared edges |
| `DependencyCycles.CycleFinder.Visit` | pipeline/architecture.py:239-250 | the recursion terminates and keeps the search invariant |
| `DependencyCycles.CycleFinder.FindCycles` | pipeline/architecture.py:237-253 | empty exactly when the graph is acyclic, every list a real cycle, each component expanded exactly once |
| `AlternatingBit.Protocol.DoReceiveMsg` | AlternatingBitProtocol.rs:40-94 | the step keeps the shipped invariant and computes the modelled transition |
| `AlternatingBit.Protocol.DoResendAck` | AlternatingBitProtocol.rs:40-94 | the step keeps the shipped invariant and computes the modelled transition |
| `AlternatingBit.LinkStep` | AlternatingBitProtocol.rs:40-94 | the payload invariant is inductive and only the next payload is ever received |
| `AlternatingBit.ExactlyOnceInOrder` | AlternatingBitProtocol.rs:40-94 | every lossy run delivers the offered payloads once each and in order; bits are parities of counters |
| `AlternatingBit.NeverStuck` | AlternatingBitProtocol.rs:40-94 | from every reachable state seven further steps suffice to deliver the next payload |
| `CapacityBounding.CorrectCandidate` | pipeline/behavior_correction.py:365-440 | the rewrite clamps, guards and adds invariants exactly as promised and changes nothing else |
| `CapacityBounding.ClampMeans` | pipeline/behavior_correction.py:365-404 | a bounded variable admits exactly the values it admitted that do not exceed the capacity; an unbounded one gets zero to the capacity; others are left alone |
| `CapacityBounding.AddGrowthGuards` | pipeline/behavior_correction.py:410-427 | old guards first, then every needed growth guard, none twice |
| `CapacityBounding.BoundedRefines` | pipeline/behavior_correction.py:405-440 | every run of the bounded machine is a run of the original |
| `CapacityBounding.BoundsKept` | pipeline/behavior_correction.py:369-427 | every reachable state stays within every rewritten bound |
| `CapacityBounding.HardwareInvariantsHold` | pipeline/behavior_correction.py:434-440 | every reachable state satisfies every added invariant, if each effect on a rebounded variable keeps its bound |
| `CapacityBounding.EffectKeepsIff` | pipeline/behavior_correction.py:411-427 | an integer effect, guarded for growth or not, keeps the capacity in all in-bounds states where it fires if and only if its peak, read off the text, does |
| `CapacityBounding.OtherFieldEscapes` | pipeline/behavior_correction.py:411-427 | the growth guard does not stop growth from another field |
| `CapacityBounding.FlippedGrowthEscapes` | pipeline/behavior_correction.py:411-417 | growth with the literal on the left gets no guard and steps over the capacity |
| `LinearPeaks.EvalIsLinear` | pipeline/domain_v2_model.py:27-52 | every expression of sort int evaluates to a linear form |
| `LinearPeaks.BelowCapIff` | pipeline/domain_v2_model.py:27-52 | it stays below a cap throughout a box if and only if its corner value does |
| `GuardedCommands.StepMeans` | pipeline/domain_v2_model.py:58-64 | effects are simultaneous: after a step each field has the value of its last effect in the state before, or stays |
| `CapacityBounding.WithinIsInvariant` | pipeline/behavior_correction.py:295-301 | the added expression means lower and upper bound |
| `CapacityBounding.GrowthGuardExact` | pipeline/behavior_correction.py:416-425 | the growth guard keeps the bound for an increment if and only if the increment is at most one |
| `Approval.RunInv` | pipeline/approval_service.py:294-357 | the approval invariant holds in every state of every run with crashes between writes |
| `Approval.RequestBindsFiles` | pipeline/approval_service.py:218-292 | a request binds digest and size of both files as they were at its creation |
| `Approval.SignedMeansApproved` | pipeline/approval_service.py:294-357 | a SIGNED receipt implies an authenticated approval bound to this request, its files and its signer, with the bytes unchanged at the check, and a signature over exactly the bytes verified; the receipt says exactly that |
| `Approval.AuthenticExact` | pipeline/approval_service.py:345-484 | a decision counts exactly when it names this request, operation, digests, destination, signer, action and policy, and is signed by the bound and trusted reviewer with a full fingerprint |
| `Approval.PublishedInTime` | pipeline/approval_service.py:294-343 | the execution that published a receipt began before the request expired |
| `Approval.SignedInTime` | pipeline/approval_service.py:294-326 | every run of the signer belongs to an execution that began before the request expired |
| `Approval.ExpiredChangesNothing` | pipeline/approval_service.py:410-411 | an execution begun at or after expiry changes nothing |
| `Approval.ExecutePublishesIff` | pipeline/approval_service.py:294-343 | exactly when an uninterrupted execution publishes a denial, publishes a signature, and runs the signer |
| `Approval.SignedCovers` | pipeline/approval_service.py:317-343 | the signature covers the artifact as it was at that execution's verification, so approved bytes if and only if they still matched then; no change since the check suffices |
| `Approval.DenialNeverSigns` | pipeline/approval_service.py:310-315 | a recorded denial never runs the signer, and its receipt is an authentic denial without a signature |
| `Approval.SealStep` | pipeline/approval_service.py:84-94 | request, decision, signature and receipt are written once |
| `Approval.SealedForever` | pipeline/approval_service.py:322-343 | after a signature or receipt no signer run follows, and neither ever changes, to the end of the run |
| `Approval.SignsOnce` | pipeline/approval_service.py:322-326 | every signer run but the last left no signature, and the last one made the stored one |
| `Approval.RetryPublishes` | pipeline/approval_service.py:317-343 | after a crash between signing and receipt, executing again publishes without running the signer |
| `Approval.ReportExact` | pipeline/approval_service.py:413-463 | a query reports the receipt's status if and only if files, fingerprints and signature still match |
| `Approval.ChangeAfterCheck` | pipeline/approval_service.py:317-343 | bytes changed after the check are signed and published, and the query then reports nothing |
| `Approval.ExecuteIsSteps` | pipeline/approval_service.py:294-343 | every uninterrupted execution is a sequence of the modelled steps, so the run theorems apply to it |
| `Approval.ApprovalService.WriteOnce` | pipeline/approval_service.py:84-94 | an exclusive create: the receipt is stored exactly when none was there |
| `Approval.ApprovalService.Execute` | pipeline/approval_service.py:294-343 | the method with its early returns ends in the composed steps, and reports the stored or re-validated outcome |
| `MethodScanner.PrefixEnd` | pipeline/bisimulation.py:10 | every prefix match ends just after the first parenthesis at or after its start |
| `MethodScanner.FullAt` | pipeline/bisimulation.py:9-10 | at any position the full match is the prefix match extended to the first closing parenthesis |
| `MethodScanner.PublicSurface` | pipeline/bisimulation.py:13-25 | the single-pass loop returns the leftmost non-overlapping full matches, for every text and every parenthesis-free header |
| `MethodScanner.ShippedSurface` | pipeline/bisimulation.py:9-25 | the same for the shipped expressions |
| `OverflowBounds.FactExact` | pipeline/c_support.py:153-169 | the fact holds exactly when the operation fits an int, for every int and both signs of the literal |
| `OverflowBounds.DeriveFacts` | pipeline/c_support.py:151-170 | the collected facts, without repetition, hold exactly when no listed operation overflows |
| `OverflowBounds.OctalIsSafe` | pipeline/c_support.py:153-169 | for octal literals, which are read as decimal, the fact still excludes overflow |
| `OverflowBounds.SumExactIff` | pipeline/c_support.py:153-161 | for sums and differences it is the weakest condition if and only if both readings agree or every call overflows |
| `OverflowBounds.ProductExactIff` | pipeline/c_support.py:162-169 | for products it is the weakest condition if and only if both quotients of the range agree |
| `OverflowBounds.ClosesIffBlock` | pipeline/c_support.py:196-203 | the first return to depth zero is the closing brace of the nested-block grammar |
| `OverflowBounds.MatchingBrace` | pipeline/c_support.py:196-203 | returns the brace that closes the block, or nothing exactly when the block is never closed |
| `JsonWorklist.CheckStructure` | pipeline/architecture_validation_workflow.py:62-74 | accepts exactly the values within both allowances, never discovers more nodes than allowed, terminates, and gives the right refusal |
| `JsonWorklist.PushChildren` | pipeline/architecture_validation_workflow.py:70-73 | pushes all children in order, or stops only because the whole value has too many nodes |
| `ModelScope.StatesExact` | pipeline/architecture_validation_workflow.py:77-102 | the enumerated states are exactly the assignments within the bounds |
| `ModelScope.ProductCountsStates` | pipeline/architecture_validation_workflow.py:90-94 | the product of the ranges is the number of those states |
| `ModelScope.CheckScope` | pipeline/architecture_validation_workflow.py:77-102 | a size is returned exactly for models that may be flattened and whose state count is within the maximum, and it is that count |

## Left out

- `TaskStore.update` (pipeline/a2a_coordination.py:811-821): an unrestricted write that no modelled call uses and that would void every run invariant.
- The network, the SDK client, agent cards and tokens: the worker is an arbitrary reply, an error or nothing. Heartbeat threads are renewals that may happen at any time.
- Which worker is tried among the candidates: any worker that authorises may be chosen. The order of refusals across several candidates is not modelled.
- Coordinator calls are program counters of a transition system rather than methods, because their meaning is how they interleave; the in-place updates are in the store class. Local variables of a call are fields of its counter.
- Several clock readings inside one locked section are one reading.
- Leases.NoClaimWhileLive: assumes that the host's wall clock has not stepped back, as do `Leases.RenewedDispatchStays` and the commit bound of `Leases.ClaimsSeparated`; nothing else in the coordinator model does.
- Policy edits between calls: one policy serves every coordinator throughout a run. An edited grant has another digest and so a fresh budget account.
- Observations that are not typed events, and the digest texts and canonical encodings of records: digests are arbitrary functions, assumed injective only where a lemma says so.
- `[` classes of file-name patterns: normalised tree scopes hold none.
- Files, locks, fsync and temporary files: a locked section is atomic, and a crash happens between sections. `TaskStoreModel.EmptyDirectoryBlocksCreation` covers the one crash inside a section that outlives it.
- Runs in which a task collects a million events: the protocol runs assume room in every log, and `EventLog.AppendReadBack` says what happens beyond.
- Domain payloads of work items (objective, acceptance plan, deliverables) are one opaque field.
- BankAccount.Linearizable: threads that die outside a critical section are calls that never respond.
- Machine integers of the Java programs: unbounded here, and `TwoPointer.AreasFit` shows that areas fit an int under the shipped precondition; sums of two elements are at most 20000 there.
- Python's recursion limit in the cycle finder.
- YAML, hardware profiles, pool fields, file output and the proofs that follow capacity bounding: the rewrite starts from a parsed candidate and a capacity. Frames, results and failure reports of operations are not part of the machine semantics.
- CapacityBounding.HardwareInvariantsHold: it assumes what the rewrite does not check, namely that initial values fit, that the original keeps the bounds that stay, and that effects on rebounded variables are of sort int and keep them by `CapacityBounding.EffectKeepsIff`, which leaves the other guards of an operation out of account.
- Approval requests are modelled one directory at a time; recording a decision and its signature is one step, as is one run of the signer. Nobody but the modelled steps writes the request, decision, signature or receipt. GPG is a relation between a document, a signature and an identity, and fingerprints are already trimmed and upper case.
- Receipt and request fields that are constants of the service (schemas, policy version, action, time stamps).
- The final `sorted` of the scanner, applied to both sides alike, and the other regular-expression rewriters, whose meaning depends on free text.
- OverflowBounds.DeriveFacts: it starts from the operations the pattern found; whether a fact that occurs somewhere in the contract text is already required by it is not modelled.
- JSON parsing, duplicate keys and non-finite numbers: the worklist starts from the decoded value.
- The small fixed state machines and their C and Java twins: finite state spaces that exhaustive checking settles.
- Assurance gate tables, canonical contract texts, messages, drafting, providers and subprocess wrappers: each claim is settled by reading one branch, or is input and output plumbing.
