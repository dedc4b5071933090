/**
 Dispatch and recovery leases over runs (`begin_dispatch`, `renew_dispatch_lease` and
 `claim_reconciliation` in pipeline/a2a_coordination.py).

 A recovery claim reads the clock before it takes the store lock. Leases therefore separate claims
 by the times they observed, not by the times they committed. What leases promise in terms of the
 current time holds as long as the clock has not stepped back.
 */
module Leases {
  import opened Common
  import opened Records
  import opened Budgets
  import opened Coordinator
  import opened StoreInvariant

  // ---------------------------------------------------------------- the clock

  /** Claims observe times that are not in the future. */
  ghost predicate ClockOk(s: Sys) {
    forall c | c in s.calls && s.calls[c].pc.GetClaim? :: s.calls[c].pc.observedAt <= s.clock
  }

  /** No step before the moment set the clock back. */
  ghost predicate Steady(run: Run, n: nat)
    requires n < |run.states|
  {
    forall k | 0 <= k < n :: run.states[k].clock <= run.states[k + 1].clock
  }

  lemma ClockStep(cfg: Config, s: Sys, a: Action)
    requires ClockOk(s) && Enabled(s, a) && s.clock <= Next(cfg, s, a).clock
    ensures ClockOk(Next(cfg, s, a))
  {
    hide CheckCreate, Authorize, ApplyEvent, BeginDispatch, RenewLease, RequestCancel, ClaimRecovery, Classify, Read;
  }

  lemma {:induction false} RunClockOk(cfg: Config, run: Run, n: nat)
    requires ValidRun(cfg, run) && n < |run.states| && Steady(run, n)
    ensures ClockOk(run.states[n])
  {
    hide Next;
    if n > 0 {
      RunClockOk(cfg, run, n - 1);
      assert StepAt(cfg, run, n - 1);
      assert run.states[n - 1].clock <= run.states[n - 1 + 1].clock;
      ClockStep(cfg, run.states[n - 1], run.actions[n - 1]);
    }
  }

  // ---------------------------------------------------------------- claims

  /** The step is a recovery claim of the task that succeeds. */
  ghost predicate Claims(s: Sys, a: Action, id: string) {
    && a.Advance? && a.c in s.calls && s.calls[a.c].pc.GetClaim? && s.calls[a.c].pc.id == id
    && var pc, call := s.calls[a.c].pc, s.calls[a.c];
    && Read(s.tasks, id, pc.principal).Ok?
    && ClaimRecovery(s.tasks[id], call.owner, call.lease, pc.observedAt).Ok?
    && ClaimRecovery(s.tasks[id], call.owner, call.lease, pc.observedAt).value.1
  }

  /** The step settles a failed submission or reconciliation of the task. */
  ghost predicate FailsTransport(s: Sys, a: Action, id: string) {
    && a.Advance? && a.c in s.calls && s.calls[a.c].pc.Settle? && s.calls[a.c].pc.id == id
    && s.calls[a.c].pc.event.TransportError? && s.calls[a.c].pc.event.rpc != RpcCancel
  }

  /** Events leave the deadlines alone and move the dispatch state in two ways only. */
  lemma EventMoves(r: Record, attempt: Attempt, e: RemoteEvent, now: int)
    ensures var after := ApplyEvent(r, attempt, e, now).0;
            && after.recoveryUntil == r.recoveryUntil && after.leaseUntil == r.leaseUntil
            && (after.dispatch == r.dispatch || after.dispatch == Confirmed ||
                (after.dispatch == Uncertain && e.TransportError? && e.rpc != RpcCancel))
  {
    hide ApplyEvent;
    EventShape(r, attempt, e, now);
  }

  lemma RequestMoves(r: Record, now: int)
    ensures var after := RequestCancel(r, now).0;
            after.dispatch == r.dispatch && after.recoveryUntil == r.recoveryUntil
  {
  }

  lemma RenewMoves(r: Record, attempt: Attempt, owner: string, lease: nat, now: int)
    ensures var after := RenewLease(r, attempt, owner, lease, now).0;
            after.dispatch == r.dispatch && after.recoveryUntil == r.recoveryUntil
  {
  }

  lemma BeginMoves(r: Record, serial: nat, owner: string, lease: nat, now: int)
    ensures r.dispatch != NotStarted ==> BeginDispatch(r, serial, owner, lease, now).0 == r
  {
  }

  lemma ClaimMoves(r: Record, owner: string, lease: nat, observedAt: int)
    ensures var outcome := ClaimRecovery(r, owner, lease, observedAt);
            && (outcome.Ok? && outcome.value.1 ==>
                  && outcome.value.0.dispatch == Recovering
                  && outcome.value.0.recoveryUntil == Some(observedAt + lease)
                  && (r.dispatch == Uncertain
                      || (r.dispatch == InFlight && r.leaseUntil.Some? && r.leaseUntil.value <= observedAt)
                      || (r.dispatch == Recovering && r.recoveryUntil.Some? && r.recoveryUntil.value <= observedAt)))
            && (outcome.Ok? && !outcome.value.1 ==> outcome.value.0 == r)
  {
  }

  /** After a claim with this deadline, until a failed request: recovering until then, or confirmed. */
  ghost predicate Held(r: Record, until: int) {
    (r.dispatch == Recovering && r.recoveryUntil == Some(until)) || r.dispatch == Confirmed
  }

  lemma ClaimTakes(cfg: Config, s: Sys, a: Action, id: string)
    requires TasksOk(cfg, s.tasks) && Enabled(s, a) && Claims(s, a, id)
    ensures id in Next(cfg, s, a).tasks
    ensures Next(cfg, s, a).tasks[id].dispatch == Recovering
    ensures Next(cfg, s, a).tasks[id].recoveryUntil == Some(s.calls[a.c].pc.observedAt + s.calls[a.c].lease)
  {
    hide ClaimRecovery, RecordOk, Granted;
    ClaimMoves(s.tasks[id], s.calls[a.c].owner, s.calls[a.c].lease, s.calls[a.c].pc.observedAt);
  }

  lemma HeldStep(cfg: Config, s: Sys, a: Action, id: string, until: int)
    requires TasksOk(cfg, s.tasks) && Enabled(s, a) && id in s.tasks
    requires Held(s.tasks[id], until) && !Claims(s, a, id) && !FailsTransport(s, a, id)
    ensures id in Next(cfg, s, a).tasks && Held(Next(cfg, s, a).tasks[id], until)
  {
    hide CheckCreate, Authorize, ApplyEvent, BeginDispatch, RenewLease, RequestCancel, ClaimRecovery,
         Classify, AfterReply, AfterNoReply, ForwardCancel, RecordOk, Granted;
    var r := s.tasks[id];
    if a.Advance? {
      var call := s.calls[a.c];
      match call.pc {
        case SubmitBegin(_, _) => BeginMoves(r, s.serial, call.owner, call.lease, s.clock);
        case GetClaim(_, _, observedAt) => ClaimMoves(r, call.owner, call.lease, observedAt);
        case CancelRead(_, _) => RequestMoves(r, s.clock);
        case Settle(_, _, attempt, e, _, _) => EventMoves(r, attempt, e, s.clock);
        case _ =>
      }
    } else if a.Renew? {
      RenewMoves(r, a.attempt, a.owner, a.lease, s.clock);
    }
  }

  /** Between a claim and the next moment, with no claim or failed request of the task in between. */
  ghost predicate Undisturbed(run: Run, i: nat, j: nat, id: string)
    requires i <= j <= |run.actions| < |run.states|
  {
    forall k | i < k < j ::
        !Claims(run.states[k], run.actions[k], id) && !FailsTransport(run.states[k], run.actions[k], id)
  }

  lemma {:induction false} HeldThrough(cfg: Config, run: Run, i: nat, j: nat, id: string)
    requires ValidRun(cfg, run) && i < j <= |run.actions|
    requires Claims(run.states[i], run.actions[i], id) && Undisturbed(run, i, j, id)
    ensures id in run.states[j].tasks
    ensures Held(run.states[j].tasks[id], DeadlineOf(run, i, id))
    decreases j
  {
    hide Next, Held, RecordOk, Granted, Claims, FailsTransport;
    var until := DeadlineOf(run, i, id);
    RunStoreOk(cfg, run, j - 1);
    assert StepAt(cfg, run, j - 1);
    if j == i + 1 {
      ClaimTakes(cfg, run.states[i], run.actions[i], id);
      TakenIsHeld(run.states[j].tasks[id], until);
    } else {
      HeldThrough(cfg, run, i, j - 1, id);
      HeldStep(cfg, run.states[j - 1], run.actions[j - 1], id, until);
    }
  }

  ghost function DeadlineOf(run: Run, i: nat, id: string): int
    requires i < |run.actions| < |run.states| && Claims(run.states[i], run.actions[i], id)
  {
    run.states[i].calls[run.actions[i].c].pc.observedAt + run.states[i].calls[run.actions[i].c].lease
  }

  lemma TakenIsHeld(r: Record, until: int)
    requires r.dispatch == Recovering && r.recoveryUntil == Some(until)
    ensures Held(r, until)
  {
  }

  ghost function ObservedAt(run: Run, i: nat, id: string): int
    requires i < |run.actions| < |run.states| && Claims(run.states[i], run.actions[i], id)
  {
    run.states[i].calls[run.actions[i].c].pc.observedAt
  }

  ghost function LeaseOf(run: Run, i: nat, id: string): nat
    requires i < |run.actions| < |run.states| && Claims(run.states[i], run.actions[i], id)
  {
    run.states[i].calls[run.actions[i].c].lease
  }

  /**
   Two consecutive successful claims of a task, with no failed submission or reconciliation settled
   in between, observed times at least the first claim's lease apart. On a steady clock their commits
   are apart by the lease less the time the first claim waited for the lock.
   */
  lemma ClaimsSeparated(cfg: Config, run: Run, i: nat, j: nat, id: string)
    requires ValidRun(cfg, run) && i < j < |run.actions|
    requires Claims(run.states[i], run.actions[i], id) && Claims(run.states[j], run.actions[j], id)
    requires Undisturbed(run, i, j, id)
    ensures ObservedAt(run, j, id) >= ObservedAt(run, i, id) + LeaseOf(run, i, id)
    ensures Steady(run, j) ==>
              run.states[j].clock - run.states[i].clock
              >= LeaseOf(run, i, id) - (run.states[i].clock - ObservedAt(run, i, id))
  {
    hide Next, StoreOk, ClaimRecovery;
    HeldThrough(cfg, run, i, j, id);
    if Steady(run, j) { RunClockOk(cfg, run, j); }
    var s, a := run.states[j], run.actions[j];
    ClaimMoves(s.tasks[id], s.calls[a.c].owner, s.calls[a.c].lease, s.calls[a.c].pc.observedAt);
  }

  /**
   The bound on commits is tight for every wait: after a claim that waited for the lock, another claim
   succeeds at the earliest moment the bound allows, at once if the wait used up the whole lease.
   */
  lemma LateCommitUnprotected(r: Record, first: string, second: string, lease: nat, observedAt: int, commit: int)
    requires r.dispatch == Uncertain && !Terminal(r.state) && !Truthy(r.remoteId) && observedAt <= commit
    ensures ClaimRecovery(r, first, lease, observedAt).Ok? && ClaimRecovery(r, first, lease, observedAt).value.1
    ensures var claimed := ClaimRecovery(r, first, lease, observedAt).value.0;
            var wait := commit - observedAt;
            var next := commit + if wait >= lease then 0 else lease - wait;
            && ClaimRecovery(claimed, second, lease, next).Ok? && ClaimRecovery(claimed, second, lease, next).value.1
            && forall t | commit <= t < next :: !ClaimRecovery(claimed, second, lease, t).value.1
  {
  }

  /** A recovery claim of a waiting attempt succeeds exactly when its own lease field has run out. */
  lemma ClaimExactlyWhenExpired(r: Record, owner: string, lease: nat, observedAt: int)
    requires RecordOk(r) && !Terminal(r.state) && !Truthy(r.remoteId)
    ensures ClaimRecovery(r, owner, lease, observedAt).Ok?
    ensures ClaimRecovery(r, owner, lease, observedAt).value.1 <==>
            || r.dispatch == Uncertain
            || (r.dispatch == InFlight && r.leaseUntil.value <= observedAt)
            || (r.dispatch == Recovering && r.recoveryUntil.value <= observedAt)
  {
    hide ValidItem, DiagnosticsOk;
  }

  // ---------------------------------------------------------------- live dispatches

  /** An in-flight dispatch whose lease has not run out at this state's clock. */
  ghost predicate LiveDispatch(s: Sys, id: string) {
    && id in s.tasks && s.tasks[id].dispatch == InFlight
    && s.tasks[id].leaseUntil.Some? && s.clock < s.tasks[id].leaseUntil.value
  }

  /** While a dispatch keeps an unexpired lease and the clock is steady, no recovery claim succeeds. */
  lemma NoClaimWhileLive(cfg: Config, run: Run, n: nat, id: string)
    requires ValidRun(cfg, run) && n < |run.actions| && Steady(run, n) && LiveDispatch(run.states[n], id)
    ensures !Claims(run.states[n], run.actions[n], id)
  {
    hide Next, ClaimRecovery;
    RunClockOk(cfg, run, n);
    var s, a := run.states[n], run.actions[n];
    if a.Advance? && a.c in s.calls && s.calls[a.c].pc.GetClaim? {
      ClaimMoves(s.tasks[id], s.calls[a.c].owner, s.calls[a.c].lease, s.calls[a.c].pc.observedAt);
    }
  }

  /**
   Exactly when a claim takes a live dispatch: its clock reading, taken before the clock stepped back,
   is past the lease, and the task is neither finished nor known to the worker.
   */
  lemma LiveClaimIff(cfg: Config, s: Sys, c: nat, id: string)
    requires TasksOk(cfg, s.tasks) && LiveDispatch(s, id)
    requires c in s.calls && s.calls[c].pc.GetClaim? && s.calls[c].pc.id == id
    requires Read(s.tasks, id, s.calls[c].pc.principal).Ok?
    ensures Claims(s, Advance(c), id) <==>
            && s.tasks[id].leaseUntil.value <= s.calls[c].pc.observedAt
            && !Terminal(s.tasks[id].state) && !Truthy(s.tasks[id].remoteId)
    ensures Claims(s, Advance(c), id) ==> s.clock < s.calls[c].pc.observedAt
  {
    hide RecordOk, Granted;
  }

  /** The step settles something about the task. */
  ghost predicate SettlesTask(s: Sys, a: Action, id: string) {
    a.Advance? && a.c in s.calls && s.calls[a.c].pc.Settle? && s.calls[a.c].pc.id == id
  }

  lemma InFlightStep(cfg: Config, s: Sys, a: Action, id: string)
    requires TasksOk(cfg, s.tasks) && Enabled(s, a) && id in s.tasks
    requires s.tasks[id].dispatch == InFlight && !Claims(s, a, id) && !SettlesTask(s, a, id)
    ensures id in Next(cfg, s, a).tasks && Next(cfg, s, a).tasks[id].dispatch == InFlight
    ensures Next(cfg, s, a).tasks[id].attempt == s.tasks[id].attempt
    ensures Next(cfg, s, a).tasks[id].owner == s.tasks[id].owner
  {
    hide CheckCreate, Authorize, ApplyEvent, BeginDispatch, RenewLease, RequestCancel, ClaimRecovery,
         Classify, AfterReply, AfterNoReply, ForwardCancel, RecordOk, Granted;
    var r := s.tasks[id];
    if a.Advance? {
      var call := s.calls[a.c];
      match call.pc {
        case SubmitBegin(_, _) => BeginMoves(r, s.serial, call.owner, call.lease, s.clock);
        case GetClaim(_, _, observedAt) => ClaimMoves(r, call.owner, call.lease, observedAt);
        case CancelRead(_, _) => CancelKeepsOwner(r, s.clock);
        case _ =>
      }
    } else if a.Renew? {
      RenewKeepsOwner(r, a.attempt, a.owner, a.lease, s.clock);
    }
  }

  lemma CancelKeepsOwner(r: Record, now: int)
    ensures var after := RequestCancel(r, now).0;
            after.dispatch == r.dispatch && after.attempt == r.attempt && after.owner == r.owner
  {
  }

  lemma RenewKeepsOwner(r: Record, attempt: Attempt, owner: string, lease: nat, now: int)
    ensures var after := RenewLease(r, attempt, owner, lease, now).0;
            after.dispatch == r.dispatch && after.attempt == r.attempt && after.owner == r.owner
  {
  }

  /**
   Lease exclusion: as long as renewals keep the lease ahead of the clock and no answer is settled,
   the dispatch stays in flight under the same attempt and owner, whatever else happens.
   */
  lemma {:induction false} RenewedDispatchStays(cfg: Config, run: Run, i: nat, j: nat, id: string)
    requires ValidRun(cfg, run) && i <= j <= |run.actions|
    requires id in run.states[i].tasks && run.states[i].tasks[id].dispatch == InFlight
    requires forall k | i <= k < j :: LiveDispatch(run.states[k], id) && !SettlesTask(run.states[k], run.actions[k], id)
    requires j > 0 ==> Steady(run, j - 1)
    ensures id in run.states[j].tasks && run.states[j].tasks[id].dispatch == InFlight
    ensures run.states[j].tasks[id].attempt == run.states[i].tasks[id].attempt
    ensures run.states[j].tasks[id].owner == run.states[i].tasks[id].owner
    decreases j - i
  {
    hide Next, RecordOk, Granted, Claims;
    if i < j {
      RenewedDispatchStays(cfg, run, i, j - 1, id);
      RunStoreOk(cfg, run, j - 1);
      NoClaimWhileLive(cfg, run, j - 1, id);
      assert StepAt(cfg, run, j - 1);
      InFlightStep(cfg, run.states[j - 1], run.actions[j - 1], id);
    }
  }

  /** After a successful claim nobody renews the dispatch lease again, in the rest of the run. */
  lemma NoRenewalAfterClaim(cfg: Config, run: Run, i: nat, j: nat, id: string, attempt: Attempt, owner: string)
    requires ValidRun(cfg, run) && i < j < |run.states| && Claims(run.states[i], run.actions[i], id)
    ensures id in run.states[j].tasks && !OwnsDispatch(run.states[j].tasks[id], attempt, owner)
  {
    hide Next, RecordOk, Granted, ClaimRecovery;
    RunStoreOk(cfg, run, i);
    assert StepAt(cfg, run, i);
    ClaimTakes(cfg, run.states[i], run.actions[i], id);
    RecordsOnlyAdvance(cfg, run, i + 1, j);
    assert Advances(run.states[i + 1].tasks[id], run.states[j].tasks[id]);
  }

  // ---------------------------------------------------------------- how long a dispatch is protected

  /** The step claims the task's dispatch: its call is about to send. */
  ghost predicate Dispatches(cfg: Config, s: Sys, a: Action, id: string) {
    && a.Advance? && Enabled(s, a) && s.calls[a.c].pc.SubmitBegin? && s.calls[a.c].pc.item.id == id
    && a.c in Next(cfg, s, a).calls && Next(cfg, s, a).calls[a.c].pc.SubmitSend?
  }

  /** The step renews the dispatch lease for its owner. */
  ghost predicate Renews(s: Sys, a: Action, id: string) {
    a.Renew? && a.id == id && Read(s.tasks, id, a.principal).Ok? && OwnsDispatch(s.tasks[id], a.attempt, a.owner)
  }

  /** The time until which the step protects the dispatch: its clock plus the lease asked for. */
  ghost function ProtectedUntil(cfg: Config, s: Sys, a: Action, id: string): int
    requires Dispatches(cfg, s, a, id) || Renews(s, a, id)
  {
    s.clock + if a.Renew? then a.lease else s.calls[a.c].lease
  }

  /** In flight until exactly then, or taken over by a claim that itself lasts at least until then. */
  ghost predicate Protected(r: Record, until: int) {
    || (r.dispatch == InFlight && r.leaseUntil == Some(until))
    || (r.dispatch == Recovering && r.recoveryUntil.Some? && r.recoveryUntil.value >= until)
  }

  lemma ProtectionStarts(cfg: Config, s: Sys, a: Action, id: string)
    requires TasksOk(cfg, s.tasks) && Enabled(s, a) && (Dispatches(cfg, s, a, id) || Renews(s, a, id))
    ensures id in Next(cfg, s, a).tasks && Next(cfg, s, a).tasks[id].dispatch == InFlight
    ensures Next(cfg, s, a).tasks[id].leaseUntil == Some(ProtectedUntil(cfg, s, a, id))
  {
    hide RecordOk, Granted, StepSubmitRead, StepCreate, StepSubmitSend, StepGetRead, StepClaim, StepCancelRead,
        StepSettle;
  }

  lemma ClaimProtects(r: Record, owner: string, lease: nat, observedAt: int, until: int)
    requires Protected(r, until)
    ensures var claim := ClaimRecovery(r, owner, lease, observedAt);
            && (claim.Ok? ==> Protected(claim.value.0, until))
            && (claim.Ok? && claim.value.1 ==> observedAt >= until)
            && (claim.Ok? && claim.value.1 ==> claim.value.0.dispatch == Recovering)
  {
    ClaimMoves(r, owner, lease, observedAt);
    hide ClaimRecovery;
  }

  lemma ProtectedStep(cfg: Config, s: Sys, a: Action, id: string, until: int)
    requires TasksOk(cfg, s.tasks) && Enabled(s, a) && id in s.tasks
    requires Protected(s.tasks[id], until) && !SettlesTask(s, a, id) && !Renews(s, a, id)
    ensures id in Next(cfg, s, a).tasks && Protected(Next(cfg, s, a).tasks[id], until)
    ensures !Claims(s, a, id) ==> Next(cfg, s, a).tasks[id].dispatch == s.tasks[id].dispatch
    ensures !Claims(s, a, id) ==> Next(cfg, s, a).tasks[id].leaseUntil == s.tasks[id].leaseUntil
  {
    hide CheckCreate, Authorize, ApplyEvent, BeginDispatch, RenewLease, RequestCancel, ClaimRecovery,
         Classify, AfterReply, AfterNoReply, ForwardCancel, RecordOk, Granted;
    var r := s.tasks[id];
    if a.Advance? {
      var call := s.calls[a.c];
      match call.pc {
        case SubmitBegin(_, _) => BeginMoves(r, s.serial, call.owner, call.lease, s.clock);
        case GetClaim(_, _, observedAt) =>
          ClaimProtects(r, call.owner, call.lease, observedAt, until);
          ClaimMoves(r, call.owner, call.lease, observedAt);
        case CancelRead(_, _) => RequestKeepsLeases(r, s.clock);
        case _ =>
      }
    } else if a.Renew? && a.id == id && Read(s.tasks, id, a.principal).Ok? {
      NoRenewal(r, a.attempt, a.owner, a.lease, s.clock);
    }
  }

  lemma RequestKeepsLeases(r: Record, now: int)
    ensures var after := RequestCancel(r, now).0;
            after.dispatch == r.dispatch && after.recoveryUntil == r.recoveryUntil && after.leaseUntil == r.leaseUntil
  {
  }

  lemma NoRenewal(r: Record, attempt: Attempt, owner: string, lease: nat, now: int)
    requires !OwnsDispatch(r, attempt, owner)
    ensures RenewLease(r, attempt, owner, lease, now).0 == r
  {
  }

  /** Nothing settles the task and nobody renews its dispatch in between. */
  ghost predicate LeftAlone(run: Run, i: nat, j: nat, id: string)
    requires i <= j <= |run.actions| < |run.states|
  {
    forall k | i < k < j ::
        !SettlesTask(run.states[k], run.actions[k], id) && !Renews(run.states[k], run.actions[k], id)
  }

  ghost predicate NoClaim(run: Run, i: nat, j: nat, id: string)
    requires i <= j <= |run.actions| < |run.states|
  {
    forall k | i < k < j :: !Claims(run.states[k], run.actions[k], id)
  }

  lemma {:induction false} ProtectedThrough(cfg: Config, run: Run, i: nat, j: nat, id: string)
    requires ValidRun(cfg, run) && i < j <= |run.actions| && LeftAlone(run, i, j, id)
    requires Dispatches(cfg, run.states[i], run.actions[i], id) || Renews(run.states[i], run.actions[i], id)
    ensures var until := ProtectedUntil(cfg, run.states[i], run.actions[i], id);
            && id in run.states[j].tasks && Protected(run.states[j].tasks[id], until)
            && (NoClaim(run, i, j, id) ==>
                  run.states[j].tasks[id].dispatch == InFlight && run.states[j].tasks[id].leaseUntil == Some(until))
    decreases j
  {
    hide Next, TasksOk, CallsOk, OrderOk, ChildOk, Claims, Dispatches, Renews, SettlesTask;
    RunStoreOk(cfg, run, j - 1);
    assert StepAt(cfg, run, j - 1);
    if j == i + 1 {
      ProtectionStarts(cfg, run.states[i], run.actions[i], id);
    } else {
      ProtectedThrough(cfg, run, i, j - 1, id);
      ProtectedStep(cfg, run.states[j - 1], run.actions[j - 1], id,
          ProtectedUntil(cfg, run.states[i], run.actions[i], id));
    }
  }

  /**
   A dispatch is protected for its whole lease: after it was claimed, or last renewed, at some time with
   some lease, and as long as nothing settles the task, no recovery claim succeeds that observed less
   than that time plus that lease; on a steady clock none commits before then either.
   */
  lemma DispatchLeaseHolds(cfg: Config, run: Run, i: nat, j: nat, id: string)
    requires ValidRun(cfg, run) && i < j < |run.actions| && LeftAlone(run, i, j, id)
    requires Dispatches(cfg, run.states[i], run.actions[i], id) || Renews(run.states[i], run.actions[i], id)
    requires Claims(run.states[j], run.actions[j], id)
    ensures ObservedAt(run, j, id) >= ProtectedUntil(cfg, run.states[i], run.actions[i], id)
    ensures Steady(run, j) ==> run.states[j].clock >= ProtectedUntil(cfg, run.states[i], run.actions[i], id)
  {
    hide Next, StoreOk, ClaimRecovery, Dispatches, Renews;
    ProtectedThrough(cfg, run, i, j, id);
    if Steady(run, j) { RunClockOk(cfg, run, j); }
    var s, a := run.states[j], run.actions[j];
    ClaimProtects(s.tasks[id], s.calls[a.c].owner, s.calls[a.c].lease, s.calls[a.c].pc.observedAt,
                  ProtectedUntil(cfg, run.states[i], run.actions[i], id));
  }

  /** And for no longer: the first claim attempt succeeds exactly when it observed at least that time. */
  lemma DispatchLeaseIff(cfg: Config, run: Run, i: nat, j: nat, id: string)
    requires ValidRun(cfg, run) && i < j < |run.actions| && LeftAlone(run, i, j, id) && NoClaim(run, i, j, id)
    requires Dispatches(cfg, run.states[i], run.actions[i], id) || Renews(run.states[i], run.actions[i], id)
    requires run.actions[j].Advance? && run.actions[j].c in run.states[j].calls
    requires var pc := run.states[j].calls[run.actions[j].c].pc;
             pc.GetClaim? && pc.id == id && Read(run.states[j].tasks, id, pc.principal).Ok?
    ensures Claims(run.states[j], run.actions[j], id) <==>
            run.states[j].calls[run.actions[j].c].pc.observedAt >= ProtectedUntil(cfg, run.states[i], run.actions[i],
                id)
  {
    hide Next, CallsOk, OrderOk, ChildOk, Dispatches, Renews, Granted, ValidItem, DiagnosticsOk;
    ProtectedThrough(cfg, run, i, j, id);
    RunStoreOk(cfg, run, j);
    assert RecordOk(run.states[j].tasks[id]);
  }

  /** Who may renew a dispatch: the owner of this very attempt, for its principal, while it is live and in flight. */
  ghost predicate MayRenew(s: Sys, a: Action)
    requires a.Renew?
  {
    && a.id in s.tasks
    && var r := s.tasks[a.id];
    && r.principal == a.principal && !Terminal(r.state) && r.dispatch == InFlight
    && r.attempt == Some(a.attempt) && r.owner == Some(a.owner)
  }

  lemma RenewalExact(r: Record, attempt: Attempt, owner: string, lease: nat, now: int)
    ensures var (after, renewed) := RenewLease(r, attempt, owner, lease, now);
            && (renewed <==> !Terminal(r.state) && r.dispatch == InFlight && r.attempt == Some(attempt)
                             && r.owner == Some(owner))
            && after == if renewed then r.(leaseUntil := Some(now + lease), updatedAt := now) else r
  {
  }

  /** A renewal extends the deadline to a lease from now exactly for such an owner; anybody else's changes nothing. */
  lemma RenewalByOwnerOnly(cfg: Config, run: Run, n: nat)
    requires ValidRun(cfg, run) && n < |run.actions| && run.actions[n].Renew?
    ensures var s, a, t := run.states[n], run.actions[n], run.states[n + 1];
            && t == s.(tasks := t.tasks)
            && (MayRenew(s, a) ==>
                  t.tasks == s.tasks[a.id := s.tasks[a.id].(leaseUntil := Some(s.clock + a.lease),
                                                            updatedAt := s.clock)])
            && (!MayRenew(s, a) ==> t.tasks == s.tasks)
  {
    assert StepAt(cfg, run, n);
    var s, a := run.states[n], run.actions[n];
    if a.id in s.tasks { RenewalExact(s.tasks[a.id], a.attempt, a.owner, a.lease, s.clock); }
    hide ValidRun, RenewLease, Terminal;
  }
}
