/**
 What every step of the coordinator keeps about the stored records, and what every run keeps about
 one task: bindings are immutable, terminal outcomes absorb, attempts are written once, and worker
 completion is never acceptance.
 */
module StoreInvariant {
  import opened Common
  import opened Scopes
  import opened Records
  import opened Budgets
  import opened Coordinator

  // ---------------------------------------------------------------- records

  ghost predicate RecordOk(r: Record) {
    && ValidItem(r.item)
    && r.acceptance == PENDING_ACCEPTANCE
    && DiagnosticsOk(r)
    && (r.dispatch == NotStarted ==>
          && r.attempt.None? && r.remoteId.None? && r.result.None?
          && r.state == (if r.cancelRequested then Cancelled else Queued))
    && (r.dispatch != NotStarted ==> r.attempt.Some?)
    && (Terminal(r.state) ==> r.dispatch == NotStarted || r.dispatch == Confirmed)
    && (r.cancelRequested <==> r.cancelRequestedAt.Some?)
    && (r.cancelRequested ==> r.cancelStatus != NotRequested)
    && (r.cancelStatus == RemoteTerminal ==> r.cancelRequested && Terminal(r.state))
    && (r.cancelStatus == ConfirmedLocal <==> r.dispatch == NotStarted && r.cancelRequested)
    && (r.dispatch == InFlight ==> r.leaseUntil.Some? && r.remoteId.None?)
    && (r.dispatch == Recovering ==> r.recoveryUntil.Some?)
  }

  /** The policy facts a record was admitted under. */
  ghost predicate Granted(cfg: Config, r: Record) {
    && r.item.authorityRef in cfg.authorities && r.worker in cfg.workers
    && var grant := cfg.authorities[r.item.authorityRef];
       var profile := cfg.workers[r.worker];
    && grant.principal == r.principal && grant.root == cfg.root && r.worker in grant.workers
    && r.item.workflow in grant.workflows && r.item.workflow in profile.workflows
    && r.item.effects <= grant.effects && r.item.effects <= profile.effects
    && ScopesCovered(r.item.allowed, grant.allowed) && ScopesCovered(r.item.allowed, profile.allowed)
    && WithinCeilings(r.item.budget, grant.maxBudget, profile.maxBudget)
    && (grant.expiresAt.Some? ==> r.createdAt < grant.expiresAt.value)
    && r.request == cfg.requestDigest(r.item) && r.authority == cfg.grantDigest(grant)
  }

  ghost predicate Fresh(r: Record) {
    r.dispatch == NotStarted && r.state == Queued && !r.cancelRequested
  }

  lemma BeginKeeps(r: Record, serial: nat, owner: string, lease: nat, now: int)
    requires RecordOk(r)
    ensures RecordOk(BeginDispatch(r, serial, owner, lease, now).0)
    ensures Advances(r, BeginDispatch(r, serial, owner, lease, now).0)
  {
  }

  lemma RenewKeeps(r: Record, attempt: Attempt, owner: string, lease: nat, now: int)
    requires RecordOk(r)
    ensures RecordOk(RenewLease(r, attempt, owner, lease, now).0)
    ensures Advances(r, RenewLease(r, attempt, owner, lease, now).0)
  {
  }

  lemma ClaimKeeps(r: Record, owner: string, lease: nat, observedAt: int)
    requires RecordOk(r)
    ensures ClaimRecovery(r, owner, lease, observedAt).Ok?
    ensures RecordOk(ClaimRecovery(r, owner, lease, observedAt).value.0)
    ensures Advances(r, ClaimRecovery(r, owner, lease, observedAt).value.0)
  {
    ClaimedKeeps(r, owner, lease, observedAt);
    StandsStill(r);
    hide Claimed, ValidItem, DiagnosticsOk, Advances;
  }

  lemma ClaimedKeeps(r: Record, owner: string, lease: nat, observedAt: int)
    requires RecordOk(r)
    ensures !Terminal(r.state) && r.dispatch != NotStarted ==> RecordOk(Claimed(r, owner, lease, observedAt))
    ensures !Terminal(r.state) ==> Advances(r, Claimed(r, owner, lease, observedAt))
  {
    hide ValidItem;
  }

  lemma StandsStill(r: Record)
    ensures Advances(r, r)
  {
  }

  lemma CancelKeeps(r: Record, now: int)
    requires RecordOk(r)
    ensures RecordOk(RequestCancel(r, now).0) && Advances(r, RequestCancel(r, now).0)
  {
  }

  lemma EventKeeps(r: Record, attempt: Attempt, e: RemoteEvent, now: int)
    requires RecordOk(r)
    ensures RecordOk(ApplyEvent(r, attempt, e, now).0) && Advances(r, ApplyEvent(r, attempt, e, now).0)
  {
    EventsAdvance(r, attempt, e, now);
    AddedKeeps(r, StaleDispatchAttempt, "", now);
    AddedKeeps(r, RemoteTaskIdConflict, "", now);
    LateEventKeeps(r, e, now);
    if r.attempt == Some(attempt) && !Terminal(r.state) { LiveEventKeeps(r, e, now); }
    hide ValidItem, DiagnosticsOk, Advances, AddDiagnostic, LateEvent, AfterProtocolError, AfterTransportError,
         AfterObservation, RecordOk;
  }

  lemma AddedKeeps(r: Record, code: Code, message: string, now: int)
    requires RecordOk(r)
    ensures forall consistent ::
              RecordOk(AddDiagnostic(r, code, message, now).(consistent := consistent, updatedAt := now))
    ensures RecordOk(AddDiagnostic(r, code, message, now).(updatedAt := now))
  {
    hide ValidItem;
  }

  lemma LateEventKeeps(r: Record, e: RemoteEvent, now: int)
    requires RecordOk(r)
    ensures RecordOk(LateEvent(r, e, now).0)
  {
    AddedKeeps(r, TerminalStateConflict, "", now);
    AddedKeeps(r, StaleRemoteObservation, "", now);
    AddedKeeps(r, LateProtocolError, "", now);
    AddedKeeps(r, LateTransportError, "", now);
    hide RecordOk, AddDiagnostic;
  }

  lemma LiveEventKeeps(r: Record, e: RemoteEvent, now: int)
    requires RecordOk(r) && !Terminal(r.state) && r.attempt.Some?
    ensures e.Observation? ==> RecordOk(AfterObservation(r, e, now))
    ensures e.ProtocolError? ==> RecordOk(AfterProtocolError(r, e, now))
    ensures e.TransportError? ==> RecordOk(AfterTransportError(r, e, now))
  {
    AddedIsCounted(now);
    hide ValidItem, Min;
  }

  // ---------------------------------------------------------------- the store

  ghost predicate TasksOk(cfg: Config, tasks: Tasks) {
    forall id | id in tasks :: tasks[id].item.id == id && RecordOk(tasks[id]) && Granted(cfg, tasks[id])
  }

  /** The guarded scopes of a stored parent are among those of the item. */
  ghost predicate InheritsGuards(tasks: Tasks, item: WorkItem) {
    item.parent.Some? ==>
      item.parent.value in tasks && tasks[item.parent.value].item.guarded <= item.guarded
  }

  ghost predicate PcOk(cfg: Config, tasks: Tasks, pc: Pc) {
    match pc
    case SubmitRead(item, _) => ValidItem(item)
    case SubmitAuthorize(item, _) => ValidItem(item) && InheritsGuards(tasks, item)
    case SubmitCreate(r, ceiling) =>
      && RecordOk(r) && Fresh(r) && Granted(cfg, r) && InheritsGuards(tasks, r.item)
      && ceiling == AggregateCeiling(cfg.authorities[r.item.authorityRef], cfg.workers[r.worker])
    case _ => true
  }

  ghost predicate CallsOk(cfg: Config, s: Sys) {
    forall c | c in s.calls :: PcOk(cfg, s.tasks, s.calls[c].pc)
  }

  /** A child only narrows its stored parent. */
  ghost predicate ChildOk(tasks: Tasks, item: WorkItem) {
    item.parent.Some? ==>
      item.parent.value in tasks && WithinParent(item, tasks[item.parent.value].item) && InheritsGuards(tasks, item)
  }

  /** Tasks are created once each, parents before children. */
  ghost predicate OrderOk(s: Sys) {
    && (forall i, j | 0 <= i < j < |s.history.created| :: s.history.created[i] != s.history.created[j])
    && (forall id :: id in s.history.created <==> id in s.tasks)
    && (forall i | 0 <= i < |s.history.created| ::
          var id := s.history.created[i];
          id in s.tasks && (s.tasks[id].item.parent.Some? ==> s.tasks[id].item.parent.value in s.history.created[..i]))
  }

  ghost predicate StoreOk(cfg: Config, s: Sys) {
    && TasksOk(cfg, s.tasks) && CallsOk(cfg, s) && OrderOk(s)
    && forall id | id in s.tasks :: ChildOk(s.tasks, s.tasks[id].item)
  }

  /** The step stores a new task. */
  ghost predicate Creates(s: Sys, a: Action) {
    && a.Advance? && a.c in s.calls && s.calls[a.c].pc.SubmitCreate?
    && var pc := s.calls[a.c].pc;
       pc.record.item.id !in s.tasks && CheckCreate(s.tasks, pc.record, pc.ceiling).Ok?
  }

  /** Every stored record stays and only advances. */
  ghost predicate Grows(before: Tasks, after: Tasks) {
    forall id | id in before :: id in after && Advances(before[id], after[id])
  }

  lemma GrowsReflexive(tasks: Tasks)
    ensures Grows(tasks, tasks)
  {
  }

  lemma GrowsTransitive(a: Tasks, b: Tasks, c: Tasks)
    requires Grows(a, b) && Grows(b, c)
    ensures Grows(a, c)
  {
    forall id | id in a ensures id in c && Advances(a[id], c[id]) {
      AdvancesTransitive(a[id], b[id], c[id]);
    }
  }

  ghost predicate TasksKept(cfg: Config, before: Tasks, after: Tasks) {
    TasksOk(cfg, after) && Grows(before, after) && after.Keys == before.Keys
  }

  lemma UpdateOne(cfg: Config, tasks: Tasks, id: string, r: Record)
    requires TasksOk(cfg, tasks) && id in tasks && Advances(tasks[id], r) && RecordOk(r)
    ensures TasksKept(cfg, tasks, tasks[id := r])
  {
  }

  lemma SettleKeeps(cfg: Config, s: Sys, c: nat)
    requires StoreOk(cfg, s) && c in s.calls && s.calls[c].pc.Settle?
    ensures var t := StepAdvance(s, c);
            TasksKept(cfg, s.tasks, t.tasks) && t.history.created == s.history.created
  {
    hide ApplyEvent, ForwardCancel, Advances, RecordOk, Granted, ChildOk, PcOk, OrderOk;
    GrowsReflexive(s.tasks);
    var pc := s.calls[c].pc;
    if Read(s.tasks, pc.id, pc.principal).Ok? {
      EventKeeps(s.tasks[pc.id], pc.attempt, pc.event, s.clock);
      UpdateOne(cfg, s.tasks, pc.id, ApplyEvent(s.tasks[pc.id], pc.attempt, pc.event, s.clock).0);
    }
  }

  lemma BeginStepKeeps(cfg: Config, s: Sys, c: nat)
    requires StoreOk(cfg, s) && c in s.calls && s.calls[c].pc.SubmitBegin?
    ensures var t := StepAdvance(s, c);
            TasksKept(cfg, s.tasks, t.tasks) && t.history.created == s.history.created
  {
    hide BeginDispatch, Advances, RecordOk, Granted, ChildOk, PcOk, OrderOk;
    GrowsReflexive(s.tasks);
    var pc := s.calls[c].pc;
    if Read(s.tasks, pc.item.id, pc.principal).Ok? {
      BeginKeeps(s.tasks[pc.item.id], s.serial, s.calls[c].owner, s.calls[c].lease, s.clock);
      UpdateOne(cfg, s.tasks, pc.item.id,
                BeginDispatch(s.tasks[pc.item.id], s.serial, s.calls[c].owner, s.calls[c].lease, s.clock).0);
    }
  }

  lemma ClaimStepKeeps(cfg: Config, s: Sys, c: nat)
    requires StoreOk(cfg, s) && c in s.calls && s.calls[c].pc.GetClaim?
    ensures var t := StepAdvance(s, c);
            TasksKept(cfg, s.tasks, t.tasks) && t.history.created == s.history.created
  {
    hide ClaimRecovery, Advances, RecordOk, Granted, ChildOk, PcOk, OrderOk;
    GrowsReflexive(s.tasks);
    var pc := s.calls[c].pc;
    if Read(s.tasks, pc.id, pc.principal).Ok? {
      ClaimKeeps(s.tasks[pc.id], s.calls[c].owner, s.calls[c].lease, pc.observedAt);
      UpdateOne(cfg, s.tasks, pc.id,
                ClaimRecovery(s.tasks[pc.id], s.calls[c].owner, s.calls[c].lease, pc.observedAt).value.0);
    }
  }

  lemma CancelStepKeeps(cfg: Config, s: Sys, c: nat)
    requires StoreOk(cfg, s) && c in s.calls && s.calls[c].pc.CancelRead?
    ensures var t := StepAdvance(s, c);
            TasksKept(cfg, s.tasks, t.tasks) && t.history.created == s.history.created
  {
    hide RequestCancel, ForwardCancel, Advances, RecordOk, Granted, ChildOk, PcOk, OrderOk;
    GrowsReflexive(s.tasks);
    var pc := s.calls[c].pc;
    if Read(s.tasks, pc.id, pc.principal).Ok? {
      CancelKeeps(s.tasks[pc.id], s.clock);
      UpdateOne(cfg, s.tasks, pc.id, RequestCancel(s.tasks[pc.id], s.clock).0);
    }
  }

  lemma RenewStepKeeps(cfg: Config, s: Sys, a: Action)
    requires StoreOk(cfg, s) && a.Renew?
    ensures var t := Next(cfg, s, a);
            TasksKept(cfg, s.tasks, t.tasks) && t.history.created == s.history.created
  {
    hide RenewLease, Advances, RecordOk, Granted, ChildOk, PcOk, OrderOk;
    GrowsReflexive(s.tasks);
    if Read(s.tasks, a.id, a.principal).Ok? {
      RenewKeeps(s.tasks[a.id], a.attempt, a.owner, a.lease, s.clock);
      UpdateOne(cfg, s.tasks, a.id, RenewLease(s.tasks[a.id], a.attempt, a.owner, a.lease, s.clock).0);
    }
  }

  /** The steps that touch a stored record. */
  ghost predicate Touches(s: Sys, a: Action) {
    || a.Renew?
    || (a.Advance? && a.c in s.calls &&
        var pc := s.calls[a.c].pc; pc.SubmitBegin? || pc.GetClaim? || pc.CancelRead? || pc.Settle? || pc.SubmitCreate?)
  }

  lemma QuietStep(cfg: Config, s: Sys, a: Action)
    requires Enabled(s, a) && !Touches(s, a)
    ensures Next(cfg, s, a).tasks == s.tasks && Next(cfg, s, a).history.created == s.history.created
  {
    hide Read, Authorize, ForwardCancel, AfterReply, AfterNoReply, AttemptOf;
  }

  lemma CreateStepKeeps(cfg: Config, s: Sys, c: nat)
    requires StoreOk(cfg, s) && c in s.calls && s.calls[c].pc.SubmitCreate?
    ensures var t := StepAdvance(s, c);
            var r := s.calls[c].pc.record;
            && TasksOk(cfg, t.tasks) && Grows(s.tasks, t.tasks)
            && (Creates(s, Advance(c)) ==>
                 t.tasks == s.tasks[r.item.id := r] && t.history.created == s.history.created + [r.item.id])
            && (!Creates(s, Advance(c)) ==> t.tasks == s.tasks && t.history.created == s.history.created)
  {
    hide CheckCreate, Advances, RecordOk, Granted, ChildOk, OrderOk, Fresh, InheritsGuards;
    GrowsReflexive(s.tasks);
    assert PcOk(cfg, s.tasks, s.calls[c].pc);
  }

  /** The effect of one step on the stored tasks: records advance, and at most one task is created. */
  lemma TasksStep(cfg: Config, s: Sys, a: Action)
    requires StoreOk(cfg, s) && Enabled(s, a)
    ensures var t := Next(cfg, s, a);
            && TasksOk(cfg, t.tasks) && Grows(s.tasks, t.tasks)
            && (Creates(s, a) ==>
                 var r := s.calls[a.c].pc.record;
                 t.tasks == s.tasks[r.item.id := r] && t.history.created == s.history.created + [r.item.id])
            && (!Creates(s, a) ==> t.tasks.Keys == s.tasks.Keys && t.history.created == s.history.created)
  {
    hide StepAdvance, StepRenew, Grows, CheckCreate, RecordOk, Granted, ChildOk, CallsOk, OrderOk;
    if Touches(s, a) {
      if a.Renew? {
        RenewStepKeeps(cfg, s, a);
      } else {
        match s.calls[a.c].pc {
          case SubmitBegin(_, _) => BeginStepKeeps(cfg, s, a.c);
          case GetClaim(_, _, _) => ClaimStepKeeps(cfg, s, a.c);
          case CancelRead(_, _) => CancelStepKeeps(cfg, s, a.c);
          case Settle(_, _, _, _, _, _) => SettleKeeps(cfg, s, a.c);
          case SubmitCreate(_, _) => CreateStepKeeps(cfg, s, a.c);
        }
      }
    } else {
      QuietStep(cfg, s, a);
      GrowsReflexive(s.tasks);
    }
  }

  /** Guards read from a parent stay right: parents are never dropped and never change their item. */
  lemma PcStaysOk(cfg: Config, before: Tasks, after: Tasks, pc: Pc)
    requires PcOk(cfg, before, pc) && Grows(before, after)
    ensures PcOk(cfg, after, pc)
  {
  }

  /** Where the calls go that need a fact about the store. */
  lemma PcStep(cfg: Config, s: Sys, a: Action, c: nat)
    requires Enabled(s, a) && c in Next(cfg, s, a).calls
    ensures var after := Next(cfg, s, a).calls[c].pc;
            || (c in s.calls && after == s.calls[c].pc)
            || (c !in s.calls && Entry(after))
            || (after.SubmitAuthorize? && a == Advance(c) && c in s.calls && s.calls[c].pc.SubmitRead?)
            || (after.SubmitCreate? && a.ChooseWorker? && a.c == c && c in s.calls && s.calls[c].pc.SubmitAuthorize?)
            || !(after.SubmitRead? || after.SubmitAuthorize? || after.SubmitCreate?)
  {
    hide StepAdvance, Authorize, RenewLease, Classify;
    if a.Advance? {
      if a.c == c { PcAdvance(s, c); } else { AdvanceOthers(s, a.c); }
    }
  }

  lemma PcAdvance(s: Sys, c: nat)
    requires c in s.calls
    ensures c in StepAdvance(s, c).calls
    ensures var after := StepAdvance(s, c).calls[c].pc;
            || after == s.calls[c].pc
            || (after.SubmitAuthorize? && s.calls[c].pc.SubmitRead?)
            || !(after.SubmitRead? || after.SubmitAuthorize? || after.SubmitCreate?)
  {
    hide CheckCreate, ApplyEvent, BeginDispatch, RequestCancel, ClaimRecovery;
  }

  lemma AuthorizePc(cfg: Config, s: Sys, c: nat)
    requires StoreOk(cfg, s) && c in s.calls && s.calls[c].pc.SubmitRead?
    requires StepAdvance(s, c).calls[c].pc.SubmitAuthorize?
    ensures StepAdvance(s, c).tasks == s.tasks
    ensures PcOk(cfg, s.tasks, StepAdvance(s, c).calls[c].pc)
  {
    hide OrderOk, ChildOk, Granted, DiagnosticsOk, ValidScope;
    var pc := s.calls[c].pc;
    assert PcOk(cfg, s.tasks, pc);
    if pc.item.parent.Some? {
      assert RecordOk(s.tasks[pc.item.parent.value]);
    }
  }

  lemma CreatePc(cfg: Config, s: Sys, c: nat, worker: string)
    requires StoreOk(cfg, s) && c in s.calls && s.calls[c].pc.SubmitAuthorize?
    requires Next(cfg, s, ChooseWorker(c, worker)).calls[c].pc.SubmitCreate?
    ensures PcOk(cfg, s.tasks, Next(cfg, s, ChooseWorker(c, worker)).calls[c].pc)
  {
    hide OrderOk, ChildOk, ValidScope, ScopesCovered, WithinCeilings;
    assert PcOk(cfg, s.tasks, s.calls[c].pc);
  }

  lemma CallsStep(cfg: Config, s: Sys, a: Action)
    requires StoreOk(cfg, s) && Enabled(s, a)
    ensures CallsOk(cfg, Next(cfg, s, a))
  {
    hide OrderOk, ChildOk, RecordOk, Granted, StepAdvance, CheckCreate, Grows;
    var t := Next(cfg, s, a);
    TasksStep(cfg, s, a);
    forall c | c in t.calls
      ensures PcOk(cfg, t.tasks, t.calls[c].pc)
    {
      PcStep(cfg, s, a, c);
      var after := t.calls[c].pc;
      if c in s.calls && after == s.calls[c].pc {
        PcStaysOk(cfg, s.tasks, t.tasks, after);
      } else if after.SubmitAuthorize? {
        AuthorizePc(cfg, s, c);
      } else if after.SubmitCreate? {
        CreatePc(cfg, s, c, a.worker);
      }
    }
  }

  lemma ItemsKept(before: Tasks, after: Tasks)
    requires Grows(before, after)
    ensures forall id | id in before :: id in after && after[id].item == before[id].item
  {
    assert forall id | id in before :: Advances(before[id], after[id]);
  }

  lemma ChildStays(before: Tasks, after: Tasks, item: WorkItem)
    requires ChildOk(before, item) && Grows(before, after)
    ensures ChildOk(after, item)
  {
    ItemsKept(before, after);
    hide Grows, WithinParent;
  }

  lemma CreatedNarrows(cfg: Config, s: Sys, a: Action)
    requires StoreOk(cfg, s) && Enabled(s, a) && Creates(s, a)
    ensures ChildOk(s.tasks, s.calls[a.c].pc.record.item)
  {
    assert PcOk(cfg, s.tasks, s.calls[a.c].pc);
    hide TasksOk, OrderOk, RecordOk, Granted, Fresh;
  }

  lemma NarrowingStep(cfg: Config, s: Sys, a: Action)
    requires StoreOk(cfg, s) && Enabled(s, a)
    ensures var t := Next(cfg, s, a); forall id | id in t.tasks :: ChildOk(t.tasks, t.tasks[id].item)
  {
    var t := Next(cfg, s, a);
    TasksStep(cfg, s, a);
    ItemsKept(s.tasks, t.tasks);
    hide Next, TasksOk, CallsOk, OrderOk, Grows, ChildOk;
    if Creates(s, a) {
      CreatedNarrows(cfg, s, a);
      ChildStays(s.tasks, t.tasks, s.calls[a.c].pc.record.item);
    }
    forall id | id in t.tasks ensures ChildOk(t.tasks, t.tasks[id].item) {
      if id in s.tasks { ChildStays(s.tasks, t.tasks, s.tasks[id].item); }
    }
  }

  /** Keeping the order, and appending a task that is new and whose parent is stored, keep it well formed. */
  lemma OrderKept(s: Sys, t: Sys)
    requires OrderOk(s) && t.history.created == s.history.created && t.tasks.Keys == s.tasks.Keys
    requires forall id | id in s.tasks :: id in t.tasks && t.tasks[id].item == s.tasks[id].item
    ensures OrderOk(t)
  {
  }

  lemma OrderExtended(s: Sys, t: Sys, r: Record)
    requires OrderOk(s) && t.history.created == s.history.created + [r.item.id] && t.tasks == s.tasks[r.item.id := r]
    requires r.item.id !in s.tasks && (r.item.parent.Some? ==> r.item.parent.value in s.tasks)
    ensures OrderOk(t)
  {
    var order, n := s.history.created, |s.history.created|;
    forall id ensures id in t.history.created <==> id in t.tasks {
      assert id in t.history.created <==> id in order || id == r.item.id;
    }
    forall i | 0 <= i < |t.history.created|
      ensures var id := t.history.created[i];
        id in t.tasks && (t.tasks[id].item.parent.Some? ==> t.tasks[id].item.parent.value in t.history.created[..i])
    {
      assert t.history.created[..i] == order[..i];
      assert i < n ==> order[i] in s.tasks;
      assert i == n ==> order[..i] == order;
    }
  }

  lemma OrderStep(cfg: Config, s: Sys, a: Action)
    requires StoreOk(cfg, s) && Enabled(s, a)
    ensures OrderOk(Next(cfg, s, a))
  {
    var t := Next(cfg, s, a);
    TasksStep(cfg, s, a);
    ItemsKept(s.tasks, t.tasks);
    hide Next, TasksOk, CallsOk, OrderOk, Grows;
    if Creates(s, a) {
      CreatedNarrows(cfg, s, a);
      OrderExtended(s, t, s.calls[a.c].pc.record);
    } else {
      OrderKept(s, t);
    }
  }

  /** The store invariant is inductive. */
  lemma StoreStep(cfg: Config, s: Sys, a: Action)
    requires StoreOk(cfg, s) && Enabled(s, a)
    ensures StoreOk(cfg, Next(cfg, s, a))
  {
    TasksStep(cfg, s, a);
    CallsStep(cfg, s, a);
    OrderStep(cfg, s, a);
    NarrowingStep(cfg, s, a);
    hide Next, TasksOk, CallsOk, OrderOk, ChildOk;
  }

  // ---------------------------------------------------------------- runs

  lemma {:induction false} RunStoreOk(cfg: Config, run: Run, n: nat)
    requires ValidRun(cfg, run) && n < |run.states|
    ensures StoreOk(cfg, run.states[n])
  {
    if n > 0 {
      RunStoreOk(cfg, run, n - 1);
      assert StepAt(cfg, run, n - 1);
      StoreStep(cfg, run.states[n - 1], run.actions[n - 1]);
    }
  }

  /**
   Over every interleaving, between any two moments of a run, a stored task keeps its binding; a
   terminal record keeps everything but its diagnostics; the attempt id is written once; dispatch
   never becomes in flight again; cancellation intent and inconsistency marks are never withdrawn.
   */
  lemma {:induction false} RecordsOnlyAdvance(cfg: Config, run: Run, i: nat, j: nat)
    requires ValidRun(cfg, run) && i <= j < |run.states|
    ensures Grows(run.states[i].tasks, run.states[j].tasks)
    decreases j - i
  {
    if i < j {
      RecordsOnlyAdvance(cfg, run, i, j - 1);
      assert StepAt(cfg, run, j - 1);
      RunStoreOk(cfg, run, j - 1);
      TasksStep(cfg, run.states[j - 1], run.actions[j - 1]);
      GrowsTransitive(run.states[i].tasks, run.states[j - 1].tasks, run.states[j].tasks);
    } else {
      GrowsReflexive(run.states[i].tasks);
    }
  }

  /** Terminal outcomes absorb: state, result, remote identity and acceptance never change again. */
  lemma TerminalForever(cfg: Config, run: Run, i: nat, j: nat, id: string)
    requires ValidRun(cfg, run) && i <= j < |run.states|
    requires id in run.states[i].tasks && Terminal(run.states[i].tasks[id].state)
    ensures id in run.states[j].tasks
    ensures var r, t := run.states[i].tasks[id], run.states[j].tasks[id];
            && t.state == r.state && t.result == r.result && t.remoteState == r.remoteState
            && t.remoteId == r.remoteId && t.acceptance == r.acceptance && t.dispatch == r.dispatch
            && t.cancelRequested == r.cancelRequested && t.outcome == r.outcome
  {
    RecordsOnlyAdvance(cfg, run, i, j);
    var r, t := run.states[i].tasks[id], run.states[j].tasks[id];
    var a, b := WithoutDiagnostics(r), WithoutDiagnostics(t);
    assert a.state == r.state && b.state == t.state && a.result == r.result && b.result == t.result;
  }

  /** No run ever records anything but pending acceptance. */
  lemma CompletionIsNotAcceptance(cfg: Config, run: Run, n: nat, id: string)
    requires ValidRun(cfg, run) && n < |run.states| && id in run.states[n].tasks
    ensures run.states[n].tasks[id].acceptance == PENDING_ACCEPTANCE
  {
    RunStoreOk(cfg, run, n);
  }
}
