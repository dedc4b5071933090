/**
 The work coordinator as a labelled transition system (`A2ACoordinator` and the locked sections of
 `TaskStore`, pipeline/a2a_coordination.py).

 Any number of submit, get and cancel calls, by any number of coordinator processes, interleave at
 the granularity of the store lock: every locked section is one step, and the clock, the replies
 and failures of the worker, lease renewals and crashes are steps of their own. The clock is the host's
 wall clock and may step back.
 */
module Coordinator {
  import opened Common
  import opened Scopes
  import opened Records
  import opened Budgets

  // ---------------------------------------------------------------- policy

  datatype Grant = Grant(
    principal: string, root: string, workers: set<string>, workflows: set<string>, effects: set<string>,
    allowed: set<string>, maxBudget: map<string, int>, expiresAt: Option<int>)

  datatype Worker = Worker(
    workflows: set<string>, effects: set<string>, allowed: set<string>, maxBudget: map<string, int>)

  /** Operator policy, the coordinator's project root, and the digests of the values it hashes. */
  datatype Config = Config(
    authorities: map<string, Grant>, workers: map<string, Worker>, root: string,
    requestDigest: WorkItem -> string, grantDigest: Grant -> string, workerDigest: Worker -> string)

  predicate ValidConfig(cfg: Config) {
    && (forall ref, scope | ref in cfg.authorities && scope in cfg.authorities[ref].allowed :: ValidScope(scope))
    && (forall id, scope | id in cfg.workers && scope in cfg.workers[id].allowed :: ValidScope(scope))
  }

  predicate WithinCeilings(budget: map<string, nat>, a: map<string, int>, b: map<string, int>) {
    forall key | key in budget ::
      (key in a || key in b) && (key in a ==> budget[key] <= a[key]) && (key in b ==> budget[key] <= b[key])
  }

  /** `A2ACoordinator._authorize` for the worker that gets the task. */
  function Authorize(cfg: Config, item: WorkItem, principal: string, worker: string, now: int)
    : Result<(Grant, Worker), Code>
  {
    if item.authorityRef !in cfg.authorities then Err(AuthorityDenied)
    else
      var grant := cfg.authorities[item.authorityRef];
      if grant.principal != principal || grant.root != cfg.root then Err(AuthorityDenied)
      else if grant.expiresAt.Some? && grant.expiresAt.value <= now then Err(AuthorityExpired)
      else if worker !in cfg.workers || worker !in grant.workers then Err(AuthorityDenied)
      else
        var profile := cfg.workers[worker];
        if item.workflow !in profile.workflows || item.workflow !in grant.workflows then Err(AuthorityDenied)
        else if !(item.effects <= grant.effects && item.effects <= profile.effects) then Err(AuthorityDenied)
        else if !(ScopesCovered(item.allowed, grant.allowed) && ScopesCovered(item.allowed, profile.allowed)) then
          Err(AuthorityDenied)
        else if !WithinCeilings(item.budget, grant.maxBudget, profile.maxBudget) then Err(BudgetDenied)
        else Ok((grant, profile))
  }

  /** The aggregate ceiling lists only the keys both the grant and the worker list. */
  function AggregateCeiling(grant: Grant, profile: Worker): map<string, int> {
    map key | key in grant.maxBudget && key in profile.maxBudget :: Min(grant.maxBudget[key], profile.maxBudget[key])
  }

  // ---------------------------------------------------------------- states

  /** Where a call stands; the names of the waiting points say which worker request is out. */
  datatype Pc =
    | SubmitRead(item: WorkItem, principal: string)
    | SubmitAuthorize(item: WorkItem, principal: string)
    | SubmitCreate(record: Record, ceiling: map<string, int>)
    | SubmitBegin(item: WorkItem, principal: string)
    | SubmitSend(item: WorkItem, principal: string, attempt: Attempt)
    | SubmitWait(item: WorkItem, principal: string, attempt: Attempt)
    | GetRead(id: string, principal: string, refresh: bool)
    | GetClock(id: string, principal: string)
    | GetClaim(id: string, principal: string, observedAt: int)
    | ReconcileWait(item: WorkItem, principal: string, attempt: Attempt)
    | RefreshWait(item: WorkItem, principal: string, attempt: Attempt)
    | CancelRead(id: string, principal: string)
    | CancelSend(item: WorkItem, principal: string, attempt: Attempt, remoteId: string)
    | CancelWait(item: WorkItem, principal: string, attempt: Attempt, remoteId: string)
    | Settle(id: string, principal: string, attempt: Attempt, event: RemoteEvent, forward: bool, sentTo: Option<string>)
    | Finished(outcome: Result<Record, Code>)
    | Crashed

  datatype Call = Call(owner: string, lease: nat, pc: Pc)

  datatype CancelRequest = CancelRequest(call: nat, id: string, remoteId: string)

  /** What has happened so far: creation order and worker requests sent. */
  datatype History = History(created: seq<string>, submits: seq<WorkItem>, cancels: seq<CancelRequest>)

  datatype Sys = Sys(tasks: Tasks, calls: map<nat, Call>, clock: int, serial: nat, history: History)

  datatype Action =
    | Invoke(c: nat, owner: string, lease: nat, pc: Pc)
    | ChooseWorker(c: nat, worker: string)
    | Advance(c: nat)
    | Reply(c: nat, reply: RemoteReply)
    | NoReply(c: nat, code: Code, message: string)
    | Renew(id: string, principal: string, attempt: Attempt, owner: string, lease: nat)
    | Crash(c: nat)
    | Tick(elapsed: int)

  function Init(clock: int): Sys {
    Sys(map[], map[], clock, 0, History([], [], []))
  }

  // ---------------------------------------------------------------- steps

  function Goto(s: Sys, c: nat, pc: Pc): Sys
    requires c in s.calls
  {
    s.(calls := s.calls[c := s.calls[c].(pc := pc)])
  }

  /** Load and authorise, as every locked section starts. */
  function Read(tasks: Tasks, id: string, principal: string): Result<Record, Code> {
    if id in tasks && tasks[id].principal == principal then Ok(tasks[id]) else Err(TaskNotFound)
  }

  function AttemptOf(r: Record): Attempt {
    if r.attempt.Some? then r.attempt.value else Missing
  }

  /** `_cancel_remote` up to its worker request. */
  function ForwardCancel(r: Record, principal: string): Pc {
    if Truthy(r.remoteId) then CancelSend(r.item, principal, AttemptOf(r), r.remoteId.value) else Finished(Ok(r))
  }

  function StepSubmitRead(s: Sys, c: nat, item: WorkItem, principal: string): Sys
    requires c in s.calls
  {
    if item.parent.None? then Goto(s, c, SubmitAuthorize(item, principal))
    else match Read(s.tasks, item.parent.value, principal)
      case Err(code) => Goto(s, c, Finished(Err(code)))
      case Ok(parent) =>
        Goto(s, c, SubmitAuthorize(item.(guarded := item.guarded + parent.item.guarded), principal))
  }

  function StepAuthorize(cfg: Config, s: Sys, c: nat, item: WorkItem, principal: string, worker: string): Sys
    requires c in s.calls
  {
    match Authorize(cfg, item, principal, worker, s.clock)
    case Err(code) => Goto(s, c, Finished(Err(code)))
    case Ok((grant, profile)) =>
      var record := NewRecord(item, cfg.requestDigest(item), principal, worker,
                              cfg.grantDigest(grant), cfg.workerDigest(profile), s.clock);
      Goto(s, c, SubmitCreate(record, AggregateCeiling(grant, profile)))
  }

  ghost function StepCreate(s: Sys, c: nat, r: Record, ceiling: map<string, int>): Sys
    requires c in s.calls
  {
    var id := r.item.id;
    if id in s.tasks then
      Goto(s, c, Finished(if s.tasks[id].request == r.request then Ok(s.tasks[id]) else Err(IdempotencyConflict)))
    else match CheckCreate(s.tasks, r, ceiling)
      case Err(code) => Goto(s, c, Finished(Err(code)))
      case Ok(_) =>
        Goto(s, c, SubmitBegin(r.item, r.principal))
        .(tasks := s.tasks[id := r], history := s.history.(created := s.history.created + [id]))
  }

  function StepBegin(s: Sys, c: nat, item: WorkItem, principal: string): Sys
    requires c in s.calls
  {
    match Read(s.tasks, item.id, principal)
    case Err(code) => Goto(s, c, Finished(Err(code)))
    case Ok(r) =>
      var (updated, claimed) := BeginDispatch(r, s.serial, s.calls[c].owner, s.calls[c].lease, s.clock);
      if claimed then
        Goto(s, c, SubmitSend(item, principal, Random(s.serial)))
        .(tasks := s.tasks[item.id := updated], serial := s.serial + 1)
      else Goto(s, c, Finished(Ok(r)))
  }

  function StepSubmitSend(s: Sys, c: nat, item: WorkItem, principal: string, attempt: Attempt): Sys
    requires c in s.calls
  {
    Goto(s, c, SubmitWait(item, principal, attempt))
    .(history := s.history.(submits := s.history.submits + [item]))
  }

  function StepGetRead(s: Sys, c: nat, id: string, principal: string, refresh: bool): Sys
    requires c in s.calls
  {
    match Read(s.tasks, id, principal)
    case Err(code) => Goto(s, c, Finished(Err(code)))
    case Ok(r) =>
      Goto(s, c,
           if !refresh || Terminal(r.state) then Finished(Ok(r))
           else if !Truthy(r.remoteId) then GetClock(id, principal)
           else if r.cancelRequested then ForwardCancel(r, principal)
           else RefreshWait(r.item, principal, AttemptOf(r)))
  }

  function StepClaim(s: Sys, c: nat, id: string, principal: string, observedAt: int): Sys
    requires c in s.calls
  {
    match Read(s.tasks, id, principal)
    case Err(code) => Goto(s, c, Finished(Err(code)))
    case Ok(r) =>
      match ClaimRecovery(r, s.calls[c].owner, s.calls[c].lease, observedAt)
      case Err(code) => Goto(s, c, Finished(Err(code)))
      case Ok((updated, claimed)) =>
        if claimed then
          Goto(s, c, ReconcileWait(updated.item, principal, AttemptOf(updated))).(tasks := s.tasks[id := updated])
        else Goto(s, c, Finished(Ok(r)))
  }

  function StepCancelRead(s: Sys, c: nat, id: string, principal: string): Sys
    requires c in s.calls
  {
    match Read(s.tasks, id, principal)
    case Err(code) => Goto(s, c, Finished(Err(code)))
    case Ok(r) =>
      var updated := RequestCancel(r, s.clock).0;
      Goto(s, c, if Terminal(updated.state) then Finished(Ok(updated)) else ForwardCancel(updated, principal))
      .(tasks := s.tasks[id := updated])
  }

  function StepCancelSend(s: Sys, c: nat, item: WorkItem, principal: string, attempt: Attempt, remoteId: string): Sys
    requires c in s.calls
  {
    Goto(s, c, CancelWait(item, principal, attempt, remoteId))
    .(history := s.history.(cancels := s.history.cancels + [CancelRequest(c, item.id, remoteId)]))
  }

  function StepSettle(s: Sys, c: nat, id: string, principal: string, attempt: Attempt, e: RemoteEvent,
          forward: bool): Sys
    requires c in s.calls
  {
    match Read(s.tasks, id, principal)
    case Err(code) => Goto(s, c, Finished(Err(code)))
    case Ok(r) =>
      var updated := ApplyEvent(r, attempt, e, s.clock).0;
      Goto(s, c, if forward && updated.cancelRequested && !Terminal(updated.state)
                 then ForwardCancel(updated, principal) else Finished(Ok(updated)))
      .(tasks := s.tasks[id := updated])
  }

  ghost function StepAdvance(s: Sys, c: nat): Sys
    requires c in s.calls
  {
    match s.calls[c].pc
    case SubmitRead(item, principal) => StepSubmitRead(s, c, item, principal)
    case SubmitCreate(r, ceiling) => StepCreate(s, c, r, ceiling)
    case SubmitBegin(item, principal) => StepBegin(s, c, item, principal)
    case SubmitSend(item, principal, attempt) => StepSubmitSend(s, c, item, principal, attempt)
    case GetRead(id, principal, refresh) => StepGetRead(s, c, id, principal, refresh)
    case GetClock(id, principal) => Goto(s, c, GetClaim(id, principal, s.clock))
    case GetClaim(id, principal, observedAt) => StepClaim(s, c, id, principal, observedAt)
    case CancelRead(id, principal) => StepCancelRead(s, c, id, principal)
    case CancelSend(item, principal, attempt, remoteId) => StepCancelSend(s, c, item, principal, attempt, remoteId)
    case Settle(id, principal, attempt, e, forward, _) => StepSettle(s, c, id, principal, attempt, e, forward)
    case _ => s
  }

  /** The worker answered: the reply is checked and becomes the event to settle. */
  function AfterReply(pc: Pc, reply: RemoteReply): Pc {
    match pc
    case SubmitWait(item, principal, attempt) => SettleReply(item, principal, attempt, reply, None)
    case ReconcileWait(item, principal, attempt) => SettleReply(item, principal, attempt, reply, None)
    case RefreshWait(item, principal, attempt) => SettleReply(item, principal, attempt, reply, None)
    case CancelWait(item, principal, attempt, remoteId) => SettleReply(item, principal, attempt, reply, Some(remoteId))
    case _ => pc
  }

  /** Only a valid observation that does not answer a cancellation may forward one. */
  function SettleReply(item: WorkItem, principal: string, attempt: Attempt, reply: RemoteReply,
          sentTo: Option<string>): Pc {
    var e := Classify(item, reply);
    Settle(item.id, principal, attempt, e, e.Observation? && sentTo.None?, sentTo)
  }

  /** The worker request raised, or reconciliation found nothing; a failed refresh just propagates. */
  function AfterNoReply(pc: Pc, code: Code, message: string): Pc {
    match pc
    case SubmitWait(item, principal, attempt) =>
      Settle(item.id, principal, attempt, TransportError(RpcSubmit, None, code, message), false, None)
    case ReconcileWait(item, principal, attempt) =>
      Settle(item.id, principal, attempt, TransportError(RpcReconcile, None, code, message), false, None)
    case RefreshWait(_, _, _) => Finished(Err(code))
    case CancelWait(item, principal, attempt, remoteId) =>
      Settle(item.id, principal, attempt, TransportError(RpcCancel, Some(remoteId), code, message), false,
          Some(remoteId))
    case _ => pc
  }

  function StepRenew(s: Sys, id: string, principal: string, attempt: Attempt, owner: string, lease: nat): Sys {
    match Read(s.tasks, id, principal)
    case Err(_) => s
    case Ok(r) => s.(tasks := s.tasks[id := RenewLease(r, attempt, owner, lease, s.clock).0])
  }

  function StepCrash(s: Sys, c: nat): Sys
    requires c in s.calls
  {
    var pc := s.calls[c].pc;
    Goto(s, c, if pc.Finished? then pc else Crashed)
  }

  predicate Waiting(pc: Pc) {
    pc.SubmitWait? || pc.ReconcileWait? || pc.RefreshWait? || pc.CancelWait?
  }

  /** Calls start as a submission of a constructed work item, a read, or a cancellation. */
  predicate Entry(pc: Pc) {
    (pc.SubmitRead? && ValidItem(pc.item)) || pc.GetRead? || pc.CancelRead?
  }

  predicate Enabled(s: Sys, a: Action) {
    match a
    case Invoke(c, _, _, pc) => c !in s.calls && Entry(pc)
    case ChooseWorker(c, _) => c in s.calls && s.calls[c].pc.SubmitAuthorize?
    case Advance(c) => c in s.calls
    case Reply(c, _) => c in s.calls && Waiting(s.calls[c].pc)
    case NoReply(c, _, _) => c in s.calls && Waiting(s.calls[c].pc)
    case Renew(_, _, _, _, _) => true
    case Crash(c) => c in s.calls
    case Tick(_) => true
  }

  ghost function Next(cfg: Config, s: Sys, a: Action): Sys
    requires Enabled(s, a)
  {
    match a
    case Invoke(c, owner, lease, pc) => s.(calls := s.calls[c := Call(owner, lease, pc)])
    case ChooseWorker(c, worker) => StepAuthorize(cfg, s, c, s.calls[c].pc.item, s.calls[c].pc.principal, worker)
    case Advance(c) => StepAdvance(s, c)
    case Reply(c, reply) => Goto(s, c, AfterReply(s.calls[c].pc, reply))
    case NoReply(c, code, message) => Goto(s, c, AfterNoReply(s.calls[c].pc, code, message))
    case Renew(id, principal, attempt, owner, lease) => StepRenew(s, id, principal, attempt, owner, lease)
    case Crash(c) => StepCrash(s, c)
    case Tick(elapsed) => s.(clock := s.clock + elapsed)
  }

  /** A step of one call leaves every other call where it is. */
  lemma AdvanceOthers(s: Sys, c: nat)
    requires c in s.calls
    ensures StepAdvance(s, c).calls.Keys == s.calls.Keys
    ensures forall d | d in s.calls && d != c :: StepAdvance(s, c).calls[d] == s.calls[d]
  {
    hide CheckCreate, Read, ApplyEvent, BeginDispatch, RequestCancel, ClaimRecovery, ForwardCancel, AttemptOf;
  }

  // ---------------------------------------------------------------- runs

  /** A finite run: one more state than actions, starting from an empty store. */
  datatype Run = Run(states: seq<Sys>, actions: seq<Action>)

  ghost predicate ValidRun(cfg: Config, run: Run) {
    && |run.states| == |run.actions| + 1
    && (exists clock :: run.states[0] == Init(clock))
    && forall i | 0 <= i < |run.actions| :: StepAt(cfg, run, i)
  }

  ghost predicate StepAt(cfg: Config, run: Run, i: nat)
    requires i < |run.actions| < |run.states|
  {
    Enabled(run.states[i], run.actions[i]) && run.states[i + 1] == Next(cfg, run.states[i], run.actions[i])
  }
}
