/**
 What the operator's policy decides about a submission, and when (`_authorize` and `submit` in
 pipeline/a2a_coordination.py).
 */
module Authorization {
  import opened Common
  import opened Scopes
  import opened Records
  import opened Budgets
  import opened Coordinator
  import opened StoreInvariant
  import opened Submission

  /** The grant is the principal's own, for this project, and has not run out. */
  predicate GrantHolds(cfg: Config, grant: Grant, principal: string, now: int) {
    grant.principal == principal && grant.root == cfg.root && (grant.expiresAt.Some? ==> now < grant.expiresAt.value)
  }

  /** Worker and grant both take the workflow, the effects and every allowed scope. */
  predicate WorkFits(item: WorkItem, worker: string, grant: Grant, profile: Worker) {
    && worker in grant.workers
    && item.workflow in grant.workflows && item.workflow in profile.workflows
    && item.effects <= grant.effects && item.effects <= profile.effects
    && (forall scope | scope in item.allowed ::
          && (exists container | container in grant.allowed :: Contains(container, scope))
          && (exists container | container in profile.allowed :: Contains(container, scope)))
  }

  /** Every budgeted key is listed by the grant or the worker, and within each ceiling that lists it. */
  predicate BudgetFits(item: WorkItem, grant: Grant, profile: Worker) {
    forall key | key in item.budget ::
      && (key in grant.maxBudget || key in profile.maxBudget)
      && (key in grant.maxBudget ==> item.budget[key] <= grant.maxBudget[key])
      && (key in profile.maxBudget ==> item.budget[key] <= profile.maxBudget[key])
  }

  /** What the policy permits at a given time. */
  predicate Permits(cfg: Config, item: WorkItem, principal: string, worker: string, now: int) {
    && item.authorityRef in cfg.authorities && worker in cfg.workers
    && GrantHolds(cfg, cfg.authorities[item.authorityRef], principal, now)
    && WorkFits(item, worker, cfg.authorities[item.authorityRef], cfg.workers[worker])
    && BudgetFits(item, cfg.authorities[item.authorityRef], cfg.workers[worker])
  }

  /** Authorisation succeeds exactly when the policy permits, and says why when it does not. */
  lemma AuthorizeExact(cfg: Config, item: WorkItem, principal: string, worker: string, now: int)
    ensures var verdict := Authorize(cfg, item, principal, worker, now);
            && (verdict.Ok? <==> Permits(cfg, item, principal, worker, now))
            && (verdict == Err(AuthorityExpired) <==>
                  && item.authorityRef in cfg.authorities
                  && var grant := cfg.authorities[item.authorityRef];
                  && grant.principal == principal && grant.root == cfg.root
                  && grant.expiresAt.Some? && grant.expiresAt.value <= now)
            && (verdict == Err(BudgetDenied) <==>
                  && item.authorityRef in cfg.authorities && worker in cfg.workers
                  && var grant, profile := cfg.authorities[item.authorityRef], cfg.workers[worker];
                  && GrantHolds(cfg, grant, principal, now) && WorkFits(item, worker, grant, profile)
                  && !BudgetFits(item, grant, profile))
  {
    hide Contains;
  }

  // ---------------------------------------------------------------- over runs

  /** A step of the run authorised this record's submission, at the time it was created. */
  ghost predicate AuthorizedAt(cfg: Config, run: Run, k: nat, r: Record) {
    && k < |run.actions| && k < |run.states| && run.actions[k].ChooseWorker? && run.actions[k].worker == r.worker
    && run.actions[k].c in run.states[k].calls
    && run.states[k].calls[run.actions[k].c].pc == SubmitAuthorize(r.item, r.principal)
    && r.createdAt == run.states[k].clock
    && Permits(cfg, r.item, r.principal, r.worker, r.createdAt)
  }

  ghost predicate AuthorizedBefore(cfg: Config, run: Run, n: nat, r: Record) {
    exists k | 0 <= k < n :: AuthorizedAt(cfg, run, k, r)
  }

  ghost predicate AllAuthorized(cfg: Config, run: Run, n: nat)
    requires n < |run.states|
  {
    var s := run.states[n];
    && (forall id | id in s.tasks :: AuthorizedBefore(cfg, run, n, s.tasks[id]))
    && (forall c | c in s.calls && s.calls[c].pc.SubmitCreate? :: AuthorizedBefore(cfg, run, n, s.calls[c].pc.record))
  }

  lemma SameAuthorization(cfg: Config, run: Run, n: nat, a: Record, b: Record)
    requires SameBinding(a, b) && AuthorizedBefore(cfg, run, n, a)
    ensures AuthorizedBefore(cfg, run, n + 1, b)
  {
    hide Permits;
    var k :| 0 <= k < n && AuthorizedAt(cfg, run, k, a);
    assert AuthorizedAt(cfg, run, k, b);
  }

  /** Only an authorising step brings a call to its creation. */
  lemma ReadyToCreate(cfg: Config, s: Sys, a: Action, c: nat)
    requires Enabled(s, a) && c in Next(cfg, s, a).calls && Next(cfg, s, a).calls[c].pc.SubmitCreate?
    ensures c in s.calls
    ensures var pc, r := s.calls[c].pc, Next(cfg, s, a).calls[c].pc.record;
            || Next(cfg, s, a).calls[c].pc == pc
            || (a == ChooseWorker(c, r.worker) && pc == SubmitAuthorize(r.item, r.principal) && r.createdAt == s.clock
                && Permits(cfg, r.item, r.principal, r.worker, s.clock))
  {
    PcStep(cfg, s, a, c);
    if a.ChooseWorker? && a.c == c && s.calls[c].pc.SubmitAuthorize? {
      AuthorizeExact(cfg, s.calls[c].pc.item, s.calls[c].pc.principal, a.worker, s.clock);
    }
    hide StepAdvance, Permits, AggregateCeiling, RenewLease, Authorize, Classify;
  }

  lemma CallsAuthorized(cfg: Config, run: Run, n: nat, c: nat)
    requires ValidRun(cfg, run) && n < |run.actions| && AllAuthorized(cfg, run, n)
    requires c in run.states[n + 1].calls && run.states[n + 1].calls[c].pc.SubmitCreate?
    ensures AuthorizedBefore(cfg, run, n + 1, run.states[n + 1].calls[c].pc.record)
  {
    assert StepAt(cfg, run, n);
    hide ValidRun, Next, AuthorizedBefore, Permits;
    ReadyToCreate(cfg, run.states[n], run.actions[n], c);
    var r := run.states[n + 1].calls[c].pc.record;
    if run.states[n + 1].calls[c].pc == run.states[n].calls[c].pc {
      SameAuthorization(cfg, run, n, r, r);
    } else {
      NewlyAuthorized(cfg, run, n, r);
    }
  }

  lemma TasksAuthorized(cfg: Config, run: Run, n: nat, id: string)
    requires ValidRun(cfg, run) && n < |run.actions| && AllAuthorized(cfg, run, n)
    requires id in run.states[n + 1].tasks
    ensures AuthorizedBefore(cfg, run, n + 1, run.states[n + 1].tasks[id])
  {
    RunStoreOk(cfg, run, n);
    assert StepAt(cfg, run, n);
    var s, a, t := run.states[n], run.actions[n], run.states[n + 1];
    hide ValidRun, Next, AuthorizedBefore, StoreOk;
    if id in s.tasks {
      AdvancedRecord(cfg, s, a, id);
      SameAuthorization(cfg, run, n, s.tasks[id], t.tasks[id]);
    } else {
      CreatedByCall(cfg, s, a, id);
      SameAuthorization(cfg, run, n, t.tasks[id], t.tasks[id]);
    }
  }

  lemma AdvancedRecord(cfg: Config, s: Sys, a: Action, id: string)
    requires StoreOk(cfg, s) && Enabled(s, a) && id in s.tasks && id in Next(cfg, s, a).tasks
    ensures SameBinding(s.tasks[id], Next(cfg, s, a).tasks[id])
  {
    TasksStep(cfg, s, a);
    hide Next, StoreOk, Creates;
    assert Advances(s.tasks[id], Next(cfg, s, a).tasks[id]);
  }

  lemma {:induction false} RunAuthorized(cfg: Config, run: Run, n: nat)
    requires ValidRun(cfg, run) && n < |run.states|
    ensures AllAuthorized(cfg, run, n)
  {
    hide Next, AuthorizedBefore;
    if n > 0 {
      RunAuthorized(cfg, run, n - 1);
      var t := run.states[n];
      hide ValidRun;
      forall c | c in t.calls && t.calls[c].pc.SubmitCreate?
        ensures AuthorizedBefore(cfg, run, n, t.calls[c].pc.record)
      {
        CallsAuthorized(cfg, run, n - 1, c);
      }
      forall id | id in t.tasks ensures AuthorizedBefore(cfg, run, n, t.tasks[id]) {
        TasksAuthorized(cfg, run, n - 1, id);
      }
    }
  }

  lemma NewlyAuthorized(cfg: Config, run: Run, k: nat, r: Record)
    requires AuthorizedAt(cfg, run, k, r)
    ensures AuthorizedBefore(cfg, run, k + 1, r)
  {
  }

  /** A record that appears was built by the call that stores it. */
  lemma CreatedByCall(cfg: Config, s: Sys, a: Action, id: string)
    requires StoreOk(cfg, s) && Enabled(s, a) && id !in s.tasks && id in Next(cfg, s, a).tasks
    ensures a.Advance? && a.c in s.calls && s.calls[a.c].pc.SubmitCreate?
    ensures Next(cfg, s, a).tasks[id] == s.calls[a.c].pc.record
  {
    TasksStep(cfg, s, a);
    hide Next, TasksOk, CallsOk, OrderOk, ChildOk, CheckCreate;
  }

  /**
   Every stored task was authorised by a step of the run, at the very time the record says it was
   created: the policy permitted exactly this item for this principal and worker, and the grant had not
   run out.
   */
  lemma CreatedInTime(cfg: Config, run: Run, n: nat, id: string) returns (k: nat)
    requires ValidRun(cfg, run) && n < |run.states| && id in run.states[n].tasks
    ensures k < n && AuthorizedAt(cfg, run, k, run.states[n].tasks[id])
    ensures var r := run.states[n].tasks[id];
            && r.item.authorityRef in cfg.authorities
            && var grant := cfg.authorities[r.item.authorityRef];
            && (grant.expiresAt.Some? ==> run.states[k].clock == r.createdAt < grant.expiresAt.value)
  {
    RunAuthorized(cfg, run, n);
    assert AuthorizedBefore(cfg, run, n, run.states[n].tasks[id]);
    k :| 0 <= k < n && AuthorizedAt(cfg, run, k, run.states[n].tasks[id]);
    hide WorkFits, BudgetFits;
  }

  /** And so everything ever sent to a worker was authorised in time, and as it was sent. */
  lemma SentInTime(cfg: Config, run: Run, n: nat, i: nat) returns (k: nat)
    requires ValidRun(cfg, run) && n < |run.states| && i < |run.states[n].history.submits|
    ensures k < n && run.actions[k].ChooseWorker? && run.actions[k].c in run.states[k].calls
    ensures var item := run.states[n].history.submits[i];
            && item.id in run.states[n].tasks
            && var r := run.states[n].tasks[item.id];
            && run.states[k].calls[run.actions[k].c].pc == SubmitAuthorize(item, r.principal)
            && Permits(cfg, item, r.principal, run.actions[k].worker, run.states[k].clock)
  {
    hide Permits, Granted;
    SubmittedAtMostOnce(cfg, run, n);
    var item := run.states[n].history.submits[i];
    k := CreatedInTime(cfg, run, n, item.id);
  }

  /** A submission after the grant ran out ends the call, and stores and sends nothing. */
  lemma ExpiredGrantDenies(cfg: Config, s: Sys, c: nat, worker: string)
    requires c in s.calls && s.calls[c].pc.SubmitAuthorize?
    requires var item := s.calls[c].pc.item;
             && item.authorityRef in cfg.authorities && cfg.authorities[item.authorityRef].expiresAt.Some?
             && cfg.authorities[item.authorityRef].expiresAt.value <= s.clock
    ensures var t := Next(cfg, s, ChooseWorker(c, worker));
            && t.calls[c].pc.Finished? && t.calls[c].pc.outcome.Err? && t.tasks == s.tasks && t.history == s.history
  {
    AuthorizeExact(cfg, s.calls[c].pc.item, s.calls[c].pc.principal, worker, s.clock);
    hide Authorize, WorkFits, BudgetFits;
  }
}
