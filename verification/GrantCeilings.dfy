/**
 When a grant's budget ceiling binds all of its active tasks (`_authorize`, `submit` and
 `_check_aggregate_budget_unlocked` in pipeline/a2a_coordination.py).

 The aggregate check uses the keys that the grant and the chosen worker both list, so a worker that
 does not list a key lets any number of tasks through.
 */
module GrantCeilings {
  import opened Common
  import opened Scopes
  import opened Records
  import opened Budgets
  import opened Coordinator
  import opened StoreInvariant
  import opened Delegation

  ghost predicate KeptInRun(run: Run, account: Group, key: string, limit: int) {
    forall n | 0 <= n < |run.states| :: Load(run.states[n].tasks, account, key) <= limit
  }

  /** In every run, the active tasks under the grant stay within its ceiling for the key. */
  ghost predicate CeilingBinds(cfg: Config, grant: Grant, key: string)
    requires key in grant.maxBudget
  {
    forall run | ValidRun(cfg, run) ::
      KeptInRun(run, Account(cfg.grantDigest(grant), grant.principal), key, grant.maxBudget[key])
  }

  /** An item that takes the worker under the grant, before budgets are looked at. */
  ghost predicate Fits(cfg: Config, grant: Grant, worker: string, item: WorkItem) {
    && ValidItem(item) && item.parent.None?
    && item.authorityRef in cfg.authorities && cfg.authorities[item.authorityRef] == grant
    && grant.root == cfg.root && worker in cfg.workers && worker in grant.workers
    && var profile := cfg.workers[worker];
    && item.workflow in profile.workflows && item.workflow in grant.workflows
    && item.effects <= grant.effects && item.effects <= profile.effects
    && ScopesCovered(item.allowed, grant.allowed) && ScopesCovered(item.allowed, profile.allowed)
  }

  /** Some work can be submitted to the worker under the grant: policy alone decides this. */
  ghost predicate Opens(cfg: Config, grant: Grant, worker: string) {
    && (exists item :: Fits(cfg, grant, worker, item))
    && forall k | k in AggregateCeiling(grant, cfg.workers[worker]) ::
        AggregateCeiling(grant, cfg.workers[worker])[k] >= 0
  }

  // ---------------------------------------------------------------- the ceiling binds

  lemma CreatedFits(cfg: Config, s: Sys, a: Action)
    requires StoreOk(cfg, s) && Enabled(s, a) && Creates(s, a)
    ensures var r := s.calls[a.c].pc.record;
            && r.item.authorityRef in cfg.authorities
            && Fits(cfg, cfg.authorities[r.item.authorityRef], r.worker, r.item.(parent := None))
            && s.calls[a.c].pc.ceiling == AggregateCeiling(cfg.authorities[r.item.authorityRef], cfg.workers[r.worker])
            && r.authority == cfg.grantDigest(cfg.authorities[r.item.authorityRef])
  {
    hide TasksOk, OrderOk, ChildOk, ScopesCovered, DiagnosticsOk, CheckCreate, ValidScope;
    assert PcOk(cfg, s.tasks, s.calls[a.c].pc);
    var item := s.calls[a.c].pc.record.item;
    assert ValidItem(item.(parent := None));
  }

  lemma CreatedOpens(cfg: Config, s: Sys, a: Action)
    requires StoreOk(cfg, s) && Enabled(s, a) && Creates(s, a)
    ensures var r := s.calls[a.c].pc.record;
            r.item.authorityRef in cfg.authorities && Opens(cfg, cfg.authorities[r.item.authorityRef], r.worker)
  {
    CreatedFits(cfg, s, a);
    hide StoreOk, Fits, Load;
    var pc := s.calls[a.c].pc;
    var grant, account := cfg.authorities[pc.record.item.authorityRef],
        Account(pc.record.authority, pc.record.principal);
    assert Fits(cfg, grant, pc.record.worker, pc.record.item.(parent := None));
    forall k | k in pc.ceiling ensures pc.ceiling[k] >= 0 {
      assert Budget(pc.record.item, k) + Load(s.tasks, account, k) <= pc.ceiling[k];
    }
    WorkerKnown(cfg, grant, pc.record.worker, pc.record.item.(parent := None));
  }

  lemma WorkerKnown(cfg: Config, grant: Grant, worker: string, item: WorkItem)
    requires Fits(cfg, grant, worker, item)
    ensures worker in cfg.workers
  {
  }

  /** A ceiling listed by every worker that can take work under the grant binds all runs. */
  lemma GrantBudgetKept(cfg: Config, grant: Grant, key: string)
    requires forall a, b | cfg.grantDigest(a) == cfg.grantDigest(b) :: a == b
    requires key in grant.maxBudget && grant.maxBudget[key] >= 0
    requires forall worker | worker in cfg.workers && Opens(cfg, grant, worker) :: key in cfg.workers[worker].maxBudget
    ensures CeilingBinds(cfg, grant, key)
  {
    hide ValidRun, Load, StoreOk, Opens, Next;
    var authority, principal, limit := cfg.grantDigest(grant), grant.principal, grant.maxBudget[key];
    forall run | ValidRun(cfg, run) ensures KeptInRun(run, Account(authority, principal), key, limit) {
      RunLengths(cfg, run);
      forall n | 0 <= n < |run.states| ensures Load(run.states[n].tasks, Account(authority, principal), key) <= limit {
        forall k | 0 <= k < n ensures CreatesListed(cfg, run, k, authority, principal, key, limit) {
          CreatesListedStep(cfg, run, grant, key, k);
        }
        AggregateFromListed(cfg, run, n, authority, principal, key, limit);
      }
    }
  }

  lemma RunLengths(cfg: Config, run: Run)
    requires ValidRun(cfg, run)
    ensures |run.states| == |run.actions| + 1
  {
  }

  ghost predicate CreatesListed(cfg: Config, run: Run, k: nat, authority: string, principal: string, key: string,
                                limit: nat) {
    && k < |run.actions| && k < |run.states|
    && CreatesWithin(run.states[k], run.actions[k], authority, principal, key, limit)
  }

  lemma AggregateFromListed(cfg: Config, run: Run, n: nat, authority: string, principal: string, key: string,
          limit: nat)
    requires ValidRun(cfg, run) && n < |run.states|
    requires forall k | 0 <= k < n :: CreatesListed(cfg, run, k, authority, principal, key, limit)
    ensures Load(run.states[n].tasks, Account(authority, principal), key) <= limit
  {
    hide Load, CreatesWithin, Next;
    forall k | 0 <= k < n ensures CreatesWithin(run.states[k], run.actions[k], authority, principal, key, limit) {
      assert CreatesListed(cfg, run, k, authority, principal, key, limit);
    }
    AggregateBudgetKept(cfg, run, n, authority, principal, key, limit);
  }

  lemma CreatesListedStep(cfg: Config, run: Run, grant: Grant, key: string, k: nat)
    requires forall a, b | cfg.grantDigest(a) == cfg.grantDigest(b) :: a == b
    requires key in grant.maxBudget && grant.maxBudget[key] >= 0
    requires forall worker | worker in cfg.workers && Opens(cfg, grant, worker) :: key in cfg.workers[worker].maxBudget
    requires ValidRun(cfg, run) && k < |run.actions|
    ensures CreatesListed(cfg, run, k, cfg.grantDigest(grant), grant.principal, key, grant.maxBudget[key])
  {
    hide StoreOk, Opens, Next, Fits;
    RunStoreOk(cfg, run, k);
    assert StepAt(cfg, run, k);
    var s, a := run.states[k], run.actions[k];
    if Creates(s, a) {
      CreatedFits(cfg, s, a);
      CreatedOpens(cfg, s, a);
      var r := s.calls[a.c].pc.record;
      WorkerKnown(cfg, cfg.authorities[r.item.authorityRef], r.worker, r.item.(parent := None));
    }
  }

  // ---------------------------------------------------------------- the ceiling does not bind

  ghost function Longer(cfg: Config, run: Run, a: Action): Run
    requires |run.states| > 0 && Enabled(run.states[|run.states| - 1], a)
  {
    Run(run.states + [Next(cfg, run.states[|run.states| - 1], a)], run.actions + [a])
  }

  lemma LongerIsValid(cfg: Config, run: Run, a: Action)
    requires ValidRun(cfg, run) && Enabled(run.states[|run.states| - 1], a)
    ensures ValidRun(cfg, Longer(cfg, run, a))
  {
    hide Next, Enabled;
    var longer := Longer(cfg, run, a);
    forall i | 0 <= i < |longer.actions| ensures StepAt(cfg, longer, i) {
      if i < |run.actions| { assert StepAt(cfg, run, i); }
    }
  }

  ghost function Last(run: Run): Sys
    requires |run.states| > 0
  {
    run.states[|run.states| - 1]
  }

  function SubmittedRecord(cfg: Config, item: WorkItem, grant: Grant, worker: string, now: int): Record
    requires worker in cfg.workers
  {
    NewRecord(item, cfg.requestDigest(item), grant.principal, worker, cfg.grantDigest(grant),
              cfg.workerDigest(cfg.workers[worker]), now)
  }

  /** A parentless item that authorises and is admitted gets stored, in four steps. */
  lemma SubmitNew(cfg: Config, run: Run, c: nat, item: WorkItem, grant: Grant, worker: string) returns (longer: Run)
    requires ValidRun(cfg, run) && c !in Last(run).calls && item.id !in Last(run).tasks
    requires ValidItem(item) && item.parent.None? && worker in cfg.workers
    requires Authorize(cfg, item, grant.principal, worker, Last(run).clock) == Ok((grant, cfg.workers[worker]))
    requires CheckCreate(Last(run).tasks, SubmittedRecord(cfg, item, grant, worker, Last(run).clock),
                         AggregateCeiling(grant, cfg.workers[worker])).Ok?
    ensures ValidRun(cfg, longer) && |longer.states| > 0
    ensures Last(longer).tasks == Last(run).tasks[item.id := SubmittedRecord(cfg, item, grant, worker, Last(run).clock)]
    ensures Last(longer).calls.Keys == Last(run).calls.Keys + {c} && Last(longer).clock == Last(run).clock
  {
    RunLengths(cfg, run);
    var ready := SubmitAuthorized(cfg, run, c, item, grant, worker);
    hide Authorize, CheckCreate, ValidRun, ValidItem, AggregateCeiling, Longer;
    LongerBy(cfg, ready, Advance(c));
    longer := Longer(cfg, ready, Advance(c));
  }

  lemma SubmitAuthorized(cfg: Config, run: Run, c: nat, item: WorkItem, grant: Grant, worker: string)
    returns (longer: Run)
    requires ValidRun(cfg, run) && c !in Last(run).calls
    requires ValidItem(item) && item.parent.None? && worker in cfg.workers
    requires Authorize(cfg, item, grant.principal, worker, Last(run).clock) == Ok((grant, cfg.workers[worker]))
    ensures ValidRun(cfg, longer) && |longer.states| > 0 && Last(longer).tasks == Last(run).tasks
    ensures Last(longer).calls.Keys == Last(run).calls.Keys + {c} && Last(longer).clock == Last(run).clock
    ensures Last(longer).calls[c].pc == SubmitCreate(SubmittedRecord(cfg, item, grant, worker, Last(run).clock),
                                                     AggregateCeiling(grant, cfg.workers[worker]))
  {
    RunLengths(cfg, run);
    hide Authorize, ValidRun, ValidItem, AggregateCeiling, Longer;
    longer := run;
    LongerBy(cfg, longer, Invoke(c, "", 0, SubmitRead(item, grant.principal)));
    longer := Longer(cfg, longer, Invoke(c, "", 0, SubmitRead(item, grant.principal)));
    LongerBy(cfg, longer, Advance(c));
    longer := Longer(cfg, longer, Advance(c));
    LongerBy(cfg, longer, ChooseWorker(c, worker));
    longer := Longer(cfg, longer, ChooseWorker(c, worker));
  }

  lemma LongerBy(cfg: Config, run: Run, a: Action)
    requires ValidRun(cfg, run) && |run.states| > 0 && Enabled(Last(run), a)
    ensures ValidRun(cfg, Longer(cfg, run, a)) && Last(Longer(cfg, run, a)) == Next(cfg, Last(run), a)
  {
    hide Next, Enabled;
    LongerIsValid(cfg, run, a);
  }

  function Started(clock: int): Run { Run([Init(clock)], []) }

  /** The item with another id that budgets exactly this much of one key. */
  function Asking(item: WorkItem, id: string, key: string, amount: nat): WorkItem {
    item.(id := id, budget := map[key := amount])
  }

  /** A time at which the grant has not expired. */
  function InTime(grant: Grant): int { if grant.expiresAt.Some? then grant.expiresAt.value - 1 else 0 }

  lemma AskingAuthorizes(cfg: Config, grant: Grant, worker: string, item: WorkItem, id: string, key: string,
          amount: nat)
    requires Fits(cfg, grant, worker, item) && IsIdentifier(id)
    requires key in grant.maxBudget && amount <= grant.maxBudget[key] && key !in cfg.workers[worker].maxBudget
    ensures ValidItem(Asking(item, id, key, amount)) && Asking(item, id, key, amount).parent.None?
    ensures Authorize(cfg, Asking(item, id, key, amount), grant.principal, worker, InTime(grant))
        == Ok((grant, cfg.workers[worker]))
  {
    hide ScopesCovered, ValidScope, IsIdentifier;
  }

  lemma AdmittedUnlisted(tasks: Tasks, r: Record, ceiling: map<string, int>, key: string)
    requires r.item.parent.None? && key !in ceiling && r.item.budget.Keys == {key}
    requires forall k | k in ceiling :: ceiling[k] >= 0 && Load(tasks, Account(r.authority, r.principal), k) == 0
    ensures CheckCreate(tasks, r, ceiling).Ok?
  {
  }

  lemma OtherKeysEmpty(tasks: Tasks, group: Group, id: string, r: Record, k: string)
    requires id !in tasks && Load(tasks, group, k) == 0 && k !in r.item.budget
    ensures Load(tasks[id := r], group, k) == 0
  {
    LoadInsert(tasks, group, k, id, r);
  }

  /** Two records of one account that each use only an unlisted key are admitted one after the other. */
  lemma BothAdmitted(ra: Record, rb: Record, ceiling: map<string, int>, key: string, m: nat)
    requires ra.item.id != rb.item.id && ra.authority == rb.authority && ra.principal == rb.principal
    requires ra.item.parent.None? && rb.item.parent.None? && ra.item.budget == rb.item.budget == map[key := m]
    requires !Terminal(ra.state) && !Terminal(rb.state)
    requires key !in ceiling && forall k | k in ceiling :: ceiling[k] >= 0
    ensures var none: Tasks := map[];
            && CheckCreate(none, ra, ceiling).Ok? && CheckCreate(none[ra.item.id := ra], rb, ceiling).Ok?
            && Load(none[ra.item.id := ra][rb.item.id := rb], Account(ra.authority, ra.principal), key) == 2 * m
  {
    hide Load, CheckCreate;
    var none: Tasks, account := map[], Account(ra.authority, ra.principal);
    var one := none[ra.item.id := ra];
    forall k ensures Load(none, account, k) == 0 { EmptyStore(account, k); }
    forall k | k != key ensures Load(one, account, k) == 0 { OtherKeysEmpty(none, account, ra.item.id, ra, k); }
    LoadInsert(none, account, key, ra.item.id, ra);
    LoadInsert(one, account, key, rb.item.id, rb);
    AdmittedUnlisted(none, ra, ceiling, key);
    AdmittedUnlisted(one, rb, ceiling, key);
  }

  /**
   A key that the grant lists and a usable worker does not is no aggregate ceiling: two tasks that each
   ask for all of it are both admitted, in eight steps from an empty store.
   */
  lemma OneSidedKeyExceeds(cfg: Config, grant: Grant, worker: string, key: string) returns (run: Run)
    requires key in grant.maxBudget && grant.maxBudget[key] > 0
    requires worker in cfg.workers && Opens(cfg, grant, worker) && key !in cfg.workers[worker].maxBudget
    ensures ValidRun(cfg, run) && |run.states| > 0
    ensures Load(Last(run).tasks, Account(cfg.grantDigest(grant), grant.principal), key) == 2 * grant.maxBudget[key]
  {
    var item :| Fits(cfg, grant, worker, item);
    var m: nat := grant.maxBudget[key];
    var now, account := InTime(grant), Account(cfg.grantDigest(grant), grant.principal);
    var a, b := Asking(item, "a", key, m), Asking(item, "b", key, m);
    var ceiling := AggregateCeiling(grant, cfg.workers[worker]);
    assert IsIdentifier("a") && IsIdentifier("b");
    AskingAuthorizes(cfg, grant, worker, item, "a", key, m);
    AskingAuthorizes(cfg, grant, worker, item, "b", key, m);
    assert key !in ceiling;
    hide Fits, Authorize, Load, ValidItem, AggregateCeiling, CheckCreate, IsIdentifier;
    var ra, rb := SubmittedRecord(cfg, a, grant, worker, now), SubmittedRecord(cfg, b, grant, worker, now);
    BothAdmitted(ra, rb, ceiling, key, m);
    run := Started(now);
    StartedIsValid(cfg, now);
    hide ValidRun;
    run := SubmitNew(cfg, run, 0, a, grant, worker);
    run := SubmitNew(cfg, run, 1, b, grant, worker);
  }

  lemma StartedIsValid(cfg: Config, clock: int)
    ensures ValidRun(cfg, Started(clock))
  {
  }

  // ---------------------------------------------------------------- exactly when

  /**
   A grant's ceiling for a key binds all its active tasks in all runs exactly when it is not negative
   and, unless it is zero, every worker that can take work under the grant lists the key as well.
   */
  lemma GrantBudgetIff(cfg: Config, grant: Grant, key: string)
    requires forall a, b | cfg.grantDigest(a) == cfg.grantDigest(b) :: a == b
    requires key in grant.maxBudget
    ensures CeilingBinds(cfg, grant, key) <==>
            && grant.maxBudget[key] >= 0
            && (grant.maxBudget[key] == 0
                || forall worker | worker in cfg.workers && Opens(cfg, grant, worker) ::
                    key in cfg.workers[worker].maxBudget)
  {
    hide ValidRun, Load, Opens;
    var limit, account := grant.maxBudget[key], Account(cfg.grantDigest(grant), grant.principal);
    if limit < 0 {
      StartedIsValid(cfg, 0);
      NotKept(Started(0), 0, account, key, limit);
    } else if limit == 0 {
      ZeroBinds(cfg, grant, key);
    } else if worker :| worker in cfg.workers && Opens(cfg, grant, worker) && key !in cfg.workers[worker].maxBudget {
      var run := OneSidedKeyExceeds(cfg, grant, worker, key);
      NotKept(run, |run.states| - 1, account, key, limit);
    } else {
      GrantBudgetKept(cfg, grant, key);
    }
  }

  lemma NotKept(run: Run, n: nat, account: Group, key: string, limit: int)
    requires n < |run.states| && Load(run.states[n].tasks, account, key) > limit
    ensures !KeptInRun(run, account, key, limit)
  {
    hide Load;
  }

  /** Nobody may ask for any of a key whose ceiling is zero. */
  lemma ZeroBinds(cfg: Config, grant: Grant, key: string)
    requires forall a, b | cfg.grantDigest(a) == cfg.grantDigest(b) :: a == b
    requires key in grant.maxBudget && grant.maxBudget[key] == 0
    ensures CeilingBinds(cfg, grant, key)
  {
    hide ValidRun, Load;
    var account := Account(cfg.grantDigest(grant), grant.principal);
    forall run | ValidRun(cfg, run) ensures KeptInRun(run, account, key, 0) {
      forall n | 0 <= n < |run.states| ensures Load(run.states[n].tasks, account, key) <= 0 {
        RunStoreOk(cfg, run, n);
        NobodyAsks(cfg, run.states[n].tasks, grant, key);
      }
    }
  }

  lemma NobodyAsks(cfg: Config, tasks: Tasks, grant: Grant, key: string)
    requires forall a, b | cfg.grantDigest(a) == cfg.grantDigest(b) :: a == b
    requires TasksOk(cfg, tasks) && key in grant.maxBudget && grant.maxBudget[key] == 0
    ensures Load(tasks, Account(cfg.grantDigest(grant), grant.principal), key) == 0
  {
    hide RecordOk, ScopesCovered, Sum;
    var account := Account(cfg.grantDigest(grant), grant.principal);
    forall id | id in tasks ensures Share(account, tasks[id], key) == 0 {
      assert Granted(cfg, tasks[id]);
    }
    SumOfZeros(Shares(tasks, account, key));
  }
}
