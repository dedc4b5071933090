/**
 Delegation chains and budgets over runs of the coordinator (pipeline/a2a_coordination.py).

 Authority only shrinks from a parent task to its descendants, the parent relation is acyclic, and
 the budgets of active tasks stay within the operator's ceiling and within the parent's budget.
 */
module Delegation {
  import opened Common
  import opened Scopes
  import opened Records
  import opened Budgets
  import opened Coordinator
  import opened StoreInvariant

  // ---------------------------------------------------------------- chains

  /** Each task of the chain names the next one as its parent. */
  ghost predicate Chain(tasks: Tasks, chain: seq<string>) {
    && |chain| >= 1
    && (forall k | 0 <= k < |chain| :: chain[k] in tasks)
    && forall k | 0 <= k < |chain| - 1 :: tasks[chain[k]].item.parent == Some(chain[k + 1])
  }

  lemma ChainTail(tasks: Tasks, chain: seq<string>)
    requires Chain(tasks, chain) && |chain| > 1
    ensures Chain(tasks, chain[1..])
  {
    var tail := chain[1..];
    forall k | 0 <= k < |tail| - 1 ensures tasks[tail[k]].item.parent == Some(tail[k + 1]) {
      assert tail[k] == chain[k + 1] && tail[k + 1] == chain[k + 2];
    }
  }

  lemma ParentEarlier(s: Sys, id: string, i: nat)
    requires OrderOk(s) && i < |s.history.created| && s.history.created[i] == id
    requires id in s.tasks && s.tasks[id].item.parent.Some?
    ensures exists j | 0 <= j < i :: s.history.created[j] == s.tasks[id].item.parent.value
  {
    assert s.tasks[id].item.parent.value in s.history.created[..i];
  }

  lemma {:induction false} ChainDescends(s: Sys, chain: seq<string>, i: nat)
    requires OrderOk(s) && Chain(s.tasks, chain) && |chain| > 1
    requires i < |s.history.created| && s.history.created[i] == chain[0]
    ensures exists j | 0 <= j < i :: s.history.created[j] == chain[|chain| - 1]
    decreases |chain|
  {
    assert s.tasks[chain[0]].item.parent == Some(chain[0 + 1]);
    ParentEarlier(s, chain[0], i);
    var j :| 0 <= j < i && s.history.created[j] == chain[1];
    if |chain| > 2 {
      ChainTail(s.tasks, chain);
      ChainDescends(s, chain[1..], j);
    }
  }

  /** No task is its own ancestor, in any state of any run. */
  lemma ParentsAcyclic(cfg: Config, run: Run, n: nat, chain: seq<string>)
    requires ValidRun(cfg, run) && n < |run.states|
    requires Chain(run.states[n].tasks, chain) && |chain| > 1
    ensures chain[0] != chain[|chain| - 1]
  {
    hide TasksOk, CallsOk, ChildOk;
    RunStoreOk(cfg, run, n);
    var s := run.states[n];
    assert chain[0] in s.history.created;
    var i :| 0 <= i < |s.history.created| && s.history.created[i] == chain[0];
    ChainDescends(s, chain, i);
  }

  // ---------------------------------------------------------------- shrinking authority

  /** What a descendant may do compared with an ancestor. */
  ghost predicate Shrinks(descendant: WorkItem, ancestor: WorkItem) {
    && descendant.effects <= ancestor.effects
    && ScopesCovered(descendant.allowed, ancestor.allowed)
    && ancestor.guarded <= descendant.guarded
  }

  lemma ShrinksTransitive(a: WorkItem, b: WorkItem, c: WorkItem)
    requires Shrinks(a, b) && Shrinks(b, c)
    ensures Shrinks(a, c)
  {
    hide Contains;
    forall scope | scope in a.allowed
      ensures exists container | container in c.allowed :: Contains(container, scope)
    {
      var middle :| middle in b.allowed && Contains(middle, scope);
      var outer :| outer in c.allowed && Contains(outer, middle);
      ContainsPreorder(outer, middle, scope);
    }
  }

  lemma ShrinksReflexive(item: WorkItem)
    ensures Shrinks(item, item)
  {
    hide Contains;
    forall scope | scope in item.allowed
      ensures exists container | container in item.allowed :: Contains(container, scope)
    {
      ContainsPreorder(scope, scope, scope);
    }
  }

  lemma {:induction false} ChainShrinks(tasks: Tasks, chain: seq<string>)
    requires Chain(tasks, chain) && forall id | id in tasks :: ChildOk(tasks, tasks[id].item)
    ensures Shrinks(tasks[chain[0]].item, tasks[chain[|chain| - 1]].item)
    decreases |chain|
  {
    hide Shrinks, ScopesCovered;
    if |chain| == 1 {
      ShrinksReflexive(tasks[chain[0]].item);
    } else {
      ChainTail(tasks, chain);
      ChainShrinks(tasks, chain[1..]);
      assert ChildOk(tasks, tasks[chain[0]].item);
      LinkShrinks(tasks, tasks[chain[0]].item);
      ShrinksTransitive(tasks[chain[0]].item, tasks[chain[1]].item, tasks[chain[|chain| - 1]].item);
    }
  }

  lemma LinkShrinks(tasks: Tasks, item: WorkItem)
    requires item.parent.Some? && ChildOk(tasks, item)
    ensures Shrinks(item, tasks[item.parent.value].item)
  {
  }

  /** The corner that containment leaves open: the path is the root directory of an allowed tree. */
  ghost predicate IsTreeRoot(path: string, scopes: set<string>) {
    exists scope | scope in scopes :: IsTree(scope) && path == Root(scope)
  }

  lemma CoveredPath(inner: set<string>, outer: set<string>, path: string)
    requires ScopesCovered(inner, outer) && PathAllowed(path, inner)
    requires forall scope | scope in inner + outer :: ValidScope(scope)
    ensures PathAllowed(path, outer) || IsTreeRoot(path, outer)
  {
    hide Contains, Allows, ValidScope, IsTree, Root;
    var scope :| scope in inner && Allows(scope, path);
    var container :| container in outer && Contains(container, scope);
    assert scope in inner + outer && container in inner + outer;
    ContainsSound(container, scope, path);
  }

  /**
   Authority only shrinks along every delegation chain of every run: requested effects are a subset
   of every ancestor's, and a path a descendant may change is unguarded at every ancestor and allowed
   by it, save for the root directory of one of the ancestor's allowed trees.
   */
  lemma AuthorityShrinks(cfg: Config, run: Run, n: nat, chain: seq<string>, path: string)
    requires ValidRun(cfg, run) && n < |run.states| && Chain(run.states[n].tasks, chain)
    requires Permitted(run.states[n].tasks[chain[0]].item, path)
    ensures var item := run.states[n].tasks[chain[0]].item;
            var ancestor := run.states[n].tasks[chain[|chain| - 1]].item;
            && item.effects <= ancestor.effects
            && !PathAllowed(path, ancestor.guarded)
            && (PathAllowed(path, ancestor.allowed) || IsTreeRoot(path, ancestor.allowed))
  {
    hide Allows, Contains, ValidScope, DiagnosticsOk, Granted, CallsOk, OrderOk, IsTree, Root;
    RunStoreOk(cfg, run, n);
    var tasks := run.states[n].tasks;
    ChainShrinks(tasks, chain);
    var item, ancestor := tasks[chain[0]].item, tasks[chain[|chain| - 1]].item;
    assert RecordOk(tasks[chain[0]]) && RecordOk(tasks[chain[|chain| - 1]]);
    CoveredPath(item.allowed, ancestor.allowed, path);
  }

  /**
   The same at the top of every chain: the operator's grant, still valid when the task was created, and
   the worker profile.
   */
  lemma WithinOperatorPolicy(cfg: Config, run: Run, n: nat, id: string, path: string)
    requires ValidConfig(cfg) && ValidRun(cfg, run) && n < |run.states| && id in run.states[n].tasks
    requires Permitted(run.states[n].tasks[id].item, path)
    ensures var r := run.states[n].tasks[id];
            && r.item.authorityRef in cfg.authorities && r.worker in cfg.workers
            && var grant, profile := cfg.authorities[r.item.authorityRef], cfg.workers[r.worker];
            && grant.principal == r.principal && grant.root == cfg.root && r.worker in grant.workers
            && (grant.expiresAt.Some? ==> r.createdAt < grant.expiresAt.value)
            && r.item.workflow in grant.workflows && r.item.workflow in profile.workflows
            && r.item.effects <= grant.effects && r.item.effects <= profile.effects
            && (forall key | key in r.item.budget ::
                  && (key in grant.maxBudget || key in profile.maxBudget)
                  && (key in grant.maxBudget ==> r.item.budget[key] <= grant.maxBudget[key])
                  && (key in profile.maxBudget ==> r.item.budget[key] <= profile.maxBudget[key]))
            && (PathAllowed(path, grant.allowed) || IsTreeRoot(path, grant.allowed))
            && (PathAllowed(path, profile.allowed) || IsTreeRoot(path, profile.allowed))
  {
    hide Allows, Contains, ValidScope, DiagnosticsOk, CallsOk, OrderOk, IsTree, Root, ChildOk, ScopesCovered;
    RunStoreOk(cfg, run, n);
    var r := run.states[n].tasks[id];
    assert RecordOk(r) && Granted(cfg, r);
    CoveredPath(r.item.allowed, cfg.authorities[r.item.authorityRef].allowed, path);
    CoveredPath(r.item.allowed, cfg.workers[r.worker].allowed, path);
  }

  /** An idempotent retry only ever sees the same request, and so a record of its own principal. */
  lemma RetryStaysInPrincipal(cfg: Config, run: Run, n: nat, c: nat)
    requires forall a, b | cfg.requestDigest(a) == cfg.requestDigest(b) :: a == b
    requires ValidRun(cfg, run) && n < |run.states| && c in run.states[n].calls
    requires run.states[n].calls[c].pc.SubmitCreate?
    requires run.states[n].calls[c].pc.record.item.id in run.states[n].tasks
    ensures var s := run.states[n];
            var r := s.calls[c].pc.record;
            var stored := s.tasks[r.item.id];
            && (stored.request == r.request <==> stored.item == r.item)
            && (stored.request == r.request ==> stored.principal == r.principal)
  {
    hide RecordOk, ChildOk, OrderOk, ScopesCovered, WithinCeilings;
    RunStoreOk(cfg, run, n);
    assert PcOk(cfg, run.states[n].tasks, run.states[n].calls[c].pc);
  }

  // ---------------------------------------------------------------- budgets over runs

  lemma {:induction false} SumOfZeros(weights: map<string, nat>)
    requires forall k | k in weights :: weights[k] == 0
    ensures Sum(weights) == 0
    decreases |weights|
  {
    if weights != map[] {
      var k :| k in weights;
      SumRemove(weights, k);
      SumOfZeros(weights - {k});
    }
  }

  /** A creation counted by an account lists the key with at most `limit`, or uses none of the key. */
  ghost predicate CreatesWithin(s: Sys, a: Action, authority: string, principal: string, key: string, limit: nat) {
    Creates(s, a) && s.calls[a.c].pc.record.authority == authority && s.calls[a.c].pc.record.principal == principal ==>
      var pc := s.calls[a.c].pc;
      (key in pc.ceiling && pc.ceiling[key] <= limit) || Share(Account(authority, principal), pc.record, key) == 0
  }

  lemma AccountStep(cfg: Config, s: Sys, a: Action, authority: string, principal: string, key: string, limit: nat)
    requires StoreOk(cfg, s) && Enabled(s, a) && CreatesWithin(s, a, authority, principal, key, limit)
    requires Load(s.tasks, Account(authority, principal), key) <= limit
    ensures Load(Next(cfg, s, a).tasks, Account(authority, principal), key) <= limit
  {
    hide Next, RecordOk, Granted, ChildOk, OrderOk, CallsOk, Load, Advances, Sum;
    TasksStep(cfg, s, a);
    var t := Next(cfg, s, a);
    if Creates(s, a) {
      var pc := s.calls[a.c].pc;
      LoadInsert(s.tasks, Account(authority, principal), key, pc.record.item.id, pc.record);
      AdmittedWithinCeilings(s.tasks, pc.record, pc.ceiling, key);
    } else {
      LoadShrinks(s.tasks, t.tasks, Account(authority, principal), key);
    }
  }

  /**
   When a task is created, the active tasks of its account, the new one included, stay within what the grant and
   the worker both list, whichever of the two is stricter.
   */
  lemma CreatedWithinBoth(cfg: Config, run: Run, n: nat, id: string, key: string)
    requires ValidRun(cfg, run) && n < |run.actions| && id !in run.states[n].tasks && id in run.states[n + 1].tasks
    ensures var r := run.states[n + 1].tasks[id];
            && r.item.authorityRef in cfg.authorities && r.worker in cfg.workers
            && var granted, supported := cfg.authorities[r.item.authorityRef].maxBudget,
                cfg.workers[r.worker].maxBudget;
            key in granted && key in supported ==>
              var load := Load(run.states[n + 1].tasks, Account(r.authority, r.principal), key);
              load <= granted[key] && load <= supported[key]
  {
    RunStoreOk(cfg, run, n);
    assert StepAt(cfg, run, n);
    OnlyCreation(cfg, run.states[n], run.actions[n], id);
    var s, c := run.states[n], run.actions[n].c;
    assert PcOk(cfg, s.tasks, s.calls[c].pc);
    hide Next, StoreOk, ValidRun, Load, RecordOk, CheckCreate;
    AdmittedWithinCeilings(s.tasks, s.calls[c].pc.record, s.calls[c].pc.ceiling, key);
  }

  lemma OnlyCreation(cfg: Config, s: Sys, a: Action, id: string)
    requires Enabled(s, a) && id !in s.tasks && id in Next(cfg, s, a).tasks
    ensures a.Advance? && s.calls[a.c].pc.SubmitCreate? && s.calls[a.c].pc.record.item.id == id
    ensures var pc := s.calls[a.c].pc;
            CheckCreate(s.tasks, pc.record, pc.ceiling).Ok? && Next(cfg, s, a).tasks == s.tasks[id := pc.record]
  {
    hide CheckCreate, Authorize, ApplyEvent, BeginDispatch, RenewLease, RequestCancel, ClaimRecovery,
         Classify, AfterReply, AfterNoReply, ForwardCancel;
  }

  /**
   Aggregate budget over all runs: if every creation under an authority and principal that uses the
   key was checked against a ceiling listing it with at most `limit`, the active tasks never exceed it.
   */
  lemma {:induction false} AggregateBudgetKept(cfg: Config, run: Run, n: nat, authority: string, principal: string,
                                               key: string, limit: nat)
    requires ValidRun(cfg, run) && n < |run.states|
    requires forall k | 0 <= k < n :: CreatesWithin(run.states[k], run.actions[k], authority, principal, key, limit)
    ensures Load(run.states[n].tasks, Account(authority, principal), key) <= limit
  {
    hide Next, StoreOk, CreatesWithin, Load;
    if n > 0 {
      AggregateBudgetKept(cfg, run, n - 1, authority, principal, key, limit);
      RunStoreOk(cfg, run, n - 1);
      assert StepAt(cfg, run, n - 1);
      AccountStep(cfg, run.states[n - 1], run.actions[n - 1], authority, principal, key, limit);
    } else {
      EmptyLoad(run.states[0].tasks, Account(authority, principal), key);
    }
  }

  lemma EmptyLoad(tasks: Tasks, group: Group, key: string)
    requires forall id | id in tasks :: !Counts(group, tasks[id])
    ensures Load(tasks, group, key) == 0
  {
    SumOfZeros(Shares(tasks, group, key));
  }

  ghost predicate ChildrenWithin(tasks: Tasks, parent: string) {
    parent in tasks ==>
      forall key | key in tasks[parent].item.budget ::
          Load(tasks, ChildrenOf(parent), key) <= tasks[parent].item.budget[key]
  }

  lemma ChildrenStep(cfg: Config, s: Sys, a: Action, parent: string)
    requires StoreOk(cfg, s) && Enabled(s, a) && ChildrenWithin(s.tasks, parent)
    ensures ChildrenWithin(Next(cfg, s, a).tasks, parent)
  {
    hide Next, Granted, OrderOk, Load, Sum, ValidScope, DiagnosticsOk, ScopesCovered;
    TasksStep(cfg, s, a);
    var t := Next(cfg, s, a);
    if parent in t.tasks {
      forall key | key in t.tasks[parent].item.budget
        ensures Load(t.tasks, ChildrenOf(parent), key) <= t.tasks[parent].item.budget[key]
      {
        if Creates(s, a) {
          CreatedChild(cfg, s, a, parent, key);
        } else {
          LoadShrinks(s.tasks, t.tasks, ChildrenOf(parent), key);
          assert Advances(s.tasks[parent], t.tasks[parent]);
        }
      }
    }
  }

  lemma CreatedChild(cfg: Config, s: Sys, a: Action, parent: string, key: string)
    requires StoreOk(cfg, s) && Creates(s, a) && ChildrenWithin(s.tasks, parent)
    requires var r := s.calls[a.c].pc.record;
             && parent in s.tasks[r.item.id := r] && key in s.tasks[r.item.id := r][parent].item.budget
    ensures var r := s.calls[a.c].pc.record;
            var tasks := s.tasks[r.item.id := r];
            Load(tasks, ChildrenOf(parent), key) <= tasks[parent].item.budget[key]
  {
    hide Granted, OrderOk, Load, Sum, ValidScope, DiagnosticsOk, ScopesCovered;
    var pc := s.calls[a.c].pc;
    var r := pc.record;
    assert PcOk(cfg, s.tasks, pc);
    LoadInsert(s.tasks, ChildrenOf(parent), key, r.item.id, r);
    AdmittedWithinCeilings(s.tasks, r, pc.ceiling, key);
    if parent !in s.tasks {
      forall id | id in s.tasks ensures !Counts(ChildrenOf(parent), s.tasks[id]) {
        assert ChildOk(s.tasks, s.tasks[id].item);
      }
      EmptyLoad(s.tasks, ChildrenOf(parent), key);
    }
  }

  /** In every state of every run, the active direct children of a task stay within its budget. */
  lemma {:induction false} SiblingBudgetKept(cfg: Config, run: Run, n: nat, parent: string)
    requires ValidRun(cfg, run) && n < |run.states|
    ensures ChildrenWithin(run.states[n].tasks, parent)
  {
    hide Next, StoreOk, Load;
    if n > 0 {
      SiblingBudgetKept(cfg, run, n - 1, parent);
      RunStoreOk(cfg, run, n - 1);
      assert StepAt(cfg, run, n - 1);
      ChildrenStep(cfg, run.states[n - 1], run.actions[n - 1], parent);
    }
  }
}
