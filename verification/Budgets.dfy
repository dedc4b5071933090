/**
 Admission of a new task: aggregate budgets, parent authority and sibling budgets
 (`_check_aggregate_budget_unlocked` in pipeline/a2a_coordination.py).
 */
module Budgets {
  import opened Common
  import opened Scopes
  import opened Records

  type Tasks = map<string, Record>

  // ---------------------------------------------------------------- sums over finite maps

  ghost function Sum(weights: map<string, nat>): nat
    decreases |weights|
  {
    if weights == map[] then 0
    else
      var k :| k in weights;
      weights[k] + Sum(weights - {k})
  }

  /** The order in which a sum picks its terms does not matter. */
  lemma {:induction false} SumRemove(weights: map<string, nat>, k: string)
    requires k in weights
    ensures Sum(weights) == weights[k] + Sum(weights - {k})
    decreases |weights|
  {
    var first :| first in weights && Sum(weights) == weights[first] + Sum(weights - {first});
    if first != k {
      SumRemove(weights - {first}, k);
      SumRemove(weights - {k}, first);
      assert weights - {first} - {k} == weights - {k} - {first};
    }
  }

  lemma SumInsert(weights: map<string, nat>, k: string, v: nat)
    requires k !in weights
    ensures Sum(weights[k := v]) == Sum(weights) + v
  {
    SumRemove(weights[k := v], k);
    assert weights[k := v] - {k} == weights;
  }

  lemma {:induction false} SumMonotone(small: map<string, nat>, large: map<string, nat>)
    requires small.Keys <= large.Keys
    requires forall k | k in small :: small[k] <= large[k]
    ensures Sum(small) <= Sum(large)
    decreases |large|
  {
    if large != map[] {
      var k :| k in large;
      SumRemove(large, k);
      if k in small {
        SumRemove(small, k);
        SumMonotone(small - {k}, large - {k});
      } else {
        SumMonotone(small, large - {k});
      }
    } else {
      assert small == map[];
    }
  }

  // ---------------------------------------------------------------- loads

  function Budget(item: WorkItem, key: string): nat {
    if key in item.budget then item.budget[key] else 0
  }

  /** Which active tasks a budget counts. */
  datatype Group = Account(authority: string, principal: string) | ChildrenOf(parent: string)

  predicate Counts(group: Group, r: Record) {
    && !Terminal(r.state)
    && match group
       case Account(authority, principal) => r.authority == authority && r.principal == principal
       case ChildrenOf(parent) => r.item.parent == Some(parent)
  }

  function Share(group: Group, r: Record, key: string): nat {
    if Counts(group, r) then Budget(r.item, key) else 0
  }

  function Shares(tasks: Tasks, group: Group, key: string): map<string, nat> {
    map id | id in tasks :: Share(group, tasks[id], key)
  }

  /** Summed budgets, for one resource key, of the active tasks of a group. */
  ghost function Load(tasks: Tasks, group: Group, key: string): nat {
    Sum(Shares(tasks, group, key))
  }

  lemma LoadInsert(tasks: Tasks, group: Group, key: string, id: string, r: Record)
    requires id !in tasks
    ensures Load(tasks[id := r], group, key) == Load(tasks, group, key) + Share(group, r, key)
  {
    SumInsert(Shares(tasks, group, key), id, Share(group, r, key));
    assert Shares(tasks[id := r], group, key) == Shares(tasks, group, key)[id := Share(group, r, key)];
  }

  /**
   What one stored task adds to a load: its budget for the key while it is active under that authority and
   principal, or as a child of that parent, and nothing otherwise.
   */
  lemma LoadCounts(tasks: Tasks, id: string, key: string)
    requires id in tasks
    ensures var r := tasks[id];
            var active := r.state != Completed && r.state != Failed && r.state != Cancelled && r.state != Rejected;
            var used: nat := if active && key in r.item.budget then r.item.budget[key] else 0;
            && (forall authority, principal ::
                  Load(tasks, Account(authority, principal), key)
                  == Load(tasks - {id}, Account(authority, principal), key)
                     + if r.authority == authority && r.principal == principal then used else 0)
            && (forall parent ::
                  Load(tasks, ChildrenOf(parent), key)
                  == Load(tasks - {id}, ChildrenOf(parent), key) + if r.item.parent == Some(parent) then used else 0)
  {
    forall group ensures Load(tasks, group, key) == Load(tasks - {id}, group, key) + Share(group, tasks[id], key) {
      var others := tasks - {id};
      LoadInsert(others, group, key, id, tasks[id]);
      assert others[id := tasks[id]] == tasks;
    }
    hide Load;
  }

  /** Record updates never raise a load: items are immutable and terminal states absorb. */
  lemma LoadShrinks(before: Tasks, after: Tasks, group: Group, key: string)
    requires before.Keys == after.Keys
    requires forall id | id in before :: Advances(before[id], after[id])
    ensures Load(after, group, key) <= Load(before, group, key)
  {
    forall id | id in before
      ensures Share(group, after[id], key) <= Share(group, before[id], key)
    {
      assert Terminal(before[id].state) ==> WithoutDiagnostics(after[id]).state == before[id].state;
    }
    SumMonotone(Shares(after, group, key), Shares(before, group, key));
  }

  // ---------------------------------------------------------------- admission

  ghost predicate Exceeds(tasks: Tasks, group: Group, item: WorkItem, ceiling: map<string, int>) {
    exists key | key in ceiling :: Budget(item, key) + Load(tasks, group, key) > ceiling[key]
  }

  predicate ScopesCovered(inner: set<string>, outer: set<string>) {
    forall scope | scope in inner :: exists container | container in outer :: Contains(container, scope)
  }

  /** Effects and allowed scopes may only shrink, guarded scopes may only grow. */
  predicate WithinParent(child: WorkItem, parent: WorkItem) {
    && child.effects <= parent.effects
    && ScopesCovered(child.allowed, parent.allowed)
    && ScopesCovered(parent.guarded, child.guarded)
  }

  ghost function CheckCreate(tasks: Tasks, r: Record, ceiling: map<string, int>): Result<(), Code> {
    if Exceeds(tasks, Account(r.authority, r.principal), r.item, ceiling) then Err(AggregateBudgetDenied)
    else if r.item.parent.None? then Ok(())
    else
      var id := r.item.parent.value;
      if id !in tasks || tasks[id].principal != r.principal then Err(TaskNotFound)
      else if !WithinParent(r.item, tasks[id].item) then Err(ParentAuthorityDenied)
      else if Exceeds(tasks, ChildrenOf(id), r.item, tasks[id].item.budget) then Err(ParentBudgetDenied)
      else Ok(())
  }

  /** What each refusal says about the item, the store and the ceiling; an admission means none of it applies. */
  lemma RefusalMeans(tasks: Tasks, r: Record, ceiling: map<string, int>)
    ensures var overdrawn :=
              exists key | key in ceiling ::
                Load(tasks, Account(r.authority, r.principal), key) + Budget(r.item, key) > ceiling[key];
            var visible := r.item.parent.Some? ==>
                             r.item.parent.value in tasks && tasks[r.item.parent.value].principal == r.principal;
            var narrowed := r.item.parent.Some? && visible ==>
                              var parent := tasks[r.item.parent.value].item;
                              && (forall effect | effect in r.item.effects :: effect in parent.effects)
                              && (forall scope | scope in r.item.allowed ::
                                    exists outer | outer in parent.allowed :: Contains(outer, scope))
                              && (forall scope | scope in parent.guarded ::
                                    exists outer | outer in r.item.guarded :: Contains(outer, scope));
            var crowded := r.item.parent.Some? && visible &&
                           exists key | key in tasks[r.item.parent.value].item.budget ::
                             Load(tasks, ChildrenOf(r.item.parent.value), key) + Budget(r.item, key)
                             > tasks[r.item.parent.value].item.budget[key];
            && (CheckCreate(tasks, r, ceiling) == Err(AggregateBudgetDenied) <==> overdrawn)
            && (CheckCreate(tasks, r, ceiling) == Err(TaskNotFound) <==> !overdrawn && !visible)
            && (CheckCreate(tasks, r, ceiling) == Err(ParentAuthorityDenied) <==> !overdrawn && visible && !narrowed)
            && (CheckCreate(tasks, r, ceiling) == Err(ParentBudgetDenied) <==>
                  !overdrawn && visible && narrowed && crowded)
            && (CheckCreate(tasks, r, ceiling).Ok? <==> !overdrawn && visible && narrowed && !crowded)
  {
    hide Load, Budget, Contains;
  }

  /** Admission keeps both ceilings for the store that holds the new task. */
  lemma AdmittedWithinCeilings(tasks: Tasks, r: Record, ceiling: map<string, int>, key: string)
    requires CheckCreate(tasks, r, ceiling).Ok? && r.item.id !in tasks
    ensures key in ceiling ==>
              Load(tasks[r.item.id := r], Account(r.authority, r.principal), key) <= ceiling[key]
    ensures r.item.parent.Some? && key in tasks[r.item.parent.value].item.budget ==>
              Load(tasks[r.item.id := r], ChildrenOf(r.item.parent.value), key)
              <= tasks[r.item.parent.value].item.budget[key]
  {
    LoadInsert(tasks, Account(r.authority, r.principal), key, r.item.id, r);
    if r.item.parent.Some? {
      LoadInsert(tasks, ChildrenOf(r.item.parent.value), key, r.item.id, r);
    }
  }

  // ---------------------------------------------------------------- what one ceiling protects

  /** Whatever the store, admitting this record keeps its account within the limit for the key. */
  ghost predicate KeepsAccount(r: Record, ceiling: map<string, int>, key: string, limit: nat) {
    forall tasks: Tasks | r.item.id !in tasks && CheckCreate(tasks, r, ceiling).Ok?
                          && Load(tasks, Account(r.authority, r.principal), key) <= limit ::
      Load(tasks[r.item.id := r], Account(r.authority, r.principal), key) <= limit
  }

  /** A record of the same principal and authority that budgets only this. */
  function Sibling(r: Record, id: string, budget: map<string, nat>): Record {
    NewRecord(r.item.(id := id, parent := None, budget := budget),
              r.request, r.principal, r.worker, r.authority, r.profile, 0)
  }

  lemma SameScopesCovered(scopes: set<string>)
    ensures ScopesCovered(scopes, scopes)
  {
    forall scope | scope in scopes ensures exists container | container in scopes :: Contains(container, scope) {
      ContainsPreorder(scope, scope, scope);
    }
  }

  lemma EmptyStore(group: Group, key: string)
    ensures Load(map[], group, key) == 0
  {
    assert Shares(map[], group, key) == map[];
  }

  /** A store that holds the record's parent, if it names one, and is otherwise empty. */
  function OnlyParent(r: Record): Tasks {
    if r.item.parent.None? then map[]
    else map[r.item.parent.value := Sibling(r, r.item.parent.value, map[])]
  }

  lemma OnlyParentLoads(r: Record, key: string)
    ensures Load(OnlyParent(r), Account(r.authority, r.principal), key) == 0
  {
    EmptyStore(Account(r.authority, r.principal), key);
    if r.item.parent.Some? {
      var id := r.item.parent.value;
      var empty: Tasks := map[];
      LoadInsert(empty, Account(r.authority, r.principal), key, id, Sibling(r, id, map[]));
      assert OnlyParent(r) == empty[id := Sibling(r, id, map[])];
    }
  }

  /** The store that fills the account up to the given amount of one key. */
  function Filled(r: Record, key: string, amount: nat): Tasks {
    OnlyParent(r)[FillerId(r) := Sibling(r, FillerId(r), map[key := amount])]
  }

  function FillerId(r: Record): string {
    r.item.id + "x" + if r.item.parent.Some? then r.item.parent.value else ""
  }

  lemma FillerIsNew(r: Record)
    requires GoodIds(r.item)
    ensures FillerId(r) != r.item.id && FillerId(r) !in OnlyParent(r)
  {
    assert |FillerId(r)| > |r.item.id|;
    if r.item.parent.Some? { assert |FillerId(r)| > |r.item.parent.value|; }
  }

  lemma FilledLoads(r: Record, key: string, amount: nat, k: string)
    requires GoodIds(r.item)
    ensures Load(Filled(r, key, amount), Account(r.authority, r.principal), k) == if k == key then amount else 0
  {
    FillerIsNew(r);
    OnlyParentLoads(r, k);
    hide OnlyParent, Load;
    LoadInsert(OnlyParent(r), Account(r.authority, r.principal), k, FillerId(r),
        Sibling(r, FillerId(r), map[key := amount]));
  }

  lemma AdmittedWhenFilled(r: Record, ceiling: map<string, int>, key: string, amount: nat)
    requires GoodIds(r.item) && !Exceeds(map[], Account(r.authority, r.principal), r.item, ceiling)
    requires key in ceiling ==> Budget(r.item, key) + amount <= ceiling[key]
    ensures r.item.id !in Filled(r, key, amount) && CheckCreate(Filled(r, key, amount), r, ceiling).Ok?
  {
    hide Load;
    var tasks := Filled(r, key, amount);
    FillerIsNew(r);
    forall k | k in ceiling
      ensures Budget(r.item, k) + Load(tasks, Account(r.authority, r.principal), k) <= ceiling[k]
    {
      FilledLoads(r, key, amount, k);
      EmptyStore(Account(r.authority, r.principal), k);
    }
    SameScopesCovered(r.item.allowed);
    SameScopesCovered(r.item.guarded);
  }

  /**
   Exactly which admissions keep an account within a limit: the ceiling lists the key with at most the
   limit, or the item uses none of it, or the item is never admitted at all.
   */
  lemma AdmissionKeepsIff(r: Record, ceiling: map<string, int>, key: string, limit: nat)
    requires GoodIds(r.item)
    ensures KeepsAccount(r, ceiling, key, limit) <==>
            || (key in ceiling && ceiling[key] <= limit)
            || Share(Account(r.authority, r.principal), r, key) == 0
            || Exceeds(map[], Account(r.authority, r.principal), r.item, ceiling)
  {
    var account := Account(r.authority, r.principal);
    if Exceeds(map[], account, r.item, ceiling) {
      var k :| k in ceiling && Budget(r.item, k) + Load(map[], account, k) > ceiling[k];
      EmptyStore(account, k);
      forall tasks ensures Exceeds(tasks, account, r.item, ceiling) {
        assert Budget(r.item, k) + Load(tasks, account, k) > ceiling[k];
      }
    } else if (key in ceiling && ceiling[key] <= limit) || Share(account, r, key) == 0 {
      forall tasks: Tasks | r.item.id !in tasks && CheckCreate(tasks, r, ceiling).Ok? &&
          Load(tasks, account, key) <= limit
        ensures Load(tasks[r.item.id := r], account, key) <= limit
      {
        AdmittedWithinCeilings(tasks, r, ceiling, key);
        LoadInsert(tasks, account, key, r.item.id, r);
      }
    } else {
      var amount: nat := if Budget(r.item, key) > limit then 0 else limit - Budget(r.item, key) + 1;
      EmptyStore(account, key);
      AdmittedWhenFilled(r, ceiling, key, amount);
      var tasks := Filled(r, key, amount);
      FilledLoads(r, key, amount, key);
      LoadInsert(tasks, account, key, r.item.id, r);
    }
  }
}
