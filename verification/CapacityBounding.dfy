/**
 Capacity bounding of guarded-command candidates (`_correct_v2_candidate` and `_hw_invariant_ast` in
 pipeline/behavior_correction.py).

 The rewrite clamps or adds integer bounds, strengthens guards of growing operations, and adds
 hardware invariants.
 */
module CapacityBounding {
  import opened Common
  import opened GuardedCommands
  import opened LinearPeaks

  // ---------------------------------------------------------------- the rewrite

  function Clamp(v: Variable, capacity: int): Variable {
    if !v.IntVar? then v
    else if v.bound.None? then v.(bound := Some(Bound(0, capacity)))
    else if v.bound.value.hi > capacity then v.(bound := Some(Bound(v.bound.value.lo, capacity)))
    else v
  }

  /** The least change that bounds a variable by the capacity, and no change when it already is. */
  lemma ClampMeans(v: Variable, capacity: int, x: int)
    ensures var after := Clamp(v, capacity);
            && (!v.IntVar? ==> after == v)
            && (v.IntVar? ==>
                  && after.IntVar? && after == v.(bound := after.bound) && after.bound.Some?
                  && after.bound.value.hi <= capacity
                  && (v.bound.None? ==> after.bound == Some(Bound(0, capacity)))
                  && (v.bound.Some? ==>
                        && after.bound.value.lo == v.bound.value.lo
                        && (after.bound.value.lo <= x <= after.bound.value.hi <==>
                            v.bound.value.lo <= x <= v.bound.value.hi && x <= capacity))
                  && (v.bound.Some? && v.bound.value.hi <= capacity ==> after == v))
  {
  }

  /** The variable gains a bound or has it clamped. */
  predicate Rebounds(v: Variable, capacity: int) {
    v.IntVar? && (v.bound.None? || v.bound.value.hi > capacity)
  }

  /** An effect whose value adds a positive integer literal, whatever it adds it to. */
  predicate Grows(e: Effect) {
    e.value.Binary? && e.value.op == Add && e.value.right.Integer? && e.value.right.value > 0
  }

  function GrowthGuard(field: string, hi: int): Expr {
    Binary(Lt, Field(field), Integer(hi))
  }

  /** `_hw_invariant_ast`. */
  function HardwareInvariant(name: string, lo: int, hi: int): Expr {
    Binary(And, Binary(Gte, Field(name), Integer(lo)), Binary(Lte, Field(name), Integer(hi)))
  }

  predicate HasGuard(guards: seq<Condition>, e: Expr) {
    exists k | 0 <= k < |guards| :: guards[k].expr == e
  }

  /** Which growth guards an operation needs: one per growing effect on a rebounded variable. */
  predicate NeedsGuard(vars: seq<Variable>, capacity: int, effects: seq<Effect>, e: Expr) {
    exists k, m | 0 <= k < |vars| && 0 <= m < |effects| ::
      Rebounds(vars[k], capacity) && Grows(effects[m]) && effects[m].target == vars[k].name
      && e == GrowthGuard(vars[k].name, capacity)
  }

  /** Same name and effects; the old guards, then growth guards, none missing and none added twice. */
  ghost predicate OperationBounded(vars: seq<Variable>, capacity: int, op: Operation, bounded: Operation) {
    && bounded.name == op.name && bounded.effects == op.effects
    && op.guards <= bounded.guards
    && (forall e :: NeedsGuard(vars, capacity, op.effects, e) ==> HasGuard(bounded.guards, e))
    && (forall k | |op.guards| <= k < |bounded.guards| ::
        NeedsGuard(vars, capacity, op.effects, bounded.guards[k].expr))
    && (forall k | |op.guards| <= k < |bounded.guards| :: !HasGuard(bounded.guards[..k], bounded.guards[k].expr))
  }

  /** The added invariants say that every integer variable is within its bound. */
  ghost predicate InvariantsAdded(vars: seq<Variable>, stated: seq<Condition>, invariants: seq<Condition>) {
    && stated <= invariants
    && (forall k | |stated| <= k < |invariants| ::
          exists v | 0 <= v < |vars| :: StatesBound(vars[v], invariants[k].expr))
    && (forall v | 0 <= v < |vars| && vars[v].IntVar? && vars[v].bound.Some? ::
          exists k | |stated| <= k < |invariants| :: StatesBound(vars[v], invariants[k].expr))
  }

  predicate StatesBound(v: Variable, e: Expr) {
    v.IntVar? && v.bound.Some? && e == HardwareInvariant(v.name, v.bound.value.lo, v.bound.value.hi)
  }

  function BoundCondition(name: string, b: Bound): Condition {
    Condition("inv_hw_bound_" + name, HardwareInvariant(name, b.lo, b.hi))
  }

  /** One condition for every bounded integer variable, in order. */
  function BoundConditions(vars: seq<Variable>): seq<Condition> {
    if vars == [] then []
    else
      var v := vars[|vars| - 1];
      BoundConditions(vars[..|vars| - 1])
      + if v.IntVar? && v.bound.Some?
        then [BoundCondition(v.name, v.bound.value)] else []
  }

  /** What the rewrite promises about its result. */
  ghost predicate BoundedOf(spec: Spec, capacity: int, bounded: Spec) {
    && |bounded.vars| == |spec.vars| && |bounded.ops| == |spec.ops|
    && (forall k | 0 <= k < |spec.vars| :: bounded.vars[k] == Clamp(spec.vars[k], capacity))
    && (forall k | 0 <= k < |spec.ops| :: OperationBounded(spec.vars, capacity, spec.ops[k], bounded.ops[k]))
    && InvariantsAdded(bounded.vars, spec.invariants, bounded.invariants)
    && bounded.invariants == spec.invariants + BoundConditions(bounded.vars)
  }

  /** The clamped or newly bounded names among the first variables, with their new upper bound. */
  ghost predicate ChangedOk(vars: seq<Variable>, n: nat, capacity: int, changed: map<string, int>)
    requires n <= |vars|
  {
    && (forall name | name in changed ::
          changed[name] == capacity && exists k | 0 <= k < n :: Rebounds(vars[k], capacity) && vars[k].name == name)
    && (forall k | 0 <= k < n && Rebounds(vars[k], capacity) :: vars[k].name in changed)
  }

  lemma ChangedStep(vars: seq<Variable>, n: nat, capacity: int, before: map<string, int>, after: map<string, int>)
    requires n < |vars| && ChangedOk(vars, n, capacity, before)
    requires after == if Rebounds(vars[n], capacity) then before[vars[n].name := capacity] else before
    ensures ChangedOk(vars, n + 1, capacity, after)
  {
    hide Rebounds;
    forall name | name in after
      ensures exists k | 0 <= k < n + 1 :: Rebounds(vars[k], capacity) && vars[k].name == name
    {
      if name in before {
        var k :| 0 <= k < n && Rebounds(vars[k], capacity) && vars[k].name == name;
      }
    }
  }

  method CorrectCandidate(spec: Spec, capacity: int) returns (bounded: Spec)
    ensures BoundedOf(spec, capacity, bounded)
  {
    var vars: seq<Variable> := [];
    var changed: map<string, int> := map[];
    for i := 0 to |spec.vars|
      invariant |vars| == i && forall k | 0 <= k < i :: vars[k] == Clamp(spec.vars[k], capacity)
      invariant ChangedOk(spec.vars, i, capacity, changed)
    {
      var v := spec.vars[i];
      ghost var before := changed;
      if v.IntVar? {
        if v.bound.None? {
          v := v.(bound := Some(Bound(0, capacity)));
          changed := changed[v.name := capacity];
        } else if v.bound.value.hi > capacity {
          v := v.(bound := Some(Bound(v.bound.value.lo, capacity)));
          changed := changed[v.name := capacity];
        }
      }
      vars := vars + [v];
      ChangedStep(spec.vars, i, capacity, before, changed);
      hide ChangedOk;
    }
    hide OperationBounded, InvariantsAdded, BoundConditions;
    var ops := BoundOperations(spec.vars, capacity, changed, spec.ops);
    var invariants := AddBoundInvariants(vars, spec.invariants);
    ConditionsAdded(vars, spec.invariants);
    bounded := Spec(vars, ops, invariants);
  }

  /** The loop over operations. */
  method BoundOperations(vars: seq<Variable>, capacity: int, changed: map<string, int>, ops: seq<Operation>)
    returns (bounded: seq<Operation>)
    requires ChangedOk(vars, |vars|, capacity, changed)
    ensures |bounded| == |ops| && forall k | 0 <= k < |ops| :: OperationBounded(vars, capacity, ops[k], bounded[k])
  {
    hide OperationBounded, Rebounds;
    bounded := [];
    for i := 0 to |ops|
      invariant |bounded| == i && forall k | 0 <= k < i :: OperationBounded(vars, capacity, ops[k], bounded[k])
    {
      var op := AddGrowthGuards(vars, capacity, changed, ops[i]);
      bounded := bounded + [op];
    }
  }

  /** The closing comprehension: one invariant per integer variable, after the ones that were there. */
  method AddBoundInvariants(vars: seq<Variable>, stated: seq<Condition>) returns (invariants: seq<Condition>)
    ensures invariants == stated + BoundConditions(vars)
  {
    hide HardwareInvariant;
    invariants := stated;
    for i := 0 to |vars|
      invariant invariants == stated + BoundConditions(vars[..i])
    {
      var v := vars[i];
      assert vars[..i + 1][..i] == vars[..i];
      if v.IntVar? && v.bound.Some? {
        invariants := invariants + [BoundCondition(v.name, v.bound.value)];
      }
    }
    assert vars[..|vars|] == vars;
  }

  lemma {:induction false} ConditionsAdded(vars: seq<Variable>, stated: seq<Condition>)
    ensures InvariantsAdded(vars, stated, stated + BoundConditions(vars))
    decreases |vars|
  {
    if vars != [] {
      var n := |vars| - 1;
      ConditionsAdded(vars[..n], stated);
      hide InvariantsAdded;
      assert vars[..n + 1] == vars;
      MoreInvariants(vars, n, stated, stated + BoundConditions(vars[..n]), stated + BoundConditions(vars));
    }
  }

  lemma MoreInvariants(vars: seq<Variable>, i: nat, stated: seq<Condition>, before: seq<Condition>,
          after: seq<Condition>)
    requires i < |vars| && InvariantsAdded(vars[..i], stated, before)
    requires if vars[i].IntVar? && vars[i].bound.Some?
             then |after| == |before| + 1 && before <= after && StatesBound(vars[i], after[|before|].expr)
             else after == before
    ensures InvariantsAdded(vars[..i + 1], stated, after)
  {
    hide StatesBound;
    var fewer, more := vars[..i], vars[..i + 1];
    forall k | |stated| <= k < |after|
      ensures exists v | 0 <= v < |more| :: StatesBound(more[v], after[k].expr)
    {
      if k < |before| {
        var v :| 0 <= v < |fewer| && StatesBound(fewer[v], before[k].expr);
        assert StatesBound(more[v], after[k].expr);
      } else {
        assert StatesBound(more[i], after[k].expr);
      }
    }
    forall v | 0 <= v < |more| && more[v].IntVar? && more[v].bound.Some?
      ensures exists k | |stated| <= k < |after| :: StatesBound(more[v], after[k].expr)
    {
      if v < i {
        assert fewer[v] == more[v];
        var k :| |stated| <= k < |before| && StatesBound(fewer[v], before[k].expr);
        assert StatesBound(more[v], after[k].expr);
      } else {
        assert StatesBound(more[v], after[|before|].expr);
      }
    }
  }

  /** After some effects, the guards are the old ones and then the growth guards those effects need, each once. */
  ghost predicate GrownTo(vars: seq<Variable>, capacity: int, changed: map<string, int>, op: Operation, m: nat,
                          guards: seq<Condition>)
    requires m <= |op.effects|
  {
    && op.guards <= guards
    && (forall k | |op.guards| <= k < |guards| :: NeedsGuard(vars, capacity, op.effects, guards[k].expr))
    && (forall k | |op.guards| <= k < |guards| :: !HasGuard(guards[..k], guards[k].expr))
    && (forall n | 0 <= n < m && Grows(op.effects[n]) && op.effects[n].target in changed ::
          HasGuard(guards, GrowthGuard(op.effects[n].target, capacity)))
  }

  lemma GrownStep(vars: seq<Variable>, capacity: int, changed: map<string, int>, op: Operation, m: nat,
                  before: seq<Condition>, after: seq<Condition>)
    requires m < |op.effects| && ChangedOk(vars, |vars|, capacity, changed)
    requires GrownTo(vars, capacity, changed, op, m, before)
    requires var effect := op.effects[m];
             if Grows(effect) && effect.target in changed && !HasGuard(before, GrowthGuard(effect.target, capacity))
             then |after| == |before| + 1 && before <= after
                  && after[|before|].expr == GrowthGuard(effect.target, capacity)
             else after == before
    ensures GrownTo(vars, capacity, changed, op, m + 1, after)
  {
    if after != before {
      var effect := op.effects[m];
      hide Grows, Rebounds;
      assert NeedsGuard(vars, capacity, op.effects, after[|before|].expr) by {
        var v :| 0 <= v < |vars| && Rebounds(vars[v], capacity) && vars[v].name == effect.target;
      }
      hide NeedsGuard;
      assert after[..|before|] == before;
      forall k | |op.guards| <= k < |before| ensures !HasGuard(after[..k], after[k].expr) {
        assert after[..k] == before[..k] && after[k] == before[k];
      }
      forall e | HasGuard(before, e) ensures HasGuard(after, e) {
        var k :| 0 <= k < |before| && before[k].expr == e;
        assert after[k] == before[k];
      }
    }
  }

  /** The inner loop over an operation's effects. */
  method AddGrowthGuards(vars: seq<Variable>, capacity: int, changed: map<string, int>, op: Operation)
    returns (bounded: Operation)
    requires ChangedOk(vars, |vars|, capacity, changed)
    ensures OperationBounded(vars, capacity, op, bounded)
  {
    var guards := op.guards;
    for m := 0 to |op.effects|
      invariant GrownTo(vars, capacity, changed, op, m, guards)
    {
      var effect := op.effects[m];
      ghost var before := guards;
      if Grows(effect) && effect.target in changed {
        var growth := GrowthGuard(effect.target, changed[effect.target]);
        if !HasGuard(guards, growth) {
          guards := guards + [Condition("g_hw_growth_" + op.name + "_" + effect.target, growth)];
        }
      }
      GrownStep(vars, capacity, changed, op, m, before, guards);
    }
    bounded := op.(guards := guards);
  }

  // ---------------------------------------------------------------- refinement

  lemma {:induction false} SameInitial(a: seq<Variable>, b: seq<Variable>)
    requires |a| == |b| && forall k | 0 <= k < |a| :: b[k].name == a[k].name && InitialOf(b[k]) == InitialOf(a[k])
    ensures Initial(a) == Initial(b)
  {
    if a != [] {
      SameInitial(a[..|a| - 1], b[..|b| - 1]);
    }
  }

  lemma ClampKeeps(v: Variable, capacity: int)
    ensures Clamp(v, capacity).name == v.name && InitialOf(Clamp(v, capacity)) == InitialOf(v)
  {
  }

  /** Guards only get stronger and effects stay: every run of the bounded machine is a run of the original. */
  lemma BoundedRefines(spec: Spec, capacity: int, bounded: Spec, run: Run)
    requires BoundedOf(spec, capacity, bounded) && RunOf(bounded, run)
    ensures RunOf(spec, run)
  {
    hide Holds, Computed, Clamp, InvariantsAdded, HasGuard, NeedsGuard, InitialOf, Initial;
    forall k | 0 <= k < |spec.vars|
      ensures bounded.vars[k].name == spec.vars[k].name && InitialOf(bounded.vars[k]) == InitialOf(spec.vars[k])
    {
      ClampKeeps(spec.vars[k], capacity);
    }
    SameInitial(spec.vars, bounded.vars);
    forall i | 0 <= i < |run.labels|
      ensures StepOf(spec, run.states[i], run.labels[i], run.states[i + 1])
    {
      assert StepOf(bounded, run.states[i], run.labels[i], run.states[i + 1]);
      var op, strict := spec.ops[run.labels[i]], bounded.ops[run.labels[i]];
      assert OperationBounded(spec.vars, capacity, op, strict);
      forall k | 0 <= k < |op.guards| ensures Holds(op.guards[k].expr, run.states[i]) {
        assert strict.guards[k] == op.guards[k];
        assert Holds(strict.guards[k].expr, run.states[i]);
      }
    }
  }

  // ---------------------------------------------------------------- the added invariants hold

  /** The ranges of the integer variables as the rewrite leaves them. */
  function Ranges(vars: seq<Variable>, capacity: int): seq<Range> {
    if vars == [] then []
    else
      var v := Clamp(vars[|vars| - 1], capacity);
      Ranges(vars[..|vars| - 1], capacity)
      + if v.IntVar? && v.bound.Some? then [Range(v.name, v.bound.value.lo, v.bound.value.hi)] else []
  }

  /** The box in which an operation with the growth guard for a field fires. */
  function Guarded(ranges: seq<Range>, field: string, hi: int): seq<Range> {
    if ranges == [] then []
    else
      var last := ranges[|ranges| - 1];
      Guarded(ranges[..|ranges| - 1], field, hi)
      + [if last.name == field && last.hi >= hi then last.(hi := hi - 1) else last]
  }

  /** The box in which an effect on a rebounded variable fires: growth guards cut the variable's range. */
  function FiringBox(vars: seq<Variable>, capacity: int, e: Effect): seq<Range> {
    var ranges := Ranges(vars, capacity);
    if Grows(e) then Guarded(ranges, e.target, capacity) else ranges
  }

  /** The largest value the effect can compute there fits the capacity: decided from the candidate's text. */
  predicate PeakFits(vars: seq<Variable>, capacity: int, e: Effect) {
    !NonEmpty(FiringBox(vars, capacity, e)) || Peak(e.value, FiringBox(vars, capacity, e)) <= capacity
  }

  /** Every effect on a rebounded variable is of sort int and fits. */
  predicate EffectsFit(spec: Spec, capacity: int) {
    forall k, m, v | 0 <= k < |spec.ops| && 0 <= m < |spec.ops[k].effects| && 0 <= v < |spec.vars|
                     && Rebounds(spec.vars[v], capacity) && spec.ops[k].effects[m].target == spec.vars[v].name ::
      EffectFits(spec, capacity, spec.ops[k].effects[m])
  }

  predicate EffectFits(spec: Spec, capacity: int, e: Effect) {
    IntSorted(e.value, Ranges(spec.vars, capacity)) && PeakFits(spec.vars, capacity, e)
  }

  predicate Within(st: State, v: Variable) {
    v.IntVar? && v.bound.Some? && v.name in st && v.bound.value.lo <= st[v.name] <= v.bound.value.hi
  }

  /** What the original machine keeps by itself: lower bounds, and the bounds that are left alone. */
  ghost predicate OriginalKeeps(spec: Spec, capacity: int) {
    forall run, i, v | RunOf(spec, run) && 0 <= i < |run.states| && 0 <= v < |spec.vars| && spec.vars[v].IntVar? ::
      var name, st := spec.vars[v].name, run.states[i];
      && name in st
      && if Rebounds(spec.vars[v], capacity) then LowerBound(spec.vars[v]) <= st[name] else Within(st, spec.vars[v])
  }

  /** The lower bound the variable has after the rewrite. */
  function LowerBound(v: Variable): int
    requires v.IntVar?
  {
    if v.bound.None? then 0 else v.bound.value.lo
  }

  lemma {:induction false} ComputedTarget(effects: seq<Effect>, st: State, name: string)
    requires Computed(effects, st).Some? && name in Computed(effects, st).value
    ensures exists m | 0 <= m < |effects| ::
        effects[m].target == name && Eval(effects[m].value, st) == Some(Computed(effects, st).value[name])
  {
    var n := |effects| - 1;
    if effects[n].target == name {
      assert Eval(effects[n].value, st) == Some(Computed(effects, st).value[name]);
    } else {
      ComputedTarget(effects[..n], st, name);
      var m :| 0 <= m < n && effects[..n][m].target == name &&
          Eval(effects[..n][m].value, st) == Some(Computed(effects, st).value[name]);
      assert effects[m] == effects[..n][m];
    }
  }

  lemma GrowthGuardMeans(field: string, hi: int, st: State)
    ensures Holds(GrowthGuard(field, hi), st) <==> field in st && st[field] < hi
  {
    assert Eval(Field(field), st) == if field in st then Some(st[field]) else None;
    assert Eval(Integer(hi), st) == Some(hi);
  }

  /** With the growth guard in place, a growing operation is enabled only below the capacity. */
  lemma GuardStops(spec: Spec, capacity: int, op: Operation, st: State, v: nat, m: nat)
    requires v < |spec.vars| && Rebounds(spec.vars[v], capacity) && m < |op.effects|
    requires op.effects[m].target == spec.vars[v].name && Grows(op.effects[m])
    requires GuardsHold(op, st)
    requires forall e :: NeedsGuard(spec.vars, capacity, op.effects, e) ==> HasGuard(op.guards, e)
    ensures spec.vars[v].name in st && st[spec.vars[v].name] < capacity
  {
    hide Eval, Holds, Rebounds, Grows, GrowthGuard;
    var growth := GrowthGuard(spec.vars[v].name, capacity);
    assert NeedsGuard(spec.vars, capacity, op.effects, growth);
    var g :| 0 <= g < |op.guards| && op.guards[g].expr == growth;
    assert Holds(op.guards[g].expr, st);
    GrowthGuardMeans(spec.vars[v].name, capacity, st);
  }

  // ---- the box of in-bounds states

  lemma {:induction false} InRanges(vars: seq<Variable>, capacity: int, k: nat) returns (v: nat)
    requires k < |Ranges(vars, capacity)|
    ensures v < |vars| && vars[v].IntVar? && vars[v].name == Ranges(vars, capacity)[k].name
    ensures Clamp(vars[v], capacity).bound == Some(Bound(Ranges(vars, capacity)[k].lo, Ranges(vars, capacity)[k].hi))
    decreases |vars|
  {
    var init := vars[..|vars| - 1];
    if k < |Ranges(init, capacity)| { v := InRanges(init, capacity, k); } else { v := |vars| - 1; }
  }

  lemma {:induction false} RangesDistinct(vars: seq<Variable>, capacity: int)
    requires UniqueNames(vars)
    ensures DistinctRanges(Ranges(vars, capacity))
    decreases |vars|
  {
    if vars != [] {
      var init, last := vars[..|vars| - 1], vars[|vars| - 1];
      RangesDistinct(init, capacity);
      forall k | 0 <= k < |Ranges(init, capacity)| ensures Ranges(init, capacity)[k].name != last.name {
        var v := InRanges(init, capacity, k);
        assert init[v] == vars[v];
      }
    }
  }

  lemma {:induction false} GuardedAt(ranges: seq<Range>, field: string, hi: int)
    ensures var g := Guarded(ranges, field, hi);
            |g| == |ranges| && forall k | 0 <= k < |g| ::
              g[k] == if ranges[k].name == field && ranges[k].hi >= hi then ranges[k].(hi := hi - 1) else ranges[k]
    decreases |ranges|
  {
    if ranges != [] { GuardedAt(ranges[..|ranges| - 1], field, hi); }
  }

  lemma GuardedDistinct(ranges: seq<Range>, field: string, hi: int)
    requires DistinctRanges(ranges)
    ensures DistinctRanges(Guarded(ranges, field, hi))
    ensures forall name :: Declared(Guarded(ranges, field, hi), name) <==> Declared(ranges, name)
  {
    hide Guarded;
    GuardedAt(ranges, field, hi);
    var g := Guarded(ranges, field, hi);
    forall name ensures Declared(g, name) <==> Declared(ranges, name) {
      if Declared(ranges, name) {
        var k :| 0 <= k < |ranges| && ranges[k].name == name;
        assert g[k].name == name;
      }
    }
  }

  lemma {:induction false} SameSort(e: Expr, a: seq<Range>, b: seq<Range>)
    requires forall name :: Declared(a, name) <==> Declared(b, name)
    ensures IntSorted(e, a) <==> IntSorted(e, b)
    decreases e
  {
    match e
    case Old(inner) => SameSort(inner, a, b);
    case Binary(_, l, r) =>
      SameSort(l, a, b);
      SameSort(r, a, b);
    case _ =>
  }

  /** Within the ranges, the growth guard holds exactly in the box it cuts. */
  lemma GuardCutsBox(ranges: seq<Range>, field: string, hi: int, st: State)
    requires Declared(ranges, field)
    ensures InBox(Guarded(ranges, field, hi), st) <==> InBox(ranges, st) && Holds(GrowthGuard(field, hi), st)
  {
    hide Guarded, Holds, GrowthGuard;
    GuardedAt(ranges, field, hi);
    GrowthGuardMeans(field, hi, st);
    var g := Guarded(ranges, field, hi);
    var f :| 0 <= f < |ranges| && ranges[f].name == field;
    if InBox(g, st) {
      assert st[g[f].name] <= g[f].hi;
      forall k | 0 <= k < |ranges|
        ensures ranges[k].name in st && ranges[k].lo <= st[ranges[k].name] <= ranges[k].hi
      {
        assert g[k].name in st && g[k].lo <= st[g[k].name] <= g[k].hi;
      }
    }
    if InBox(ranges, st) && st[field] < hi {
      forall k | 0 <= k < |g| ensures g[k].name in st && g[k].lo <= st[g[k].name] <= g[k].hi {
        assert ranges[k].name in st && ranges[k].lo <= st[ranges[k].name] <= ranges[k].hi;
      }
    }
  }

  /** An in-bounds state in which the guard that the rewrite adds for the effect, if it adds one, holds. */
  predicate Fires(vars: seq<Variable>, capacity: int, e: Effect, st: State) {
    InBox(Ranges(vars, capacity), st) && (Grows(e) ==> Holds(GrowthGuard(e.target, capacity), st))
  }

  /**
   Exactly which effects keep a rebounded variable within the capacity, for every effect of sort int,
   guarded for growth or not: the computed value fits in every state in which the effect fires if and
   only if the peak does.
   */
  lemma EffectKeepsIff(vars: seq<Variable>, capacity: int, e: Effect)
    requires UniqueNames(vars) && IntSorted(e.value, Ranges(vars, capacity))
    requires Declared(Ranges(vars, capacity), e.target)
    ensures (forall st: State | Fires(vars, capacity, e, st) ::
               Eval(e.value, st).Some? && Eval(e.value, st).value <= capacity)
            <==> PeakFits(vars, capacity, e)
  {
    var ranges, box := Ranges(vars, capacity), FiringBox(vars, capacity, e);
    RangesDistinct(vars, capacity);
    GuardedDistinct(ranges, e.target, capacity);
    SameSort(e.value, ranges, box);
    BelowCapIff(e.value, box, capacity);
    hide Ranges, Guarded, Holds, Eval, InBox, Grows, Peak, GrowthGuard;
    forall st: State ensures InBox(box, st) <==> Fires(vars, capacity, e, st) {
      GuardCutsBox(ranges, e.target, capacity, st);
    }
  }

  // ---- bounds over runs

  lemma {:induction false} InitialValue(vars: seq<Variable>, v: nat)
    requires UniqueNames(vars) && v < |vars|
    ensures vars[v].name in Initial(vars) && Initial(vars)[vars[v].name] == InitialOf(vars[v])
    decreases |vars|
  {
    var n := |vars| - 1;
    if v < n {
      assert vars[..n][v] == vars[v];
      InitialValue(vars[..n], v);
    }
  }

  /** Every integer variable is within its rewritten bound. */
  ghost predicate InBounds(vars: seq<Variable>, capacity: int, st: State) {
    forall v | 0 <= v < |vars| && vars[v].IntVar? :: Within(st, Clamp(vars[v], capacity))
  }

  lemma InBoundsIsBox(vars: seq<Variable>, capacity: int, st: State)
    requires InBounds(vars, capacity, st)
    ensures InBox(Ranges(vars, capacity), st)
  {
    hide Clamp, Ranges;
    forall k | 0 <= k < |Ranges(vars, capacity)|
      ensures var r := Ranges(vars, capacity)[k]; r.name in st && r.lo <= st[r.name] <= r.hi
    {
      var v := InRanges(vars, capacity, k);
      ClampKeeps(vars[v], capacity);
      assert Within(st, Clamp(vars[v], capacity));
    }
  }

  lemma {:induction false} IntIsDeclared(vars: seq<Variable>, capacity: int, v: nat)
    requires v < |vars| && vars[v].IntVar?
    ensures Declared(Ranges(vars, capacity), vars[v].name)
    decreases |vars|
  {
    var init, ranges := vars[..|vars| - 1], Ranges(vars, capacity);
    if v < |init| {
      IntIsDeclared(init, capacity, v);
      var k :| 0 <= k < |Ranges(init, capacity)| && Ranges(init, capacity)[k].name == init[v].name;
      assert ranges[k] == Ranges(init, capacity)[k];
    } else {
      assert ranges[|ranges| - 1].name == vars[v].name;
    }
  }

  /** One effect of an operation that fires in an in-bounds state computes a value that fits. */
  lemma EffectValue(spec: Spec, capacity: int, op: Operation, st: State, v: nat, m: nat)
    requires UniqueNames(spec.vars) && InBounds(spec.vars, capacity, st) && GuardsHold(op, st)
    requires v < |spec.vars| && Rebounds(spec.vars[v], capacity) && m < |op.effects|
    requires op.effects[m].target == spec.vars[v].name
    requires EffectFits(spec, capacity, op.effects[m])
    requires forall e :: NeedsGuard(spec.vars, capacity, op.effects, e) ==> HasGuard(op.guards, e)
    ensures Eval(op.effects[m].value, st).Some? && Eval(op.effects[m].value, st).value <= capacity
  {
    var e := op.effects[m];
    IntIsDeclared(spec.vars, capacity, v);
    InBoundsIsBox(spec.vars, capacity, st);
    EffectKeepsIff(spec.vars, capacity, e);
    hide Eval, Holds, Rebounds, PeakFits, Ranges, InBox, Grows, GrowthGuard, InBounds, UniqueNames, IntSorted;
    if Grows(e) {
      GuardStops(spec, capacity, op, st, v, m);
      GrowthGuardMeans(e.target, capacity, st);
    }
  }

  /** One step of the bounded machine from an in-bounds state keeps a rebounded variable at most at the capacity. */
  lemma CapacityStep(spec: Spec, capacity: int, bounded: Spec, st: State, k: nat, next: State, v: nat)
    requires UniqueNames(spec.vars) && BoundedOf(spec, capacity, bounded) && EffectsFit(spec, capacity)
    requires StepOf(bounded, st, k, next) && InBounds(spec.vars, capacity, st)
    requires v < |spec.vars| && Rebounds(spec.vars[v], capacity)
    ensures spec.vars[v].name in next && next[spec.vars[v].name] <= capacity
  {
    var name := spec.vars[v].name;
    RebornBound(spec.vars[v], capacity, st);
    hide Eval, Holds, EffectFits, Rebounds, Clamp, InvariantsAdded, HasGuard, NeedsGuard, Computed, GuardsHold,
         UniqueNames, BoundConditions;
    var op := bounded.ops[k];
    var computed := Computed(op.effects, st).value;
    assert OperationBounded(spec.vars, capacity, spec.ops[k], op);
    if name in computed {
      ComputedTarget(op.effects, st, name);
      var m :| 0 <= m < |op.effects| && op.effects[m].target == name &&
          Eval(op.effects[m].value, st) == Some(computed[name]);
      assert EffectFits(spec, capacity, spec.ops[k].effects[m]);
      EffectValue(spec, capacity, op, st, v, m);
    } else {
      assert Within(st, Clamp(spec.vars[v], capacity));
    }
  }

  lemma RebornBound(v: Variable, capacity: int, st: State)
    requires Rebounds(v, capacity)
    ensures v.IntVar? && (Within(st, Clamp(v, capacity)) ==> v.name in st && st[v.name] <= capacity)
  {
  }

  /** The hypotheses under which the rewritten bounds hold. */
  ghost predicate Boundable(spec: Spec, capacity: int) {
    && UniqueNames(spec.vars) && EffectsFit(spec, capacity) && OriginalKeeps(spec, capacity)
    && (forall v | 0 <= v < |spec.vars| && Rebounds(spec.vars[v], capacity) :: spec.vars[v].initial <= capacity)
  }

  lemma InitialFits(spec: Spec, capacity: int, bounded: Spec, run: Run, v: nat)
    requires Boundable(spec, capacity) && BoundedOf(spec, capacity, bounded) && RunOf(bounded, run)
    requires v < |spec.vars| && Rebounds(spec.vars[v], capacity)
    ensures spec.vars[v].name in run.states[0] && run.states[0][spec.vars[v].name] <= capacity
  {
    hide EffectsFit, OriginalKeeps, OperationBounded, InvariantsAdded, BoundConditions, StepOf, Initial;
    forall k | 0 <= k < |spec.vars|
      ensures bounded.vars[k].name == spec.vars[k].name && InitialOf(bounded.vars[k]) == InitialOf(spec.vars[k])
    {
      ClampKeeps(spec.vars[k], capacity);
    }
    SameInitial(spec.vars, bounded.vars);
    InitialValue(spec.vars, v);
  }

  /** Every reachable state of the bounded machine is within every rewritten bound. */
  lemma {:induction false} BoundsKept(spec: Spec, capacity: int, bounded: Spec, run: Run, i: nat)
    requires Boundable(spec, capacity) && BoundedOf(spec, capacity, bounded) && RunOf(bounded, run) && i < |run.states|
    ensures InBounds(spec.vars, capacity, run.states[i])
    decreases i
  {
    hide EffectsFit, OriginalKeeps, BoundedOf, Within, Clamp, Rebounds, StepOf, Initial, UniqueNames;
    BoundedRefines(spec, capacity, bounded, run);
    if i > 0 {
      BoundsKept(spec, capacity, bounded, run, i - 1);
      assert StepOf(bounded, run.states[i - 1], run.labels[i - 1], run.states[i - 1 + 1]);
    }
    forall v | 0 <= v < |spec.vars| && spec.vars[v].IntVar?
      ensures Within(run.states[i], Clamp(spec.vars[v], capacity))
    {
      if Rebounds(spec.vars[v], capacity) {
        if i == 0 {
          InitialFits(spec, capacity, bounded, run, v);
        } else {
          CapacityStep(spec, capacity, bounded, run.states[i - 1], run.labels[i - 1], run.states[i - 1 + 1], v);
        }
      }
      ClampedWithin(spec, capacity, run, i, v);
    }
  }

  /**
   If the initial values fit, the original keeps the bounds that stay, and the peak of every effect on a
   rebounded variable fits, then every reachable state of the bounded machine satisfies every invariant
   the rewrite added.
   */
  lemma HardwareInvariantsHold(spec: Spec, capacity: int, bounded: Spec, run: Run, i: nat, k: nat)
    requires Boundable(spec, capacity) && BoundedOf(spec, capacity, bounded) && RunOf(bounded, run) && i < |run.states|
    requires |spec.invariants| <= k < |bounded.invariants|
    ensures Holds(bounded.invariants[k].expr, run.states[i])
  {
    hide RunOf, Boundable, OperationBounded, Within, Clamp, Holds, Eval, StatesBound, BoundConditions;
    var v :| 0 <= v < |bounded.vars| && StatesBound(bounded.vars[v], bounded.invariants[k].expr);
    assert bounded.vars[v] == Clamp(spec.vars[v], capacity);
    StatedInvariant(bounded.vars[v], bounded.invariants[k].expr, run.states[i]);
    ClampIsInt(spec.vars[v], capacity);
    BoundsKept(spec, capacity, bounded, run, i);
  }

  lemma StatedInvariant(v: Variable, e: Expr, st: State)
    requires StatesBound(v, e)
    ensures v.IntVar? && (Within(st, v) ==> Holds(e, st))
  {
    if v.name in st {
      WithinIsInvariant(st, v);
    }
  }

  lemma ClampIsInt(v: Variable, capacity: int)
    ensures Clamp(v, capacity).IntVar? == v.IntVar?
  {
  }

  lemma ClampedWithin(spec: Spec, capacity: int, run: Run, i: nat, v: nat)
    requires OriginalKeeps(spec, capacity) && RunOf(spec, run) && i < |run.states|
    requires v < |spec.vars| && spec.vars[v].IntVar?
    requires Rebounds(spec.vars[v], capacity) ==>
               spec.vars[v].name in run.states[i] && run.states[i][spec.vars[v].name] <= capacity
    ensures Within(run.states[i], Clamp(spec.vars[v], capacity))
  {
    hide RunOf;
    var name, st := spec.vars[v].name, run.states[i];
    assert name in st;
    assert if Rebounds(spec.vars[v], capacity) then LowerBound(spec.vars[v]) <= st[name] else Within(st, spec.vars[v]);
  }

  lemma WithinIsInvariant(st: State, v: Variable)
    requires v.IntVar? && v.bound.Some? && v.name in st
    ensures Holds(HardwareInvariant(v.name, v.bound.value.lo, v.bound.value.hi), st) <==> Within(st, v)
  {
    var lo, hi := v.bound.value.lo, v.bound.value.hi;
    assert Eval(Binary(Gte, Field(v.name), Integer(lo)), st) == Some(Truth(st[v.name] >= lo));
    assert Eval(Binary(Lte, Field(v.name), Integer(hi)), st) == Some(Truth(st[v.name] <= hi));
  }

  /** The growth guard keeps the bound for `f := f + n` exactly when n is at most one. */
  lemma GrowthGuardExact(field: string, lo: int, hi: int, n: int)
    requires lo < hi
    ensures (forall st: State | field in st && lo <= st[field] && Holds(GrowthGuard(field, hi), st) ::
               Holds(Binary(Lte, Binary(Add, Field(field), Integer(n)), Integer(hi)), st))
            <==> n <= 1
  {
    hide Eval, Holds;
    forall st: State | field in st
      ensures Holds(GrowthGuard(field, hi), st) <==> st[field] < hi
      ensures Holds(Binary(Lte, Binary(Add, Field(field), Integer(n)), Integer(hi)), st) <==> st[field] + n <= hi
    {
      GrowthGuardMeans(field, hi, st);
      SumFits(field, n, hi, st);
    }
    var top: State := map[field := hi - 1];
    assert field in top && top[field] == hi - 1;
  }

  /** Any other field on the left escapes the guard: from f = lo and g = hi, `f := g + 1` reaches hi + 1. */
  lemma OtherFieldEscapes(f: string, g: string, lo: int, hi: int) returns (st: State)
    requires f != g && lo < hi
    ensures Grows(Effect(f, Binary(Add, Field(g), Integer(1))))
    ensures InBox([Range(f, lo, hi), Range(g, lo, hi)], st) && Holds(GrowthGuard(f, hi), st)
    ensures Eval(Binary(Add, Field(g), Integer(1)), st) == Some(hi + 1)
  {
    st := map[f := lo, g := hi];
    GrowthGuardMeans(f, hi, st);
    assert Eval(Field(g), st) == Some(hi);
  }

  /** Growth written the other way round is not recognised, gets no guard, and steps over the capacity. */
  lemma FlippedGrowthEscapes(f: string, lo: int, hi: int) returns (st: State)
    requires lo <= hi
    ensures !Grows(Effect(f, Binary(Add, Integer(1), Field(f))))
    ensures InBox([Range(f, lo, hi)], st) && Eval(Binary(Add, Integer(1), Field(f)), st) == Some(hi + 1)
  {
    st := map[f := hi];
    assert Eval(Field(f), st) == Some(hi);
  }

  lemma SumFits(field: string, n: int, hi: int, st: State)
    requires field in st
    ensures Holds(Binary(Lte, Binary(Add, Field(field), Integer(n)), Integer(hi)), st) <==> st[field] + n <= hi
  {
    assert Eval(Field(field), st) == Some(st[field]);
    assert Eval(Binary(Add, Field(field), Integer(n)), st) == Some(st[field] + n);
    assert Eval(Integer(hi), st) == Some(hi);
  }
}
