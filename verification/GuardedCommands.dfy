/**
 Guarded-command machines: the expression evaluator of pipeline/domain_v2_model.py, and the runs of a
 specification.

 Truth values are the integers 0 and 1, as the evaluator's arithmetic has them.
 */
module GuardedCommands {
  import opened Common

  datatype BinaryOp = Eq | Neq | Lt | Lte | Gt | Gte | Add | Sub | Implies | And | Or

  datatype Expr =
    | Field(name: string)
    | Integer(value: int)
    | Boolean(truth: bool)
    | Old(expression: Expr)
    | Not(expression: Expr)
    | Binary(op: BinaryOp, left: Expr, right: Expr)

  type State = map<string, int>

  function Truth(b: bool): int {
    if b then 1 else 0
  }

  /** `evaluate_expression`; no value for an unknown field. */
  function Eval(e: Expr, st: State): Option<int> {
    match e
    case Field(name) => if name in st then Some(st[name]) else None
    case Integer(value) => Some(value)
    case Boolean(truth) => Some(Truth(truth))
    case Old(inner) => Eval(inner, st)
    case Not(inner) =>
      (match Eval(inner, st) case None => None case Some(v) => Some(Truth(v == 0)))
    case Binary(op, left, right) =>
      var l, r := Eval(left, st), Eval(right, st);
      if l.None? || r.None? then None else Some(Combine(op, l.value, r.value))
  }

  function Combine(op: BinaryOp, l: int, r: int): int {
    match op
    case Eq => Truth(l == r)
    case Neq => Truth(l != r)
    case Lt => Truth(l < r)
    case Lte => Truth(l <= r)
    case Gt => Truth(l > r)
    case Gte => Truth(l >= r)
    case Add => l + r
    case Sub => l - r
    case Implies => Truth(l == 0 || r != 0)
    case And => Truth(l != 0 && r != 0)
    case Or => Truth(l != 0 || r != 0)
  }

  predicate Holds(e: Expr, st: State) {
    Eval(e, st).Some? && Eval(e, st).value != 0
  }

  datatype Bound = Bound(lo: int, hi: int)

  datatype Variable = IntVar(name: string, bound: Option<Bound>, initial: int) | BoolVar(name: string, start: bool)

  /** A named condition: a guard of an operation or an invariant of the machine. */
  datatype Condition = Condition(id: string, expr: Expr)

  datatype Effect = Effect(target: string, value: Expr)

  datatype Operation = Operation(name: string, guards: seq<Condition>, effects: seq<Effect>)

  datatype Spec = Spec(vars: seq<Variable>, ops: seq<Operation>, invariants: seq<Condition>)

  // ---------------------------------------------------------------- the machine of a spec

  predicate GuardsHold(op: Operation, st: State) {
    forall k | 0 <= k < |op.guards| :: Holds(op.guards[k].expr, st)
  }

  /** Every right-hand side in the same pre-state; a later effect on a target overrides an earlier one. */
  function Computed(effects: seq<Effect>, st: State): Option<State> {
    if effects == [] then Some(map[])
    else
      var last := effects[|effects| - 1];
      var before, v := Computed(effects[..|effects| - 1], st), Eval(last.value, st);
      if before.None? || v.None? then None else Some(before.value[last.target := v.value])
  }

  predicate StepOf(spec: Spec, st: State, k: nat, next: State) {
    && k < |spec.ops| && GuardsHold(spec.ops[k], st)
    && Computed(spec.ops[k].effects, st).Some?
    && next == st + Computed(spec.ops[k].effects, st).value
  }

  /** The effect that decides the field: the last one on it. */
  ghost predicate Decides(effects: seq<Effect>, name: string, m: nat) {
    m < |effects| && effects[m].target == name && forall n | m < n < |effects| :: effects[n].target != name
  }

  lemma {:induction false} ComputedMeans(effects: seq<Effect>, st: State, name: string)
    requires Computed(effects, st).Some?
    ensures name in Computed(effects, st).value <==> exists m: nat :: Decides(effects, name, m)
    ensures forall m: nat | Decides(effects, name, m) ::
        Some(Computed(effects, st).value[name]) == Eval(effects[m].value, st)
  {
    if effects != [] {
      var n := |effects| - 1;
      ComputedMeans(effects[..n], st, name);
      if effects[n].target == name {
        assert Decides(effects, name, n);
        forall m: nat | Decides(effects, name, m) ensures m == n {
        }
      } else {
        forall m: nat ensures Decides(effects, name, m) <==> Decides(effects[..n], name, m) {
        }
      }
    }
  }

  /** Effects are simultaneous: each field takes the value its last effect has before the step, or stays. */
  lemma StepMeans(spec: Spec, st: State, k: nat, next: State, name: string)
    requires StepOf(spec, st, k, next)
    ensures forall m: nat | Decides(spec.ops[k].effects, name, m) ::
              name in next && Some(next[name]) == Eval(spec.ops[k].effects[m].value, st)
    ensures (forall m | 0 <= m < |spec.ops[k].effects| :: spec.ops[k].effects[m].target != name) ==>
              (name in next <==> name in st) && (name in st ==> next[name] == st[name])
  {
    ComputedMeans(spec.ops[k].effects, st, name);
    hide Computed, Eval;
  }

  function InitialOf(v: Variable): int {
    match v case IntVar(_, _, initial) => initial case BoolVar(_, start) => Truth(start)
  }

  function Initial(vars: seq<Variable>): State {
    if vars == [] then map[] else Initial(vars[..|vars| - 1])[vars[|vars| - 1].name := InitialOf(vars[|vars| - 1])]
  }

  datatype Run = Run(states: seq<State>, labels: seq<nat>)

  ghost predicate RunOf(spec: Spec, run: Run) {
    && |run.states| == |run.labels| + 1 && run.states[0] == Initial(spec.vars)
    && forall i | 0 <= i < |run.labels| :: StepOf(spec, run.states[i], run.labels[i], run.states[i + 1])
  }

  predicate UniqueNames(vars: seq<Variable>) {
    forall i, j | 0 <= i < j < |vars| :: vars[i].name != vars[j].name
  }
}
