/**
 The state-space bound of a flattened architecture model
 (pipeline/architecture_validation_workflow.py:77-102).
 */
module ModelScope {
  import opened Common

  datatype StateVariable = StateVariable(name: string, isInt: bool, bound: Option<(int, int)>)

  datatype Component = Component(hasDomain: bool, states: seq<StateVariable>, operations: seq<string>)

  const RESERVED: set<string> := {"Init", "Next", "TypeOK", "Spec"}

  /** What the model's own validators already ensured. */
  ghost predicate Ordered(v: StateVariable) { v.bound.Some? ==> v.bound.value.0 <= v.bound.value.1 }

  ghost predicate WellFormed(cs: seq<Component>) {
    forall i, k | 0 <= i < |cs| && 0 <= k < |cs[i].states| :: Ordered(cs[i].states[k])
  }

  predicate Bounded(v: StateVariable) { v.isInt ==> v.bound.Some? }

  /** The values of a variable: its bounds, or false and true as 0 and 1. */
  function Low(v: StateVariable): int { if v.isInt && v.bound.Some? then v.bound.value.0 else 0 }

  function High(v: StateVariable): int { if v.isInt && v.bound.Some? then v.bound.value.1 else 1 }

  function Count(v: StateVariable): int { High(v) - Low(v) + 1 }

  /** All states of the flattened model: one value for every variable. */
  ghost predicate IsState(vs: seq<StateVariable>, state: seq<int>) {
    |state| == |vs| && forall k | 0 <= k < |vs| :: Low(vs[k]) <= state[k] <= High(vs[k])
  }

  function Product(vs: seq<StateVariable>): int {
    if vs == [] then 1 else Product(vs[..|vs| - 1]) * Count(vs[|vs| - 1])
  }

  function Variables(cs: seq<Component>): seq<StateVariable> {
    if cs == [] then [] else Variables(cs[..|cs| - 1]) + cs[|cs| - 1].states
  }

  function Operations(cs: seq<Component>): seq<string> {
    if cs == [] then [] else Operations(cs[..|cs| - 1]) + cs[|cs| - 1].operations
  }

  function Names(vs: seq<StateVariable>): (names: seq<string>)
    ensures |names| == |vs| && forall k | 0 <= k < |vs| :: names[k] == vs[k].name
  {
    if vs == [] then [] else Names(vs[..|vs| - 1]) + [vs[|vs| - 1].name]
  }

  ghost predicate Disjoint(a: seq<string>, b: seq<string>) { forall x | x in a :: x !in b }

  /** What a model must meet to be flattened and checked. */
  ghost predicate Checkable(cs: seq<Component>, maximum: int) {
    && (forall i | 0 <= i < |cs| :: !cs[i].hasDomain)
    && Distinct(Names(Variables(cs))) && Distinct(Operations(cs))
    && (forall k | 0 <= k < |Variables(cs)| :: Bounded(Variables(cs)[k]))
    && Product(Variables(cs)) <= maximum
    && Disjoint(Names(Variables(cs)), Operations(cs))
    && (forall x | x in RESERVED :: x !in Names(Variables(cs)) && x !in Operations(cs))
  }

  // ---- the product counts the states

  ghost function Extend(ss: set<seq<int>>, lo: int, hi: int): set<seq<int>> {
    set s, x | s in ss && lo <= x <= hi :: s + [x]
  }

  ghost function States(vs: seq<StateVariable>): set<seq<int>> {
    if vs == [] then {[]} else Extend(States(vs[..|vs| - 1]), Low(vs[|vs| - 1]), High(vs[|vs| - 1]))
  }

  lemma LastAppended(s: seq<int>, t: seq<int>, x: int)
    ensures s + [x] == t <==> t != [] && t[..|t| - 1] == s && t[|t| - 1] == x
  {
    if t != [] { assert t == t[..|t| - 1] + [t[|t| - 1]]; }
    if s + [x] == t { assert t[..|t| - 1] == s; }
  }

  lemma InExtend(ss: set<seq<int>>, lo: int, hi: int, t: seq<int>)
    ensures t in Extend(ss, lo, hi) <==> t != [] && t[..|t| - 1] in ss && lo <= t[|t| - 1] <= hi
  {
    if t in Extend(ss, lo, hi) {
      var s, x :| s in ss && lo <= x <= hi && s + [x] == t;
      LastAppended(s, t, x);
    }
    if t != [] { LastAppended(t[..|t| - 1], t, t[|t| - 1]); }
  }

  lemma {:induction false} StatesExact(vs: seq<StateVariable>, s: seq<int>)
    ensures s in States(vs) <==> IsState(vs, s)
    decreases |vs|
  {
    hide Extend, Low, High;
    if vs != [] {
      var init, last := vs[..|vs| - 1], vs[|vs| - 1];
      InExtend(States(init), Low(last), High(last), s);
      if s != [] { StatesExact(init, s[..|s| - 1]); }
    }
  }

  lemma {:induction false} ExtendOne(ss: set<seq<int>>, x: int)
    ensures |Extend(ss, x, x)| == |ss|
    decreases |ss|
  {
    if ss == {} {
      assert Extend(ss, x, x) == {};
    } else {
      var t :| t in ss;
      var rest := ss - {t};
      ExtendOne(rest, x);
      LastAppended(t, t + [x], x);
      InExtend(rest, x, x, t + [x]);
      forall u ensures u in Extend(ss, x, x) <==> u in Extend(rest, x, x) || u == t + [x] {
        InExtend(ss, x, x, u);
        InExtend(rest, x, x, u);
        LastAppended(t, u, x);
      }
      assert Extend(ss, x, x) == Extend(rest, x, x) + {t + [x]};
    }
  }

  lemma Distributive(n: int, k: int)
    ensures n * (k + 1) == n * k + n
  {
  }

  lemma {:induction false} ExtendCount(ss: set<seq<int>>, lo: int, hi: int)
    requires lo <= hi + 1
    ensures |Extend(ss, lo, hi)| == |ss| * (hi - lo + 1)
    decreases hi - lo + 1
  {
    if lo == hi + 1 {
      assert Extend(ss, lo, hi) == {};
    } else {
      ExtendCount(ss, lo, hi - 1);
      ExtendOne(ss, hi);
      ExtendSplit(ss, lo, hi);
      hide Extend;
      Distributive(|ss|, hi - lo);
    }
  }

  lemma ExtendSplit(ss: set<seq<int>>, lo: int, hi: int)
    requires lo <= hi
    ensures |Extend(ss, lo, hi)| == |Extend(ss, lo, hi - 1)| + |Extend(ss, hi, hi)|
  {
    hide Extend;
    var whole, below, top := Extend(ss, lo, hi), Extend(ss, lo, hi - 1), Extend(ss, hi, hi);
    forall u ensures (u in whole <==> u in below || u in top) && !(u in below && u in top) {
      InExtend(ss, lo, hi, u);
      InExtend(ss, lo, hi - 1, u);
      InExtend(ss, hi, hi, u);
    }
    assert whole == below + top && below * top == {};
  }

  /** The computed bound is the exact number of states that `TypeOK` allows. */
  lemma {:induction false} ProductCountsStates(vs: seq<StateVariable>)
    requires forall k | 0 <= k < |vs| :: Ordered(vs[k])
    ensures |States(vs)| == Product(vs) >= 1
    decreases |vs|
  {
    if vs != [] {
      var init, last := vs[..|vs| - 1], vs[|vs| - 1];
      ProductCountsStates(init);
      ExtendCount(States(init), Low(last), High(last));
      assert Product(init) * Count(last) >= 1;
    }
  }

  // ---- the scope computation

  lemma Associative(x: int, y: int, z: int)
    ensures x * (y * z) == x * y * z
    ensures y >= 1 && z >= 1 ==> y * z >= 1
  {
  }

  lemma {:induction false} ProductAppend(a: seq<StateVariable>, b: seq<StateVariable>)
    requires forall k | 0 <= k < |b| :: Ordered(b[k])
    ensures Product(a + b) == Product(a) * Product(b) && Product(b) >= 1
    decreases |b|
  {
    if b == [] {
      assert a + b == a;
    } else {
      var init, last := b[..|b| - 1], b[|b| - 1];
      assert (a + b)[..|a + b| - 1] == a + init;
      ProductAppend(a, init);
      Associative(Product(a), Product(init), Count(last));
    }
  }

  lemma {:induction false} VariablesPrefix(cs: seq<Component>, i: nat)
    requires i <= |cs|
    ensures Variables(cs[..i]) <= Variables(cs) && Operations(cs[..i]) <= Operations(cs)
    decreases |cs|
  {
    if i == |cs| {
      assert cs[..i] == cs;
    } else {
      VariablesPrefix(cs[..|cs| - 1], i);
      assert cs[..|cs| - 1][..i] == cs[..i];
    }
  }

  lemma VariablesOrdered(cs: seq<Component>)
    requires WellFormed(cs)
    ensures forall k | 0 <= k < |Variables(cs)| :: Ordered(Variables(cs)[k])
    decreases |cs|
  {
    if cs != [] {
      var init := cs[..|cs| - 1];
      assert WellFormed(init) by { assert forall i | 0 <= i < |init| :: init[i] == cs[i]; }
      VariablesOrdered(init);
    }
  }

  /** The first variables and operations of a checkable model. */
  ghost predicate FitsSoFar(vs: seq<StateVariable>, ops: seq<string>, maximum: int) {
    && Distinct(Names(vs)) && Distinct(ops) && (forall k | 0 <= k < |vs| :: Bounded(vs[k])) && Product(vs) <= maximum
  }

  lemma PrefixDistinct(s: seq<string>, t: seq<string>)
    requires s <= t && Distinct(t)
    ensures Distinct(s)
  {
    assert forall i | 0 <= i < |s| :: s[i] == t[i];
  }

  lemma NoSmaller(x: int, y: int)
    requires x >= 1 && y >= 1
    ensures x <= x * y
  {
  }

  lemma PrefixProduct(s: seq<StateVariable>, t: seq<StateVariable>)
    requires s <= t && forall k | 0 <= k < |t| :: Ordered(t[k])
    ensures Product(s) <= Product(t)
  {
    hide Product;
    var rest := t[|s|..];
    assert t == s + rest;
    ProductAppend(s, rest);
    ProductAppend([], s);
    NoSmaller(Product(s), Product(rest));
  }

  lemma CheckablePrefix(cs: seq<Component>, maximum: int, vs: seq<StateVariable>, ops: seq<string>)
    requires WellFormed(cs) && Checkable(cs, maximum) && vs <= Variables(cs) && ops <= Operations(cs)
    ensures FitsSoFar(vs, ops, maximum)
  {
    var all := Variables(cs);
    VariablesOrdered(cs);
    hide Product, Variables, Operations, Distinct, Names, Ordered;
    PrefixProduct(vs, all);
    PrefixDistinct(ops, Operations(cs));
    assert forall k | 0 <= k < |vs| :: vs[k] == all[k];
    assert Names(vs) <= Names(all);
    PrefixDistinct(Names(vs), Names(all));
  }

  lemma PrefixOf<T>(all: seq<T>, head: seq<T>, part: seq<T>, k: nat)
    requires head + part <= all && k <= |part|
    ensures head + part[..k] <= all
  {
  }

  lemma Division(count: int, maximum: int, total: int)
    requires count >= 1 && total >= 1 && maximum > 0
    ensures count > maximum / total <==> total * count > maximum
  {
    var q := maximum / total;
    assert maximum == total * q + maximum % total;
    if count <= q { assert total * count <= total * q; } else { assert total * count >= total * (q + 1); }
  }

  lemma VariableAdded(vs: seq<StateVariable>, ops: seq<string>, maximum: int, v: StateVariable)
    requires FitsSoFar(vs, ops, maximum)
    ensures Names(vs + [v]) == Names(vs) + [v.name] && Product(vs + [v]) == Product(vs) * Count(v)
    ensures FitsSoFar(vs + [v], ops, maximum) <==>
        v.name !in Names(vs) && Bounded(v) && Product(vs) * Count(v) <= maximum
  {
    var more := vs + [v];
    assert more[..|vs|] == vs && more[|vs|] == v;
    assert forall k | 0 <= k < |vs| :: more[k] == vs[k];
    DistinctAdded(Names(vs), v.name);
    hide Product, Names, Distinct;
  }

  lemma DistinctAdded(s: seq<string>, x: string)
    ensures Distinct(s + [x]) <==> Distinct(s) && x !in s
  {
    var t := s + [x];
    if Distinct(t) {
      assert forall i | 0 <= i < |s| :: s[i] == t[i];
      assert t[|s|] == x;
    }
  }

  lemma NothingYet(cs: seq<Component>, maximum: int)
    requires maximum > 0
    ensures Variables(cs[..0]) == [] && Operations(cs[..0]) == [] && Product([]) == 1 && FitsSoFar([], [], maximum)
  {
  }

  lemma NextComponent(cs: seq<Component>, i: nat)
    requires i < |cs|
    ensures Variables(cs[..i + 1]) == Variables(cs[..i]) + cs[i].states && Variables(cs[..i + 1]) <= Variables(cs)
    ensures Operations(cs[..i + 1]) == Operations(cs[..i]) + cs[i].operations
    ensures Operations(cs[..i + 1]) <= Operations(cs)
  {
    assert cs[..i + 1][..i] == cs[..i];
    VariablesPrefix(cs, i + 1);
  }

  lemma CheckableIff(cs: seq<Component>, maximum: int)
    ensures Checkable(cs, maximum) ==> forall i | 0 <= i < |cs| :: !cs[i].hasDomain
    ensures (forall i | 0 <= i < |cs| :: !cs[i].hasDomain) && FitsSoFar(Variables(cs), Operations(cs), maximum) ==>
              (Checkable(cs, maximum) <==>
                 Disjoint(Names(Variables(cs)), Operations(cs))
                 && forall x | x in RESERVED :: x !in Names(Variables(cs)) && x !in Operations(cs))
  {
  }

  /**
   The scope computation returns a size exactly for models that may be flattened and whose state count
   is within the maximum, in whatever order the checks are made; the size is that count.
   */
  method CheckScope(cs: seq<Component>, maximum: int) returns (size: Option<int>)
    requires WellFormed(cs) && maximum > 0
    ensures size.Some? <==> Checkable(cs, maximum)
    ensures size.Some? ==> size.value == |States(Variables(cs))|
  {
    hide Product, Names, Distinct, Checkable, FitsSoFar, Variables, Operations, Bounded, States, Ordered;
    var variables: set<string>, actions: set<string>, total := {}, {}, 1;
    ghost var vs: seq<StateVariable>, ops: seq<string> := [], [];
    NothingYet(cs, maximum);
    CheckableIff(cs, maximum);
    for i := 0 to |cs|
      invariant vs == Variables(cs[..i]) && ops == Operations(cs[..i])
      invariant forall k | 0 <= k < i :: !cs[k].hasDomain
      invariant FitsSoFar(vs, ops, maximum) && total == Product(vs) >= 1
      invariant variables == (set x | x in Names(vs)) && actions == (set x | x in ops)
    {
      var c := cs[i];
      NextComponent(cs, i);
      if c.hasDomain { return None; }
      ghost var vs0, ops0 := vs, ops;
      for k := 0 to |c.states|
        invariant vs == vs0 + c.states[..k]
        invariant FitsSoFar(vs, ops, maximum) && total == Product(vs) >= 1
        invariant variables == (set x | x in Names(vs))
      {
        var state := c.states[k];
        ghost var more := vs + [state];
        assert more == vs0 + c.states[..k + 1];
        PrefixOf(Variables(cs), vs0, c.states, k + 1);
        VariableAdded(vs, ops, maximum, state);
        if Checkable(cs, maximum) { CheckablePrefix(cs, maximum, more, ops); }
        if state.name in variables { return None; }
        variables := variables + {state.name};
        var unbounded := state.isInt && state.bound.None?;
        assert Bounded(state) <==> !unbounded by { UnboundedIff(state); }
        if unbounded { return None; }
        var count := if state.isInt then state.bound.value.1 - state.bound.value.0 + 1 else 2;
        CountAtLeastOne(cs, i, k);
        Division(count, maximum, total);
        if count > maximum / total { return None; }
        total := total * count;
        vs := more;
      }
      assert vs == vs0 + c.states;
      for k := 0 to |c.operations|
        invariant ops == ops0 + c.operations[..k]
        invariant FitsSoFar(vs, ops, maximum)
        invariant actions == (set x | x in ops)
      {
        ghost var more := ops + [c.operations[k]];
        assert more == ops0 + c.operations[..k + 1];
        PrefixOf(Operations(cs), ops0, c.operations, k + 1);
        OperationAdded(vs, ops, maximum, c.operations[k]);
        if Checkable(cs, maximum) { CheckablePrefix(cs, maximum, vs, more); }
        if c.operations[k] in actions { return None; }
        actions := actions + {c.operations[k]};
        ops := more;
      }
      assert ops == ops0 + c.operations;
    }
    assert cs[..|cs|] == cs;
    VariablesOrdered(cs);
    ProductCountsStates(vs);
    SetsApart(Names(vs), ops);
    if variables * actions != {} || (variables + actions) * RESERVED != {} { return None; }
    return Some(total);
  }

  lemma SetsApart(a: seq<string>, b: seq<string>)
    ensures var x, y := set s | s in a, set s | s in b;
            x * y == {} && (x + y) * RESERVED == {} <==>
                Disjoint(a, b) && forall s | s in RESERVED :: s !in a && s !in b
  {
    var x, y := set s | s in a, set s | s in b;
    if x * y == {} && (x + y) * RESERVED == {} {
      forall s | s in a ensures s !in b { assert s in b ==> s in x * y; }
      forall s | s in RESERVED ensures s !in a && s !in b { assert s in x + y ==> s in (x + y) * RESERVED; }
    }
  }

  lemma UnboundedIff(v: StateVariable)
    ensures Bounded(v) <==> !(v.isInt && v.bound.None?)
  {
  }

  lemma CountAtLeastOne(cs: seq<Component>, i: nat, k: nat)
    requires WellFormed(cs) && i < |cs| && k < |cs[i].states|
    ensures Count(cs[i].states[k]) >= 1
  {
    assert Ordered(cs[i].states[k]);
  }

  lemma OperationAdded(vs: seq<StateVariable>, ops: seq<string>, maximum: int, op: string)
    requires FitsSoFar(vs, ops, maximum)
    ensures FitsSoFar(vs, ops + [op], maximum) <==> op !in ops
  {
    DistinctAdded(ops, op);
    hide Product, Names, Distinct;
  }
}
