/**
 The largest value an integer expression takes in a box of field ranges, and so exactly which effects
 keep an upper bound.
 */
module LinearPeaks {
  import opened Common
  import opened GuardedCommands

  /** The values of one integer field. */
  datatype Range = Range(name: string, lo: int, hi: int)

  predicate DistinctRanges(ranges: seq<Range>) {
    forall i, j | 0 <= i < j < |ranges| :: ranges[i].name != ranges[j].name
  }

  predicate NonEmpty(ranges: seq<Range>) { forall k | 0 <= k < |ranges| :: ranges[k].lo <= ranges[k].hi }

  predicate InBox(ranges: seq<Range>, st: State) {
    forall k | 0 <= k < |ranges| :: ranges[k].name in st && ranges[k].lo <= st[ranges[k].name] <= ranges[k].hi
  }

  predicate Declared(ranges: seq<Range>, name: string) { exists k | 0 <= k < |ranges| :: ranges[k].name == name }

  /** The expressions of sort int: the type checker admits no other operand of a sum or a difference. */
  predicate IntSorted(e: Expr, ranges: seq<Range>) {
    match e
    case Field(name) => Declared(ranges, name)
    case Integer(_) => true
    case Old(inner) => IntSorted(inner, ranges)
    case Binary(op, l, r) => (op == Add || op == Sub) && IntSorted(l, ranges) && IntSorted(r, ranges)
    case _ => false
  }

  /** The coefficient of a field, and the constant part. */
  function Slope(e: Expr, name: string): int {
    match e
    case Field(n) => if n == name then 1 else 0
    case Old(inner) => Slope(inner, name)
    case Binary(Add, l, r) => Slope(l, name) + Slope(r, name)
    case Binary(Sub, l, r) => Slope(l, name) - Slope(r, name)
    case _ => 0
  }

  function Offset(e: Expr): int {
    match e
    case Integer(value) => value
    case Old(inner) => Offset(inner)
    case Binary(Add, l, r) => Offset(l) + Offset(r)
    case Binary(Sub, l, r) => Offset(l) - Offset(r)
    case _ => 0
  }

  function Corner(slope: int, r: Range): int { if slope >= 0 then r.hi else r.lo }

  /** The largest value of the expression in the box: every field at the end its coefficient favours. */
  function Peak(e: Expr, ranges: seq<Range>): int {
    if ranges == [] then Offset(e)
    else
      var last := ranges[|ranges| - 1];
      Peak(e, ranges[..|ranges| - 1]) + Slope(e, last.name) * Corner(Slope(e, last.name), last)
  }

  // ---------------------------------------------------------------- expressions are linear

  function ValueAt(st: State, name: string): int { if name in st then st[name] else 0 }

  /** The sum of the fields' contributions. */
  function Linear(e: Expr, ranges: seq<Range>, st: State): int {
    if ranges == [] then 0
    else
      var last := ranges[|ranges| - 1];
      Linear(e, ranges[..|ranges| - 1], st) + Slope(e, last.name) * ValueAt(st, last.name)
  }

  lemma Distributes(a: int, b: int, x: int)
    ensures (a + b) * x == a * x + b * x && (a - b) * x == a * x - b * x
  {
  }

  lemma {:induction false} LinearSum(op: BinaryOp, l: Expr, r: Expr, ranges: seq<Range>, st: State)
    requires op == Add || op == Sub
    ensures Linear(Binary(op, l, r), ranges, st)
            == if op == Add then Linear(l, ranges, st) + Linear(r, ranges, st)
               else Linear(l, ranges, st) - Linear(r, ranges, st)
    decreases |ranges|
  {
    if ranges != [] {
      var name := ranges[|ranges| - 1].name;
      LinearSum(op, l, r, ranges[..|ranges| - 1], st);
      Distributes(Slope(l, name), Slope(r, name), ValueAt(st, name));
    }
  }

  lemma {:induction false} LinearConstant(e: Expr, ranges: seq<Range>, st: State)
    requires e.Integer?
    ensures Linear(e, ranges, st) == 0
    decreases |ranges|
  {
    if ranges != [] { LinearConstant(e, ranges[..|ranges| - 1], st); }
  }

  lemma {:induction false} LinearOld(inner: Expr, ranges: seq<Range>, st: State)
    ensures Linear(Old(inner), ranges, st) == Linear(inner, ranges, st)
    decreases |ranges|
  {
    if ranges != [] { LinearOld(inner, ranges[..|ranges| - 1], st); }
  }

  lemma {:induction false} LinearField(name: string, ranges: seq<Range>, st: State)
    requires DistinctRanges(ranges)
    ensures Linear(Field(name), ranges, st) == if Declared(ranges, name) then ValueAt(st, name) else 0
    decreases |ranges|
  {
    if ranges != [] {
      var init, last := ranges[..|ranges| - 1], ranges[|ranges| - 1];
      LinearField(name, init, st);
      if last.name == name {
        assert forall k | 0 <= k < |init| :: init[k].name == ranges[k].name != name;
      } else if Declared(ranges, name) {
        var k :| 0 <= k < |ranges| && ranges[k].name == name;
        assert init[k].name == name;
      }
    }
  }

  lemma {:induction false} EvalIsLinear(e: Expr, ranges: seq<Range>, st: State)
    requires DistinctRanges(ranges) && IntSorted(e, ranges) && forall k | 0 <= k < |ranges| :: ranges[k].name in st
    ensures Eval(e, st) == Some(Offset(e) + Linear(e, ranges, st))
    decreases e
  {
    match e
    case Field(name) => LinearField(name, ranges, st);
    case Integer(_) => LinearConstant(e, ranges, st);
    case Old(inner) =>
      EvalIsLinear(inner, ranges, st);
      LinearOld(inner, ranges, st);
    case Binary(op, l, r) =>
      EvalIsLinear(l, ranges, st);
      EvalIsLinear(r, ranges, st);
      LinearSum(op, l, r, ranges, st);
  }

  // ---------------------------------------------------------------- the peak is the maximum

  lemma CornerIsBest(slope: int, r: Range, x: int)
    requires r.lo <= x <= r.hi
    ensures slope * x <= slope * Corner(slope, r)
  {
    if slope >= 0 { assert slope * (r.hi - x) >= 0; } else { assert (-slope) * (x - r.lo) >= 0; }
  }

  lemma {:induction false} LinearBelowPeak(e: Expr, ranges: seq<Range>, st: State)
    requires InBox(ranges, st)
    ensures Offset(e) + Linear(e, ranges, st) <= Peak(e, ranges)
    decreases |ranges|
  {
    if ranges != [] {
      var init, last := ranges[..|ranges| - 1], ranges[|ranges| - 1];
      assert InBox(init, st) by { assert forall k | 0 <= k < |init| :: init[k] == ranges[k]; }
      LinearBelowPeak(e, init, st);
      CornerIsBest(Slope(e, last.name), last, st[last.name]);
    }
  }

  /** The state with every field at the end its coefficient favours. */
  function Top(e: Expr, ranges: seq<Range>): State {
    if ranges == [] then map[]
    else
      var last := ranges[|ranges| - 1];
      Top(e, ranges[..|ranges| - 1])[last.name := Corner(Slope(e, last.name), last)]
  }

  lemma {:induction false} LinearFrame(e: Expr, ranges: seq<Range>, st: State, name: string, x: int)
    requires !Declared(ranges, name)
    ensures Linear(e, ranges, st[name := x]) == Linear(e, ranges, st)
    decreases |ranges|
  {
    if ranges != [] {
      assert forall k | 0 <= k < |ranges| :: ranges[k].name != name;
      LinearFrame(e, ranges[..|ranges| - 1], st, name, x);
    }
  }

  lemma {:induction false} TopReachesPeak(e: Expr, ranges: seq<Range>)
    requires DistinctRanges(ranges) && NonEmpty(ranges)
    ensures InBox(ranges, Top(e, ranges)) && Offset(e) + Linear(e, ranges, Top(e, ranges)) == Peak(e, ranges)
    decreases |ranges|
  {
    if ranges != [] {
      var init, last := ranges[..|ranges| - 1], ranges[|ranges| - 1];
      assert forall k | 0 <= k < |init| :: init[k] == ranges[k];
      TopReachesPeak(e, init);
      LinearFrame(e, init, Top(e, init), last.name, Corner(Slope(e, last.name), last));
    }
  }

  /** An expression of sort int stays within a cap throughout a box that is not empty exactly when its peak does. */
  lemma BelowCapIff(e: Expr, ranges: seq<Range>, cap: int)
    requires DistinctRanges(ranges) && IntSorted(e, ranges)
    ensures (forall st: State | InBox(ranges, st) :: Eval(e, st).Some? && Eval(e, st).value <= cap) <==>
            !NonEmpty(ranges) || Peak(e, ranges) <= cap
  {
    forall st: State | InBox(ranges, st)
      ensures Eval(e, st) == Some(Offset(e) + Linear(e, ranges, st))
      ensures Offset(e) + Linear(e, ranges, st) <= Peak(e, ranges)
      ensures NonEmpty(ranges)
    {
      EvalIsLinear(e, ranges, st);
      LinearBelowPeak(e, ranges, st);
    }
    if NonEmpty(ranges) {
      TopReachesPeak(e, ranges);
      EvalIsLinear(e, ranges, Top(e, ranges));
    }
  }
}
