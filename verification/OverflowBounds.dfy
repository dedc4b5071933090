/**
 Overflow bounds for C arithmetic (pipeline/c_support.py:142-203): the facts derived for a direct
 operation between an `int` parameter and a literal, and the brace matcher that delimits a body.
 */
module OverflowBounds {
  import opened Common

  /** INT_MIN and INT_MAX of some implementation. */
  datatype Limits = Limits(min: int, max: int)

  predicate Sane(lim: Limits) { lim.min < 0 < lim.max }

  predicate IsInt(lim: Limits, x: int) { lim.min <= x <= lim.max }

  /** `/` of C and of its annotations: the quotient truncated toward zero (section 6.5.5 of ISO/IEC 9899:2011). */
  function TruncDiv(a: int, b: int): int
    requires b != 0
  {
    if a >= 0 then (if b > 0 then a / b else -(a / -b))
    else if b > 0 then -(-a / b) else -a / -b
  }

  datatype Operator = Plus | Minus | Times

  function Apply(op: Operator, x: int, c: int): int {
    match op
    case Plus => x + c
    case Minus => x - c
    case Times => x * c
  }

  // ---------------------------------------------------------------- facts

  datatype Limit = INT_MIN | INT_MAX

  datatype Bound =
    | Limit(limit: Limit)
    | Sum(limit: Limit, c: int)
    | Difference(limit: Limit, c: int)
    | Quotient(limit: Limit, c: int)

  datatype Fact =
    | AtMost(name: string, bound: Bound)
    | AtLeast(name: string, bound: Bound)
    | Both(left: Fact, right: Fact)

  function LimitValue(lim: Limits, l: Limit): int {
    match l
    case INT_MIN => lim.min
    case INT_MAX => lim.max
  }

  /** The value of a bound; annotations compute on unbounded integers. */
  function BoundValue(lim: Limits, b: Bound): int {
    match b
    case Limit(l) => LimitValue(lim, l)
    case Sum(l, c) => LimitValue(lim, l) + c
    case Difference(l, c) => LimitValue(lim, l) - c
    case Quotient(l, c) => if c == 0 then 0 else TruncDiv(LimitValue(lim, l), c)
  }

  predicate Holds(lim: Limits, env: map<string, int>, f: Fact) {
    match f
    case AtMost(name, b) => name in env && env[name] <= BoundValue(lim, b)
    case AtLeast(name, b) => name in env && env[name] >= BoundValue(lim, b)
    case Both(l, r) => Holds(lim, env, l) && Holds(lim, env, r)
  }

  /** The fact emitted for `name op c`; none for a product with zero. */
  function FactFor(name: string, op: Operator, c: int): Option<Fact> {
    match op
    case Plus => Some(if c >= 0 then AtMost(name, Difference(INT_MAX, c)) else AtLeast(name, Difference(INT_MIN, c)))
    case Minus => Some(if c >= 0 then AtLeast(name, Sum(INT_MIN, c)) else AtMost(name, Sum(INT_MAX, c)))
    case Times =>
      if c == 0 then None
      else if c > 0 then Some(Both(AtLeast(name, Quotient(INT_MIN, c)), AtMost(name, Quotient(INT_MAX, c))))
      else Some(Both(AtLeast(name, Quotient(INT_MAX, c)), AtMost(name, Quotient(INT_MIN, c))))
  }

  lemma QuotientBound(y: int, m: int, d: int)
    requires m >= 0 && d > 0
    ensures y * d <= m <==> y <= m / d
  {
    var q := m / d;
    assert m == d * q + m % d;
    if y <= q { assert y * d <= q * d; } else { assert y * d >= (q + 1) * d; }
  }

  /** Multiplying by a positive literal, and by its negation. */
  lemma ProductBounds(x: int, min: int, max: int, d: int)
    requires min < 0 < max && d > 0
    ensures min <= x * d <= max <==> TruncDiv(min, d) <= x <= TruncDiv(max, d)
    ensures min <= x * -d <= max <==> TruncDiv(max, -d) <= x <= TruncDiv(min, -d)
  {
    var up, down := max / d, -min / d;
    assert TruncDiv(max, d) == up && TruncDiv(max, -d) == -up;
    assert TruncDiv(min, d) == -down && TruncDiv(min, -d) == down;
    QuotientBound(x, max, d);
    QuotientBound(x, -min, d);
    QuotientBound(-x, max, d);
    QuotientBound(-x, -min, d);
    var xd := x * d;
    assert -x * d == -xd && x * -d == -xd;
    hide TruncDiv;
  }

  /**
   The emitted fact holds exactly when the operation does not overflow, for every int and both signs
   of the literal; where no fact is emitted the operation cannot overflow. So it is the weakest condition.
   */
  lemma FactExact(lim: Limits, env: map<string, int>, name: string, op: Operator, c: int)
    requires Sane(lim) && name in env && IsInt(lim, env[name])
    ensures match FactFor(name, op, c)
            case Some(fact) => Holds(lim, env, fact) <==> IsInt(lim, Apply(op, env[name], c))
            case None => IsInt(lim, Apply(op, env[name], c))
  {
    hide TruncDiv;
    if op == Times && c != 0 {
      ProductBounds(env[name], lim.min, lim.max, if c > 0 then c else -c);
      assert -(-c) == c;
    }
  }

  // ---------------------------------------------------------------- derivation

  datatype Occurrence = Occurrence(op: Operator, c: int)

  /** One parameter and the operations that the body applies to it, in order. */
  datatype Parameter = Parameter(name: string, occurrences: seq<Occurrence>)

  ghost predicate AllHold(lim: Limits, env: map<string, int>, facts: seq<Fact>) {
    forall f | f in facts :: Holds(lim, env, f)
  }

  ghost predicate Fits(lim: Limits, env: map<string, int>, p: Parameter, n: nat)
    requires p.name in env && n <= |p.occurrences|
  {
    forall k | 0 <= k < n :: IsInt(lim, Apply(p.occurrences[k].op, env[p.name], p.occurrences[k].c))
  }

  ghost predicate IsCall(lim: Limits, env: map<string, int>, ps: seq<Parameter>) {
    forall k | 0 <= k < |ps| :: ps[k].name in env && IsInt(lim, env[ps[k].name])
  }

  /** No operation on the first `n` parameters overflows. */
  ghost predicate AllFit(lim: Limits, env: map<string, int>, ps: seq<Parameter>, n: nat)
    requires IsCall(lim, env, ps) && n <= |ps|
  {
    forall k | 0 <= k < n :: Fits(lim, env, ps[k], |ps[k].occurrences|)
  }

  lemma OneMore(lim: Limits, env: map<string, int>, facts: seq<Fact>, fact: Fact, more: seq<Fact>)
    requires more == if fact in facts then facts else facts + [fact]
    ensures AllHold(lim, env, more) <==> AllHold(lim, env, facts) && Holds(lim, env, fact)
  {
  }

  /**
   The nested loops over parameters and operations: a list of facts without repetition whose
   conjunction holds, for every call, exactly when no listed operation overflows.
   */
  method DeriveFacts(ps: seq<Parameter>) returns (facts: seq<Fact>)
    ensures Distinct(facts)
    ensures forall lim, env | Sane(lim) && IsCall(lim, env, ps) :: AllHold(lim, env, facts) <==>
        AllFit(lim, env, ps, |ps|)
  {
    facts := [];
    for i := 0 to |ps|
      invariant Distinct(facts)
      invariant forall lim, env | Sane(lim) && IsCall(lim, env, ps) :: AllHold(lim, env, facts) <==>
          AllFit(lim, env, ps, i)
    {
      ghost var before := facts;
      var p := ps[i];
      for j := 0 to |p.occurrences|
        invariant Distinct(facts)
        invariant forall lim, env | Sane(lim) && IsCall(lim, env, ps) ::
                    AllHold(lim, env, facts) <==> AllHold(lim, env, before) && Fits(lim, env, p, j)
      {
        hide Holds, Apply, AllHold;
        var o := p.occurrences[j];
        ghost var earlier := facts;
        forall lim, env | Sane(lim) && IsCall(lim, env, ps)
          ensures Fits(lim, env, p, j + 1) <==> Fits(lim, env, p, j) && IsInt(lim, Apply(o.op, env[p.name], o.c))
        {
        }
        var derived := FactFor(p.name, o.op, o.c);
        if derived.Some? && derived.value !in facts { facts := facts + [derived.value]; }
        forall lim, env | Sane(lim) && IsCall(lim, env, ps)
          ensures AllHold(lim, env, facts) <==> AllHold(lim, env, earlier) && IsInt(lim, Apply(o.op, env[p.name], o.c))
        {
          FactExact(lim, env, p.name, o.op, o.c);
          if derived.Some? { OneMore(lim, env, earlier, derived.value, facts); }
        }
      }
    }
  }

  // ---------------------------------------------------------------- literals

  /** A literal as written: an optional sign and decimal digits. */
  datatype Literal = Literal(negative: bool, digits: seq<nat>)

  predicate IsLiteral(l: Literal) { l.digits != [] && forall k | 0 <= k < |l.digits| :: l.digits[k] < 10 }

  function Value(base: nat, digits: seq<nat>): nat {
    if digits == [] then 0 else Value(base, digits[..|digits| - 1]) * base + digits[|digits| - 1]
  }

  function Signed(l: Literal, magnitude: int): int { if l.negative then -magnitude else magnitude }

  /** The value the deriver reads: always decimal. */
  function ReadValue(l: Literal): int { Signed(l, Value(10, l.digits)) }

  predicate IsOctal(l: Literal) { |l.digits| > 1 && l.digits[0] == 0 }

  /** A C literal: digits after a leading zero are octal ones (section 6.4.4.1 of ISO/IEC 9899:2011). */
  predicate IsCLiteral(l: Literal) {
    IsLiteral(l) && (IsOctal(l) ==> forall k | 0 <= k < |l.digits| :: l.digits[k] < 8)
  }

  function CValue(l: Literal): int { Signed(l, Value(if IsOctal(l) then 8 else 10, l.digits)) }

  lemma {:induction false} OctalAtMostDecimal(digits: seq<nat>)
    ensures Value(8, digits) <= Value(10, digits)
    ensures Value(8, digits) <= 1 ==> Value(10, digits) == Value(8, digits)
    decreases |digits|
  {
    if digits != [] { OctalAtMostDecimal(digits[..|digits| - 1]); }
  }

  lemma Scaled(x: int, c: int, d: int)
    requires 0 <= c <= d
    ensures x >= 0 ==> 0 <= x * c <= x * d
    ensures x <= 0 ==> x * d <= x * c <= 0
    ensures x * -c == -(x * c) && x * -d == -(x * d)
  {
    assert x * d == x * c + x * (d - c);
    if x >= 0 { assert x * c >= 0 && x * (d - c) >= 0; } else { assert x * c <= 0 && x * (d - c) <= 0; }
  }

  /** An operand closer to zero overflows no sooner. */
  lemma SmallerOperandFits(lim: Limits, op: Operator, x: int, c: int, d: int)
    requires Sane(lim) && IsInt(lim, x) && 0 <= c <= d
    ensures IsInt(lim, Apply(op, x, d)) ==> IsInt(lim, Apply(op, x, c))
    ensures IsInt(lim, Apply(op, x, -d)) ==> IsInt(lim, Apply(op, x, -c))
  {
    match op
    case Times =>
      Scaled(x, c, d);
      var xc, xd := x * c, x * d;
    case _ =>
  }

  /** An octal literal is read as a larger number, so its fact is safe, though it may exclude more than it must. */
  lemma OctalIsSafe(lim: Limits, env: map<string, int>, name: string, op: Operator, l: Literal)
    requires Sane(lim) && name in env && IsInt(lim, env[name]) && IsCLiteral(l)
    requires FactFor(name, op, ReadValue(l)).Some? ==> Holds(lim, env, FactFor(name, op, ReadValue(l)).value)
    ensures IsInt(lim, Apply(op, env[name], CValue(l)))
  {
    FactExact(lim, env, name, op, ReadValue(l));
    OctalAtMostDecimal(l.digits);
    hide FactFor, Apply, Holds, Value;
    SmallerOperandFits(lim, op, env[name], Value(8, l.digits), Value(10, l.digits));
  }

  /**
   For sums and differences the fact is the weakest one for every int exactly when the literal is read
   as C reads it, or its C value alone exceeds the whole range so that every call overflows.
   */
  lemma SumExactIff(lim: Limits, name: string, op: Operator, l: Literal)
    requires Sane(lim) && op != Times && IsCLiteral(l)
    ensures (forall x | IsInt(lim, x) ::
               Holds(lim, map[name := x], FactFor(name, op, ReadValue(l)).value) <==>
                   IsInt(lim, Apply(op, x, CValue(l))))
            <==> ReadValue(l) == CValue(l) || lim.max - lim.min < Value(8, l.digits)
  {
    OctalAtMostDecimal(l.digits);
    var c, p := CValue(l), ReadValue(l);
    forall x | IsInt(lim, x) {
      FactExact(lim, map[name := x], name, op, p);
    }
    if c != p && Value(8, l.digits) <= lim.max - lim.min {
      // the last int on which the operation still fits
      var size := if c > 0 then c else -c;
      var x := if (op == Plus) == (c > 0) then lim.max - size else lim.min + size;
      assert IsInt(lim, x) && IsInt(lim, Apply(op, x, c)) && !IsInt(lim, Apply(op, x, p));
      assert !Holds(lim, map[name := x], FactFor(name, op, p).value);
    }
  }

  /** The two representations of negative ints that leave the range nearly symmetric (section 6.2.6.2). */
  predicate NearlySymmetric(lim: Limits) { -lim.max - 1 <= lim.min <= -lim.max }

  /** The magnitude of the literal as C reads it. */
  function CMagnitude(l: Literal): nat { Value(if IsOctal(l) then 8 else 10, l.digits) }

  function Reading(l: Literal, magnitude: nat): int { Signed(l, magnitude) }

  /** The ints whose product with the signed magnitude does not overflow, by the two quotients. */
  lemma ProductRange(lim: Limits, l: Literal, x: int, d: nat)
    requires Sane(lim) && d > 0
    ensures IsInt(lim, Apply(Times, x, Reading(l, d))) <==>
            if l.negative then -(lim.max / d) <= x <= -lim.min / d else -(-lim.min / d) <= x <= lim.max / d
  {
    ProductBounds(x, lim.min, lim.max, d);
  }

  lemma QuotientShrinks(m: int, c: nat, p: nat)
    requires m >= 0 && 0 < c <= p
    ensures 0 <= m / p <= m / c
  {
    QuotientBound(m / p, m, p);
    QuotientBound(m / p, m, c);
    QuotientBound(0, m, p);
    var up := m / p;
    Scaled(up, c, p);
  }

  lemma QuotientHalves(m: int, c: nat)
    requires m >= 0 && c > 1
    ensures 0 <= 2 * (m / c) <= m
  {
    QuotientBound(m / c, m, c);
    QuotientBound(0, m, c);
    var q := m / c;
    Scaled(q, 2, c);
  }

  /** Two factors leave the same ints free of overflow exactly when both pairs of quotients agree. */
  lemma SameRangeIff(lim: Limits, l: Literal, c: nat, p: nat)
    requires Sane(lim) && NearlySymmetric(lim) && 1 < c <= p
    ensures (forall x | IsInt(lim, x) ::
               IsInt(lim, Apply(Times, x, Reading(l, p))) <==> IsInt(lim, Apply(Times, x, Reading(l, c))))
            <==> lim.max / c == lim.max / p && -lim.min / c == -lim.min / p
  {
    hide Apply, Reading;
    forall x ensures IsInt(lim, Apply(Times, x, Reading(l, c))) <==>
                     if l.negative then -(lim.max / c) <= x <= -lim.min / c else -(-lim.min / c) <= x <= lim.max / c
    {
      ProductRange(lim, l, x, c);
    }
    forall x ensures IsInt(lim, Apply(Times, x, Reading(l, p))) <==>
                     if l.negative then -(lim.max / p) <= x <= -lim.min / p else -(-lim.min / p) <= x <= lim.max / p
    {
      ProductRange(lim, l, x, p);
    }
    QuotientShrinks(lim.max, c, p);
    QuotientShrinks(-lim.min, c, p);
    QuotientHalves(lim.max, c);
    QuotientHalves(-lim.min, c);
    var up, down := lim.max / c, -lim.min / c;
    assert IsInt(lim, up) && IsInt(lim, -up) && IsInt(lim, down) && IsInt(lim, -down);
    if up != lim.max / p {
      var x := if l.negative then -up else up;
      assert IsInt(lim, Apply(Times, x, Reading(l, c))) && !IsInt(lim, Apply(Times, x, Reading(l, p)));
    }
    if down != -lim.min / p {
      var x := if l.negative then down else -down;
      assert IsInt(lim, Apply(Times, x, Reading(l, c))) && !IsInt(lim, Apply(Times, x, Reading(l, p)));
    }
  }

  /** The fact emitted for a product with a literal, or true where none is. */
  predicate ProductFactHolds(lim: Limits, name: string, x: int, l: Literal) {
    var fact := FactFor(name, Times, ReadValue(l));
    fact.Some? ==> Holds(lim, map[name := x], fact.value)
  }

  /**
   For products the fact is the weakest one for every int exactly when both quotients come out the same
   for the C value and for the decimal reading.
   */
  lemma ProductExactIff(lim: Limits, name: string, l: Literal)
    requires Sane(lim) && NearlySymmetric(lim) && IsCLiteral(l)
    ensures (forall x | IsInt(lim, x) :: ProductFactHolds(lim, name, x, l) <==> IsInt(lim, Apply(Times, x, CValue(l))))
            <==> var c, p := CMagnitude(l), Value(10, l.digits);
                 c <= 1 || (p > 0 && lim.max / c == lim.max / p && -lim.min / c == -lim.min / p)
  {
    OctalAtMostDecimal(l.digits);
    var c, p := CMagnitude(l), Value(10, l.digits);
    assert CValue(l) == Reading(l, c) && ReadValue(l) == Reading(l, p);
    forall x | IsInt(lim, x)
      ensures ProductFactHolds(lim, name, x, l) <==> IsInt(lim, Apply(Times, x, Reading(l, p)))
    {
      FactExact(lim, map[name := x], name, Times, ReadValue(l));
    }
    hide ProductFactHolds, Apply, Reading;
    if c > 1 { SameRangeIff(lim, l, c, p); }
  }

  // ---------------------------------------------------------------- braces

  function Weight(c: char): int { if c == '{' then 1 else if c == '}' then -1 else 0 }

  /** Opening braces minus closing braces. */
  function Depth(s: string): int {
    if s == [] then 0 else Depth(s[..|s| - 1]) + Weight(s[|s| - 1])
  }

  /** Text whose braces nest properly, as a grammar. */
  datatype Nested = Done | Plain(c: char, rest: Nested) | Block(body: Nested, rest: Nested)

  ghost predicate NoBraces(n: Nested) {
    match n
    case Done => true
    case Plain(c, rest) => c != '{' && c != '}' && NoBraces(rest)
    case Block(body, rest) => NoBraces(body) && NoBraces(rest)
  }

  function Text(n: Nested): string {
    match n
    case Done => ""
    case Plain(c, rest) => [c] + Text(rest)
    case Block(body, rest) => "{" + Text(body) + "}" + Text(rest)
  }

  ghost predicate IsNested(s: string) { exists n :: NoBraces(n) && Text(n) == s }

  lemma {:induction false} DepthAppend(a: string, b: string)
    ensures Depth(a + b) == Depth(a) + Depth(b)
    decreases |b|
  {
    if b == [] {
      assert a + b == a;
    } else {
      var init := b[..|b| - 1];
      assert (a + b)[..|a + b| - 1] == a + init;
      DepthAppend(a, init);
    }
  }

  lemma PrefixDepth(a: string, b: string, k: nat)
    requires k <= |a + b|
    ensures Depth((a + b)[..k]) == if k <= |a| then Depth(a[..k]) else Depth(a) + Depth(b[..k - |a|])
  {
    if k <= |a| {
      assert (a + b)[..k] == a[..k];
    } else {
      assert (a + b)[..k] == a + b[..k - |a|];
      DepthAppend(a, b[..k - |a|]);
    }
  }

  lemma SingleDepth(c: char)
    ensures Depth([c]) == Weight(c)
  {
    assert [c][..0] == [];
  }

  /** Depth never below zero, and zero at the end. */
  ghost predicate Balanced(s: string) {
    Depth(s) == 0 && forall k | 0 <= k <= |s| :: Depth(s[..k]) >= 0
  }

  lemma BalancedAppend(a: string, b: string)
    requires Balanced(a) && Balanced(b)
    ensures Balanced(a + b)
  {
    DepthAppend(a, b);
    forall k | 0 <= k <= |a + b| ensures Depth((a + b)[..k]) >= 0 { PrefixDepth(a, b, k); }
  }

  lemma BalancedBlock(body: string)
    requires Balanced(body)
    ensures Balanced("{" + body + "}")
  {
    SingleDepth('{');
    SingleDepth('}');
    var s := "{" + body;
    DepthAppend("{", body);
    DepthAppend(s, "}");
    forall k | 0 <= k <= |s + "}"| ensures Depth((s + "}")[..k]) >= 0 {
      PrefixDepth(s, "}", k);
      if k <= |s| { PrefixDepth("{", body, k); } else { assert "}"[..k - |s|] == "}"; }
      if k == 0 { assert "{"[..k] == ""; }
    }
  }

  lemma {:induction false} NestedBalanced(n: Nested)
    requires NoBraces(n)
    ensures Balanced(Text(n))
  {
    match n
    case Done =>
    case Plain(c, rest) =>
      NestedBalanced(rest);
      SingleDepth(c);
      assert forall k | 0 <= k <= 1 :: [c][..k] == if k == 0 then [] else [c];
      BalancedAppend([c], Text(rest));
    case Block(body, rest) =>
      NestedBalanced(body);
      NestedBalanced(rest);
      BalancedBlock(Text(body));
      BalancedAppend("{" + Text(body) + "}", Text(rest));
  }

  /** The first place at which the depth returns to zero. */
  ghost predicate Closes(s: string, k: nat) {
    k < |s| && Depth(s[..k + 1]) == 0 && forall i | 0 < i <= k :: Depth(s[..i]) > 0
  }

  lemma {:induction false} FirstClose(s: string, from: nat) returns (k: nat)
    requires 0 < from <= |s| && Depth(s) == 0 && (forall i | 0 < i <= from :: Depth(s[..i]) > 0)
    requires forall i | 0 <= i <= |s| :: Depth(s[..i]) >= 0
    ensures from <= k && Closes(s, k)
    decreases |s| - from
  {
    assert s[..|s|] == s;
    assert from < |s|;
    if Depth(s[..from + 1]) == 0 { k := from; } else { k := FirstClose(s, from + 1); }
  }

  lemma TailDepth(s: string, from: nat, i: nat)
    requires from + i <= |s|
    ensures Depth(s[..from + i]) == Depth(s[..from]) + Depth(s[from..][..i])
  {
    assert s[..from + i] == s[..from] + s[from..][..i];
    DepthAppend(s[..from], s[from..][..i]);
  }

  lemma InsideDepth(s: string, k: nat, i: nat)
    requires 0 < i <= k <= |s| && s[0] == '{'
    ensures Depth(s[..i]) == 1 + Depth(s[1..k][..i - 1])
  {
    SingleDepth('{');
    assert s[..1] == "{";
    assert s[1..][..i - 1] == s[1..k][..i - 1];
    TailDepth(s, 1, i - 1);
  }

  /** What lies between an opening brace and the first return to depth zero is balanced. */
  lemma InsideBlock(s: string, k: nat)
    requires s != [] && s[0] == '{' && Closes(s, k)
    ensures k > 0 && s[k] == '}' && Balanced(s[1..k])
  {
    SingleDepth('{');
    assert s[..1] == "{";
    assert s[..k + 1][..k] == s[..k];
    forall i | 0 <= i <= k - 1 ensures Depth(s[1..k][..i]) == Depth(s[..i + 1]) - 1 { InsideDepth(s, k, i + 1); }
    assert s[1..k][..k - 1] == s[1..k];
  }

  /** What follows it is balanced if the whole is. */
  lemma AfterBlock(s: string, k: nat)
    requires Closes(s, k) && Balanced(s)
    ensures Balanced(s[k + 1..])
  {
    var rest := s[k + 1..];
    forall i | 0 <= i <= |rest| ensures Depth(rest[..i]) >= 0 { TailDepth(s, k + 1, i); }
    TailDepth(s, k + 1, |rest|);
    assert rest[..|rest|] == rest && s[..k + 1 + |rest|] == s;
  }

  lemma {:induction false} BalancedNested(s: string) returns (n: Nested)
    requires Balanced(s)
    ensures NoBraces(n) && Text(n) == s
    decreases |s|
  {
    if s == [] { return Done; }
    SingleDepth(s[0]);
    assert s[..1] == [s[0]];
    if s[0] == '{' {
      var k := FirstClose(s, 1);
      InsideBlock(s, k);
      AfterBlock(s, k);
      assert s == "{" + s[1..k] + "}" + s[k + 1..];
      var body := BalancedNested(s[1..k]);
      var rest := BalancedNested(s[k + 1..]);
      n := Block(body, rest);
    } else {
      var rest := s[1..];
      assert s == [s[0]] + rest;
      DepthAppend([s[0]], rest);
      forall i | 0 <= i <= |rest| ensures Depth(rest[..i]) >= 0 {
        assert s[..i + 1] == [s[0]] + rest[..i];
        DepthAppend([s[0]], rest[..i]);
      }
      var m := BalancedNested(rest);
      n := Plain(s[0], m);
    }
  }

  /** `k` closes the block opened at `opening`, by the grammar. */
  ghost predicate IsBlock(code: string, opening: nat, k: nat) {
    opening < k < |code| && code[k] == '}' && IsNested(code[opening + 1..k])
  }

  lemma ClosesIsBlock(code: string, opening: nat, k: nat)
    requires opening < |code| && code[opening] == '{' && opening <= k && Closes(code[opening..], k - opening)
    ensures IsBlock(code, opening, k)
  {
    InsideBlock(code[opening..], k - opening);
    assert code[opening..][1..k - opening] == code[opening + 1..k];
    var n := BalancedNested(code[opening + 1..k]);
  }

  lemma BalancedCloses(s: string, k: nat)
    requires 0 < k < |s| && s[0] == '{' && s[k] == '}' && Balanced(s[1..k])
    ensures Closes(s, k)
  {
    forall i | 0 < i <= k ensures Depth(s[..i]) > 0 { InsideDepth(s, k, i); }
    InsideDepth(s, k, k);
    assert s[1..k][..k - 1] == s[1..k];
    assert s[..k + 1][..k] == s[..k];
  }

  lemma BlockCloses(code: string, opening: nat, k: nat)
    requires opening < |code| && code[opening] == '{' && IsBlock(code, opening, k)
    ensures Closes(code[opening..], k - opening)
  {
    hide Closes, Balanced;
    var s := code[opening..];
    assert s[1..k - opening] == code[opening + 1..k];
    var n :| NoBraces(n) && Text(n) == code[opening + 1..k];
    NestedBalanced(n);
    BalancedCloses(s, k - opening);
  }

  /** The depth reading and the grammar pick out the same closing brace. */
  lemma ClosesIffBlock(code: string, opening: nat, k: nat)
    requires opening < |code| && code[opening] == '{' && opening <= k
    ensures Closes(code[opening..], k - opening) <==> IsBlock(code, opening, k)
  {
    hide Closes, IsBlock;
    if Closes(code[opening..], k - opening) { ClosesIsBlock(code, opening, k); }
    if IsBlock(code, opening, k) { BlockCloses(code, opening, k); }
  }

  /** `_matching_c_brace`: the brace that closes the block opened at `opening`, if the block is closed. */
  method MatchingBrace(code: string, opening: nat) returns (at: Option<nat>)
    requires opening < |code| && code[opening] == '{'
    ensures at.Some? ==> IsBlock(code, opening, at.value)
    ensures at.None? ==> forall k | opening < k < |code| :: !IsBlock(code, opening, k)
  {
    var depth := 0;
    ghost var s := code[opening..];
    for index := opening to |code|
      invariant depth == Depth(s[..index - opening])
      invariant forall i | 0 < i <= index - opening :: Depth(s[..i]) > 0
    {
      assert s[..index - opening + 1][..index - opening] == s[..index - opening];
      if code[index] == '{' {
        depth := depth + 1;
      } else if code[index] == '}' {
        depth := depth - 1;
        if depth == 0 {
          ClosesIffBlock(code, opening, index);
          return Some(index);
        }
      }
    }
    forall k | opening < k < |code| ensures !IsBlock(code, opening, k) {
      ClosesIffBlock(code, opening, k);
    }
    return None;
  }
}
