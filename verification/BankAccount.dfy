/**
 The mutex-protected bank account (ConcurrentBankAccount.rs and ConcurrentBankingCore.rs): the
 sequential operations, the interleaved machine of their critical sections, and linearizability for
 any number of threads and calls.
 */
module BankAccount {
  import opened Common

  datatype Op = Deposit | Withdraw | GetBalance

  datatype LockError = Poisoned | Unavailable

  datatype Reply = Done | Value(balance: int) | Failed(error: LockError)

  /** Opening balance and cap; the two shipped accounts are instances. */
  datatype Terms = Terms(start: int, cap: int)

  const ACCOUNT := Terms(1, 2)
  const CORE := Terms(0, 10)

  const I32_MIN: int := -0x8000_0000
  const I32_MAX: int := 0x7fff_ffff

  /** Arithmetic outside this range panics, in a build that checks it. */
  predicate FitsI32(x: int) { I32_MIN <= x <= I32_MAX }

  predicate ValidTerms(t: Terms) {
    0 <= t.start <= t.cap <= I32_MAX
  }

  /** The sequential account: new balance and reply of one operation. */
  function Serve(t: Terms, op: Op, balance: int): (int, Reply) {
    match op
    case Deposit => if balance < t.cap then (balance + 1, Done) else (balance, Failed(Unavailable))
    case Withdraw => if balance > 0 then (balance - 1, Done) else (balance, Failed(Unavailable))
    case GetBalance => (balance, Value(balance))
  }

  /** The guarded state, as the methods see it while they hold the mutex. */
  class Account {
    var balance: int
    const terms: Terms

    predicate Valid()
      reads this
    {
      ValidTerms(terms) && 0 <= balance <= terms.cap
    }

    constructor (terms: Terms)
      requires ValidTerms(terms)
      ensures Valid() && this.terms == terms && balance == terms.start
    {
      this.terms := terms;
      this.balance := terms.start;
    }

    method DoDeposit() returns (reply: Reply)
      requires Valid()
      modifies this
      ensures Valid() && (balance, reply) == Serve(terms, Deposit, old(balance))
    {
      if !(balance < terms.cap) {
        return Failed(Unavailable);
      }
      var pre := balance;
      balance := pre + 1;
      return Done;
    }

    method DoWithdraw() returns (reply: Reply)
      requires Valid()
      modifies this
      ensures Valid() && (balance, reply) == Serve(terms, Withdraw, old(balance))
    {
      if !(balance > 0) {
        return Failed(Unavailable);
      }
      var pre := balance;
      balance := pre - 1;
      return Done;
    }

    method DoGetBalance() returns (reply: Reply)
      requires Valid()
      ensures (balance, reply) == Serve(terms, GetBalance, balance)
    {
      return Value(balance);
    }
  }

  // ---------------------------------------------------------------- the interleaved machine

  /**
   A call between its invocation and its response; it holds the mutex from Holding to Stored. A call that
   panicked while it held the mutex has poisoned it and never responds.
   */
  datatype Phase =
    | Invoked(op: Op)
    | Holding(op: Op)
    | Loaded(op: Op, pre: int)
    | Stored(op: Op, reply: Reply)
    | Released(op: Op, reply: Reply)
    | Panicked(op: Op)

  datatype Event = Invoke(call: nat, op: Op) | Respond(call: nat, reply: Reply)

  /** One served operation, in the order of the stores. */
  datatype Entry = Entry(call: nat, op: Op, reply: Reply)

  datatype Machine = Machine(
    balance: int, holder: Option<nat>, poisoned: bool, calls: map<nat, Phase>, history: seq<Event>, order: seq<Entry>)

  datatype Step =
    | DoInvoke(call: nat, op: Op) | DoAcquire(call: nat) | DoLoad(call: nat) | DoStore(call: nat)
    | DoRelease(call: nat) | DoRespond(call: nat)

  function Start(t: Terms): Machine {
    Machine(t.start, None, false, map[], [], [])
  }

  predicate Used(history: seq<Event>, call: nat) {
    exists k | 0 <= k < |history| :: history[k].call == call
  }

  predicate Enabled(m: Machine, step: Step) {
    match step
    case DoInvoke(call, _) => !Used(m.history, call)
    case DoAcquire(call) => call in m.calls && m.calls[call].Invoked? && m.holder.None?
    case DoLoad(call) => call in m.calls && m.calls[call].Holding?
    case DoStore(call) => call in m.calls && m.calls[call].Loaded?
    case DoRelease(call) => call in m.calls && m.calls[call].Stored?
    case DoRespond(call) => call in m.calls && m.calls[call].Released?
  }

  /** What the lock call hands out: the guard, or the error of a poisoned mutex. */
  function Acquire(m: Machine, call: nat): Machine
    requires call in m.calls
  {
    var op := m.calls[call].op;
    if m.poisoned then m.(calls := m.calls[call := Released(op, Failed(Poisoned))])
    else m.(calls := m.calls[call := Holding(op)], holder := Some(call))
  }

  /** The guarded arithmetic: a result that does not fit panics, and unwinding poisons the mutex. */
  function Store(t: Terms, m: Machine, call: nat): Machine
    requires call in m.calls && m.calls[call].Loaded?
  {
    var op := m.calls[call].op;
    var (balance, reply) := Serve(t, op, m.calls[call].pre);
    if !FitsI32(balance) then m.(calls := m.calls[call := Panicked(op)], holder := None, poisoned := true)
    else m.(balance := balance, calls := m.calls[call := Stored(op, reply)],
        order := m.order + [Entry(call, op, reply)])
  }

  /** Nothing but the mutex keeps a load and its store together. */
  function Next(t: Terms, m: Machine, step: Step): Machine
    requires Enabled(m, step)
  {
    match step
    case DoInvoke(call, op) => m.(calls := m.calls[call := Invoked(op)], history := m.history + [Invoke(call, op)])
    case DoAcquire(call) => Acquire(m, call)
    case DoLoad(call) => m.(calls := m.calls[call := Loaded(m.calls[call].op, m.balance)])
    case DoStore(call) => Store(t, m, call)
    case DoRelease(call) => m.(calls := m.calls[call := Released(m.calls[call].op, m.calls[call].reply)],
        holder := None)
    case DoRespond(call) =>
      m.(calls := m.calls - {call}, history := m.history + [Respond(call, m.calls[call].reply)])
  }

  datatype Run = Run(states: seq<Machine>, steps: seq<Step>)

  ghost predicate ValidRun(t: Terms, run: Run) {
    && |run.states| == |run.steps| + 1 && run.states[0] == Start(t)
    && forall i | 0 <= i < |run.steps| :: StepAt(t, run, i)
  }

  ghost predicate StepAt(t: Terms, run: Run, i: nat)
    requires i < |run.steps| < |run.states|
  {
    Enabled(run.states[i], run.steps[i]) && run.states[i + 1] == Next(t, run.states[i], run.steps[i])
  }

  // ---------------------------------------------------------------- linearizability

  /** The entries are what the sequential account replies, one after the other. */
  predicate Legal(t: Terms, order: seq<Entry>) {
    order == [] ||
    var last := order[|order| - 1];
    Legal(t, order[..|order| - 1]) && last.reply == Serve(t, last.op, Final(t, order[..|order| - 1])).1
  }

  function Final(t: Terms, order: seq<Entry>): int {
    if order == [] then t.start
    else Serve(t, order[|order| - 1].op, Final(t, order[..|order| - 1])).0
  }

  ghost predicate Contains(order: seq<Entry>, n: nat, call: nat) {
    exists q | 0 <= q < |order| && q < n :: order[q].call == call
  }

  /** `order` takes each call of the history at most once and serves every call that responded, with its reply. */
  ghost predicate Explains(history: seq<Event>, order: seq<Entry>) {
    && (forall p, q | 0 <= p < q < |order| :: order[p].call != order[q].call)
    && (forall p | 0 <= p < |order| :: Invoke(order[p].call, order[p].op) in history)
    && (forall k | 0 <= k < |history| && history[k].Respond? :: Served(order, history[k].call, history[k].reply))
  }

  ghost predicate Served(order: seq<Entry>, call: nat, reply: Reply) {
    exists p | 0 <= p < |order| :: order[p].call == call && order[p].reply == reply
  }

  /** A call that responded before another was invoked comes first. */
  ghost predicate RealTime(history: seq<Event>, order: seq<Entry>) {
    forall i, j, p | 0 <= i < j < |history| && history[i].Respond? && history[j].Invoke? && 0 <= p < |order|
                     && order[p].call == history[j].call :: Contains(order, p, history[i].call)
  }

  ghost predicate Linearizes(t: Terms, history: seq<Event>, order: seq<Entry>) {
    Legal(t, order) && Explains(history, order) && RealTime(history, order)
  }

  // ---------------------------------------------------------------- invariant

  predicate Inside(p: Phase) {
    p.Holding? || p.Loaded? || p.Stored?
  }

  /** Mutual exclusion, and what it buys: a loaded balance is still the current one. */
  ghost predicate MutexOk(m: Machine) {
    && (forall call | call in m.calls && Inside(m.calls[call]) :: m.holder == Some(call))
    && (forall call | call in m.calls && m.calls[call].Loaded? :: m.calls[call].pre == m.balance)
  }

  ghost predicate PhaseOk(m: Machine, call: nat)
    requires call in m.calls
  {
    && Invoke(call, m.calls[call].op) in m.history
    && match m.calls[call]
       case Stored(_, reply) => Served(m.order, call, reply)
       case Released(_, reply) => Served(m.order, call, reply)
       case Panicked(_) => false
       case _ => !Contains(m.order, |m.order|, call)
  }

  ghost predicate UsesOk(m: Machine) {
    && (forall call | call in m.calls :: PhaseOk(m, call))
    && (forall k | 0 <= k < |m.history| && m.history[k].Respond? :: m.history[k].call !in m.calls)
  }

  ghost predicate BalanceOk(t: Terms, m: Machine) {
    Legal(t, m.order) && m.balance == Final(t, m.order) && 0 <= m.balance <= t.cap && !m.poisoned
  }

  ghost predicate Inv(t: Terms, m: Machine) {
    MutexOk(m) && UsesOk(m) && BalanceOk(t, m) && Explains(m.history, m.order) && RealTime(m.history, m.order)
  }

  lemma MutexStep(t: Terms, m: Machine, step: Step)
    requires MutexOk(m) && Enabled(m, step)
    ensures MutexOk(Next(t, m, step))
  {
  }

  lemma ServeOneMore(t: Terms, order: seq<Entry>, call: nat, op: Op)
    requires Legal(t, order)
    ensures var (balance, reply) := Serve(t, op, Final(t, order));
            Legal(t, order + [Entry(call, op, reply)]) && Final(t, order + [Entry(call, op, reply)]) == balance
  {
    var longer := order + [Entry(call, op, Serve(t, op, Final(t, order)).1)];
    assert longer[..|longer| - 1] == order;
  }

  lemma BalanceStep(t: Terms, m: Machine, step: Step)
    requires ValidTerms(t) && MutexOk(m) && BalanceOk(t, m) && Enabled(m, step)
    ensures BalanceOk(t, Next(t, m, step))
  {
    if step.DoStore? { StoreFits(t, m, step); }
    hide Legal, Final;
    if step.DoStore? {
      ServeOneMore(t, m.order, step.call, m.calls[step.call].op);
    }
  }

  /** The guards keep every stored value within the cap, so the arithmetic never panics. */
  lemma StoreFits(t: Terms, m: Machine, step: Step)
    requires ValidTerms(t) && MutexOk(m) && BalanceOk(t, m) && Enabled(m, step) && step.DoStore?
    ensures FitsI32(Serve(t, m.calls[step.call].op, m.calls[step.call].pre).0)
  {
    hide Legal, Final;
  }

  lemma ServedLasts(order: seq<Entry>, e: Entry, call: nat, reply: Reply)
    requires Served(order, call, reply)
    ensures Served(order + [e], call, reply)
  {
    var p :| 0 <= p < |order| && order[p].call == call && order[p].reply == reply;
    assert (order + [e])[p] == order[p];
  }

  /** A call that has just been invoked has not been served. */
  lemma FreshCall(m: Machine, call: nat)
    requires Explains(m.history, m.order) && !Used(m.history, call)
    ensures !Contains(m.order, |m.order|, call)
  {
    forall p | 0 <= p < |m.order| ensures m.order[p].call != call {
      assert Invoke(m.order[p].call, m.order[p].op) in m.history;
    }
  }

  lemma StorePhase(t: Terms, m: Machine, step: Step, call: nat)
    requires Enabled(m, step) && step.DoStore? && FitsI32(Serve(t, m.calls[step.call].op, m.calls[step.call].pre).0)
    requires call in m.calls && PhaseOk(m, call)
    ensures PhaseOk(Next(t, m, step), call)
  {
    hide Serve;
    var n := Next(t, m, step);
    if step.call == call {
      assert n.order[|m.order|] == Entry(call, m.calls[call].op, n.calls[call].reply);
    } else if m.calls[call].Released? || m.calls[call].Stored? {
      ServedLasts(m.order, n.order[|m.order|], call, m.calls[call].reply);
    }
  }

  lemma OtherPhase(t: Terms, m: Machine, step: Step, call: nat)
    requires Enabled(m, step) && !step.DoStore? && !m.poisoned && call in Next(t, m, step).calls
    requires call in m.calls && PhaseOk(m, call) && !(step.DoInvoke? && step.call == call)
    ensures PhaseOk(Next(t, m, step), call)
  {
    hide Serve, Served, Contains;
  }

  lemma UsesStep(t: Terms, m: Machine, step: Step)
    requires ValidTerms(t) && BalanceOk(t, m)
    requires UsesOk(m) && Explains(m.history, m.order) && MutexOk(m) && Enabled(m, step)
    ensures UsesOk(Next(t, m, step))
  {
    if step.DoStore? { StoreFits(t, m, step); }
    hide Legal, Final, Serve, Served, Contains, Explains;
    var n := Next(t, m, step);
    forall call | call in n.calls
      ensures PhaseOk(n, call)
    {
      if step.DoInvoke? && step.call == call {
        assert n.history[|m.history|] == Invoke(call, step.op);
        FreshCall(m, call);
      } else if step.DoStore? {
        StorePhase(t, m, step, call);
      } else {
        OtherPhase(t, m, step, call);
      }
    }
    if step.DoInvoke? {
      forall k | 0 <= k < |n.history| && n.history[k].Respond? ensures n.history[k].call !in n.calls {
        assert n.history[k] == m.history[k];
      }
    }
  }

  lemma ExplainsStep(t: Terms, m: Machine, step: Step)
    requires ValidTerms(t) && MutexOk(m) && BalanceOk(t, m)
    requires UsesOk(m) && Explains(m.history, m.order) && Enabled(m, step)
    ensures Explains(Next(t, m, step).history, Next(t, m, step).order)
  {
    if step.DoStore? { StoreFits(t, m, step); }
    hide Legal, Final, Serve;
    var n := Next(t, m, step);
    if step.DoStore? {
      assert PhaseOk(m, step.call);
      forall k | 0 <= k < |n.history| && n.history[k].Respond?
        ensures Served(n.order, n.history[k].call, n.history[k].reply)
      {
        ServedLasts(m.order, n.order[|m.order|], n.history[k].call, n.history[k].reply);
      }
    } else if step.DoRespond? {
      assert PhaseOk(m, step.call);
    }
  }

  lemma ContainedLasts(order: seq<Entry>, e: Entry, n: nat, call: nat)
    requires Contains(order, n, call) && n <= |order|
    ensures Contains(order + [e], n, call)
  {
    var q :| 0 <= q < |order| && q < n && order[q].call == call;
    assert (order + [e])[q] == order[q];
  }

  lemma RealTimeStep(t: Terms, m: Machine, step: Step)
    requires ValidTerms(t) && Inv(t, m) && Enabled(m, step)
    ensures RealTime(Next(t, m, step).history, Next(t, m, step).order)
  {
    if step.DoStore? { StoreFits(t, m, step); }
    hide Legal, Final, MutexOk;
    var n := Next(t, m, step);
    forall i, j, p | 0 <= i < j < |n.history| && n.history[i].Respond? && n.history[j].Invoke?
                     && 0 <= p < |n.order| && n.order[p].call == n.history[j].call
      ensures Contains(n.order, p, n.history[i].call)
    {
      if step.DoStore? {
        if p < |m.order| {
          assert Contains(m.order, p, n.history[i].call);
          ContainedLasts(m.order, n.order[|m.order|], p, n.history[i].call);
        } else {
          assert Served(m.order, n.history[i].call, n.history[i].reply);
          ContainedLasts(m.order, n.order[|m.order|], p, n.history[i].call);
        }
      } else {
        NewEventsAreLate(t, m, step, i, j, p);
      }
    }
  }

  /** A newly logged invocation is not served yet, and a newly logged response precedes nothing. */
  lemma NewEventsAreLate(t: Terms, m: Machine, step: Step, i: nat, j: nat, p: nat)
    requires Inv(t, m) && Enabled(m, step) && !step.DoStore?
    requires var n := Next(t, m, step);
             && i < j < |n.history| && n.history[i].Respond? && n.history[j].Invoke?
             && p < |n.order| && n.order[p].call == n.history[j].call
    ensures j < |m.history| && Contains(m.order, p, m.history[i].call)
  {
    hide Legal, Final, MutexOk;
    var n := Next(t, m, step);
    assert Invoke(m.order[p].call, m.order[p].op) in m.history;
    var k :| 0 <= k < |m.history| && m.history[k] == Invoke(m.order[p].call, m.order[p].op);
    assert m.history[k].call == n.history[j].call;
  }

  lemma {:induction false} RunInv(t: Terms, run: Run, n: nat)
    requires ValidTerms(t) && ValidRun(t, run) && n < |run.states|
    ensures Inv(t, run.states[n])
  {
    if n > 0 {
      RunInv(t, run, n - 1);
      assert StepAt(t, run, n - 1);
      var m, step := run.states[n - 1], run.steps[n - 1];
      MutexStep(t, m, step);
      UsesStep(t, m, step);
      BalanceStep(t, m, step);
      ExplainsStep(t, m, step);
      RealTimeStep(t, m, step);
    }
  }

  /**
   Linearizability: every history of every run, whatever the interleaving, has a sequential order of
   its calls that respects real time and gives the same replies.
   */
  lemma Linearizable(t: Terms, run: Run, n: nat)
    requires ValidTerms(t) && ValidRun(t, run) && n < |run.states|
    ensures exists order :: Linearizes(t, run.states[n].history, order)
  {
    RunInv(t, run, n);
    assert Linearizes(t, run.states[n].history, run.states[n].order);
  }

  function Successes(order: seq<Entry>, op: Op): nat {
    if order == [] then 0
    else Successes(order[..|order| - 1], op)
         + (if order[|order| - 1].op == op && order[|order| - 1].reply == Done then 1 else 0)
  }

  lemma {:induction false} FinalCounts(t: Terms, order: seq<Entry>)
    requires Legal(t, order)
    ensures Final(t, order) == t.start + Successes(order, Deposit) - Successes(order, Withdraw)
  {
    if order != [] {
      FinalCounts(t, order[..|order| - 1]);
    }
  }

  /** Conservation: the balance is the opening balance plus deposits less withdrawals that succeeded, within 0..cap. */
  lemma BalanceConserved(t: Terms, run: Run, n: nat)
    requires ValidTerms(t) && ValidRun(t, run) && n < |run.states|
    ensures var m := run.states[n];
            && m.balance == t.start + Successes(m.order, Deposit) - Successes(m.order, Withdraw)
            && 0 <= m.balance <= t.cap
  {
    RunInv(t, run, n);
    FinalCounts(t, run.states[n].order);
  }

  /** What the account holds after the first `p` served operations, by counting successes. */
  function BalanceBefore(t: Terms, order: seq<Entry>, p: nat): int
    requires p <= |order|
  {
    t.start + Successes(order[..p], Deposit) - Successes(order[..p], Withdraw)
  }

  /** The reply that the counts call for: refused at the cap, refused at zero, or the amount itself. */
  predicate ReplyFits(t: Terms, e: Entry, balance: int) {
    match e.op
    case Deposit => e.reply == if balance < t.cap then Done else Failed(Unavailable)
    case Withdraw => e.reply == if 0 < balance then Done else Failed(Unavailable)
    case GetBalance => e.reply == Value(balance)
  }

  lemma {:induction false} RepliesFit(t: Terms, order: seq<Entry>, p: nat)
    requires Legal(t, order) && p < |order|
    ensures ReplyFits(t, order[p], BalanceBefore(t, order, p))
    decreases |order|
  {
    var init := order[..|order| - 1];
    if p == |init| {
      FinalCounts(t, init);
    } else {
      RepliesFit(t, init, p);
      assert init[..p] == order[..p];
    }
  }

  /**
   Every answer a caller gets is the one the account's history of successes calls for, at the call's
   place in the sequential order: the balance read is start plus deposits less withdrawals, and an
   operation is refused exactly at the cap or at zero.
   */
  lemma RepliesAreTrue(t: Terms, run: Run, n: nat, k: nat) returns (p: nat)
    requires ValidTerms(t) && ValidRun(t, run) && n < |run.states|
    requires k < |run.states[n].history| && run.states[n].history[k].Respond?
    ensures var m, call := run.states[n], run.states[n].history[k].call;
            && p < |m.order| && m.order[p].call == call && m.order[p].reply == m.history[k].reply
            && Invoke(call, m.order[p].op) in m.history
            && ReplyFits(t, m.order[p], BalanceBefore(t, m.order, p))
  {
    RunInv(t, run, n);
    hide MutexOk, RealTime, Legal, BalanceBefore, ReplyFits;
    var m := run.states[n];
    assert Served(m.order, m.history[k].call, m.history[k].reply);
    p :| 0 <= p < |m.order| && m.order[p].call == m.history[k].call && m.order[p].reply == m.history[k].reply;
    RepliesFit(t, m.order, p);
  }

  lemma {:induction false} LegalReplies(t: Terms, order: seq<Entry>)
    requires Legal(t, order)
    ensures forall p | 0 <= p < |order| :: order[p].reply != Failed(Poisoned)
  {
    if order != [] {
      LegalReplies(t, order[..|order| - 1]);
    }
  }

  /**
   The mutex is never poisoned: in no run does the arithmetic of a critical section overflow, so no call
   panics and none ever reports a poisoned lock.
   */
  lemma NeverPoisoned(t: Terms, run: Run, n: nat)
    requires ValidTerms(t) && ValidRun(t, run) && n < |run.states|
    ensures var m := run.states[n];
            && !m.poisoned && (forall call | call in m.calls :: !m.calls[call].Panicked?)
            && (forall k | 0 <= k < |m.history| && m.history[k].Respond? :: m.history[k].reply != Failed(Poisoned))
  {
    hide MutexOk, RealTime;
    RunInv(t, run, n);
    var m := run.states[n];
    LegalReplies(t, m.order);
    forall call | call in m.calls ensures !m.calls[call].Panicked? { assert PhaseOk(m, call); }
    forall k | 0 <= k < |m.history| && m.history[k].Respond? ensures m.history[k].reply != Failed(Poisoned) {
      assert Served(m.order, m.history[k].call, m.history[k].reply);
    }
  }

  /** With terms that are not valid it can be: a cap beyond the range of i32 lets a deposit panic. */
  lemma OverflowPoisons(m: Machine, call: nat, cap: int)
    requires call in m.calls && m.calls[call] == Loaded(Deposit, I32_MAX) && cap > I32_MAX
    ensures Store(Terms(0, cap), m, call).poisoned && Store(Terms(0, cap), m, call).calls[call].Panicked?
  {
  }

  /** Both shipped accounts are instances. */
  lemma ShippedAccounts(run: Run, n: nat)
    requires n < |run.states|
    ensures ValidRun(ACCOUNT, run) ==>
              0 <= run.states[n].balance <= 2 && exists order :: Linearizes(ACCOUNT, run.states[n].history, order)
    ensures ValidRun(CORE, run) ==>
              0 <= run.states[n].balance <= 10 && exists order :: Linearizes(CORE, run.states[n].history, order)
  {
    if ValidRun(ACCOUNT, run) {
      Linearizable(ACCOUNT, run, n);
      BalanceConserved(ACCOUNT, run, n);
    }
    if ValidRun(CORE, run) {
      Linearizable(CORE, run, n);
      BalanceConserved(CORE, run, n);
    }
  }
}
