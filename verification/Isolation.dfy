/**
 Principals do not meet: what a call reads, changes and answers belongs to the principal that made it
 (`_authorize` of `TaskStore` and the locked sections of pipeline/a2a_coordination.py).
 */
module Isolation {
  import opened Common
  import opened Records
  import opened Budgets
  import opened Coordinator
  import opened StoreInvariant

  /** For whom a call acts, and whose task it answers with; nobody's after an error or a crash. */
  function PrincipalOf(pc: Pc): Option<string> {
    match pc
    case SubmitRead(_, principal) => Some(principal)
    case SubmitAuthorize(_, principal) => Some(principal)
    case SubmitCreate(r, _) => Some(r.principal)
    case SubmitBegin(_, principal) => Some(principal)
    case SubmitSend(_, principal, _) => Some(principal)
    case SubmitWait(_, principal, _) => Some(principal)
    case GetRead(_, principal, _) => Some(principal)
    case GetClock(_, principal) => Some(principal)
    case GetClaim(_, principal, _) => Some(principal)
    case ReconcileWait(_, principal, _) => Some(principal)
    case RefreshWait(_, principal, _) => Some(principal)
    case CancelRead(_, principal) => Some(principal)
    case CancelSend(_, principal, _, _) => Some(principal)
    case CancelWait(_, principal, _, _) => Some(principal)
    case Settle(_, principal, _, _, _, _) => Some(principal)
    case Finished(outcome) => if outcome.Ok? then Some(outcome.value.principal) else None
    case Crashed => None
  }

  /** The step changes, creates and answers with nothing but tasks of the principal the call acts for. */
  ghost predicate Stays(s: Sys, c: nat, t: Sys)
    requires c in s.calls
  {
    var principal := PrincipalOf(s.calls[c].pc);
    && c in t.calls
    && (PrincipalOf(t.calls[c].pc).Some? ==> PrincipalOf(t.calls[c].pc) == principal)
    && (forall id | id in s.tasks && (id in t.tasks ==> t.tasks[id] != s.tasks[id]) ::
          Some(s.tasks[id].principal) == principal && id in t.tasks)
    && (forall id | id in t.tasks && (id in s.tasks ==> t.tasks[id] != s.tasks[id]) ::
          Some(t.tasks[id].principal) == principal)
  }

  lemma ClaimKeepsPrincipal(r: Record, owner: string, lease: nat, observedAt: int)
    ensures ClaimRecovery(r, owner, lease, observedAt).Ok? ==>
              ClaimRecovery(r, owner, lease, observedAt).value.0.principal == r.principal
  {
  }

  lemma BeginStays(s: Sys, c: nat, item: WorkItem, principal: string)
    requires c in s.calls && s.calls[c].pc == SubmitBegin(item, principal)
    ensures Stays(s, c, StepBegin(s, c, item, principal))
  {
  }

  lemma ClaimStays(s: Sys, c: nat, id: string, principal: string, observedAt: int)
    requires c in s.calls && s.calls[c].pc == GetClaim(id, principal, observedAt)
    ensures Stays(s, c, StepClaim(s, c, id, principal, observedAt))
  {
    if Read(s.tasks, id, principal).Ok? {
      ClaimKeepsPrincipal(s.tasks[id], s.calls[c].owner, s.calls[c].lease, observedAt);
    }
    hide ClaimRecovery;
  }

  lemma CancelStays(s: Sys, c: nat, id: string, principal: string)
    requires c in s.calls && s.calls[c].pc == CancelRead(id, principal)
    ensures Stays(s, c, StepCancelRead(s, c, id, principal))
  {
    if Read(s.tasks, id, principal).Ok? {
      assert RequestCancel(s.tasks[id], s.clock).0.principal == principal;
    }
    hide RequestCancel, Terminal, Truthy;
  }

  lemma SettleStays(s: Sys, c: nat)
    requires c in s.calls && s.calls[c].pc.Settle?
    ensures var pc := s.calls[c].pc;
            Stays(s, c, StepSettle(s, c, pc.id, pc.principal, pc.attempt, pc.event, pc.forward))
  {
    var pc := s.calls[c].pc;
    if Read(s.tasks, pc.id, pc.principal).Ok? {
      EventsAdvance(s.tasks[pc.id], pc.attempt, pc.event, s.clock);
    }
    hide ApplyEvent, Terminal;
  }

  /** A retry is answered with the stored task only if that is the same principal's. */
  lemma CreateStays(s: Sys, c: nat)
    requires c in s.calls && s.calls[c].pc.SubmitCreate?
    requires var r := s.calls[c].pc.record;
             r.item.id in s.tasks && s.tasks[r.item.id].request == r.request ==>
               s.tasks[r.item.id].principal == r.principal
    ensures Stays(s, c, StepCreate(s, c, s.calls[c].pc.record, s.calls[c].pc.ceiling))
  {
    hide CheckCreate;
  }

  lemma AdvanceStays(s: Sys, c: nat)
    requires c in s.calls
    requires s.calls[c].pc.SubmitCreate? ==>
               var r := s.calls[c].pc.record;
               r.item.id in s.tasks && s.tasks[r.item.id].request == r.request ==>
                 s.tasks[r.item.id].principal == r.principal
    ensures Stays(s, c, StepAdvance(s, c))
  {
    match s.calls[c].pc {
      case SubmitBegin(item, principal) => BeginStays(s, c, item, principal);
      case GetClaim(id, principal, observedAt) => ClaimStays(s, c, id, principal, observedAt);
      case CancelRead(id, principal) => CancelStays(s, c, id, principal);
      case Settle(_, _, _, _, _, _) => SettleStays(s, c);
      case SubmitCreate(_, _) => CreateStays(s, c);
      case _ =>
    }
    hide StepBegin, StepClaim, StepCancelRead, StepSettle, StepCreate;
  }

  // ---------------------------------------------------------------- over runs

  /** The call was made for this principal. */
  ghost predicate MadeFor(run: Run, n: nat, c: nat, principal: string) {
    exists k | 0 <= k < n && k < |run.actions| ::
      run.actions[k].Invoke? && run.actions[k].c == c && PrincipalOf(run.actions[k].pc) == Some(principal)
  }

  lemma StepStays(cfg: Config, s: Sys, a: Action, c: nat)
    requires forall x, y | cfg.requestDigest(x) == cfg.requestDigest(y) :: x == y
    requires StoreOk(cfg, s) && Enabled(s, a) && a == Advance(c)
    ensures Stays(s, c, Next(cfg, s, a))
  {
    assert PcOk(cfg, s.tasks, s.calls[c].pc);
    if s.calls[c].pc.SubmitCreate? { SameRequest(cfg, s, c); }
    hide StoreOk, StepAdvance, Stays;
    AdvanceStays(s, c);
  }

  lemma SameRequest(cfg: Config, s: Sys, c: nat)
    requires forall x, y | cfg.requestDigest(x) == cfg.requestDigest(y) :: x == y
    requires StoreOk(cfg, s) && c in s.calls && s.calls[c].pc.SubmitCreate?
    ensures var r := s.calls[c].pc.record;
            r.item.id in s.tasks && s.tasks[r.item.id].request == r.request ==>
              s.tasks[r.item.id].principal == r.principal
  {
    assert PcOk(cfg, s.tasks, s.calls[c].pc);
    hide RecordOk, ChildOk, OrderOk;
  }

  lemma WaitStays(pc: Pc, reply: RemoteReply, code: Code, message: string)
    ensures PrincipalOf(AfterReply(pc, reply)) == PrincipalOf(pc)
    ensures PrincipalOf(AfterNoReply(pc, code, message)).Some? ==>
              PrincipalOf(AfterNoReply(pc, code, message)) == PrincipalOf(pc)
  {
    hide Classify;
  }

  lemma AuthorizeStays(cfg: Config, s: Sys, c: nat, worker: string)
    requires c in s.calls && s.calls[c].pc.SubmitAuthorize?
    ensures var pc := s.calls[c].pc;
            var t := StepAuthorize(cfg, s, c, pc.item, pc.principal, worker);
            && t == s.(calls := t.calls) && t.calls.Keys == s.calls.Keys
            && (PrincipalOf(t.calls[c].pc).Some? ==> PrincipalOf(t.calls[c].pc) == Some(pc.principal))
            && forall d | d in s.calls && d != c :: t.calls[d] == s.calls[d]
  {
    hide Authorize;
  }

  lemma CallStays(cfg: Config, s: Sys, a: Action, c: nat)
    requires forall x, y | cfg.requestDigest(x) == cfg.requestDigest(y) :: x == y
    requires StoreOk(cfg, s) && Enabled(s, a) && c in Next(cfg, s, a).calls
    ensures var after := Next(cfg, s, a).calls[c].pc;
            if c in s.calls then PrincipalOf(after).Some? ==> PrincipalOf(after) == PrincipalOf(s.calls[c].pc)
            else a.Invoke? && a.c == c && a.pc == after
  {
    match a {
      case Advance(d) => if d == c { StepStays(cfg, s, a, c); } else { AdvanceOthers(s, d); }
      case Reply(d, reply) => WaitStays(s.calls[d].pc, reply, TaskNotFound, "");
      case NoReply(d, code, message) =>
        WaitStays(s.calls[d].pc, RemoteReply("", Working, None, ""), code, message);
      case ChooseWorker(d, worker) => AuthorizeStays(cfg, s, d, worker);
      case _ => OtherSteps(cfg, s, a, c);
    }
    hide StoreOk, StepAdvance, StepAuthorize, AfterReply, AfterNoReply, StepRenew, StepCrash, PrincipalOf;
  }

  lemma OtherSteps(cfg: Config, s: Sys, a: Action, c: nat)
    requires Enabled(s, a) && (a.Invoke? || a.Renew? || a.Crash? || a.Tick?) && c in Next(cfg, s, a).calls
    ensures var after := Next(cfg, s, a).calls[c].pc;
            if c in s.calls then PrincipalOf(after).Some? ==> PrincipalOf(after) == PrincipalOf(s.calls[c].pc)
            else a.Invoke? && a.c == c && a.pc == after
  {
    hide RenewLease;
  }

  lemma {:induction false} RunPrincipals(cfg: Config, run: Run, n: nat, c: nat)
    requires forall x, y | cfg.requestDigest(x) == cfg.requestDigest(y) :: x == y
    requires ValidRun(cfg, run) && n < |run.states| && c in run.states[n].calls
    requires PrincipalOf(run.states[n].calls[c].pc).Some?
    ensures MadeFor(run, n, c, PrincipalOf(run.states[n].calls[c].pc).value)
  {
    hide Next, StoreOk, PrincipalOf;
    if n > 0 {
      RunStoreOk(cfg, run, n - 1);
      assert StepAt(cfg, run, n - 1);
      CallStays(cfg, run.states[n - 1], run.actions[n - 1], c);
      if c in run.states[n - 1].calls { RunPrincipals(cfg, run, n - 1, c); }
    }
  }

  /** Whatever a call answers with is a task of the principal that made the call. */
  lemma AnswersStayWithPrincipal(cfg: Config, run: Run, n: nat, c: nat) returns (k: nat)
    requires forall x, y | cfg.requestDigest(x) == cfg.requestDigest(y) :: x == y
    requires ValidRun(cfg, run) && n < |run.states| && c in run.states[n].calls
    requires run.states[n].calls[c].pc.Finished? && run.states[n].calls[c].pc.outcome.Ok?
    ensures k < n && run.actions[k].Invoke? && run.actions[k].c == c
    ensures var pc, principal := run.actions[k].pc, run.states[n].calls[c].pc.outcome.value.principal;
            && (pc.SubmitRead? ==> pc.principal == principal) && (pc.GetRead? ==> pc.principal == principal)
            && (pc.CancelRead? ==> pc.principal == principal)
            && (pc.SubmitRead? || pc.GetRead? || pc.CancelRead?)
  {
    RunPrincipals(cfg, run, n, c);
    var principal := run.states[n].calls[c].pc.outcome.value.principal;
    k :| 0 <= k < n && k < |run.actions| && run.actions[k].Invoke? && run.actions[k].c == c
         && PrincipalOf(run.actions[k].pc) == Some(principal);
    assert StepAt(cfg, run, k);
    hide Next;
  }

  lemma OnlyRenewals(cfg: Config, s: Sys, a: Action)
    requires Enabled(s, a) && !a.Advance?
    ensures Next(cfg, s, a).tasks.Keys == s.tasks.Keys
    ensures forall id | id in s.tasks && Next(cfg, s, a).tasks[id] != s.tasks[id] ::
              a.Renew? && a.principal == s.tasks[id].principal == Next(cfg, s, a).tasks[id].principal
  {
    hide Authorize, Classify;
  }

  /** A step that changes or creates a task is a lease renewal for its principal, or of a call made for it. */
  lemma ChangesStayWithPrincipal(cfg: Config, run: Run, n: nat, id: string)
    requires forall x, y | cfg.requestDigest(x) == cfg.requestDigest(y) :: x == y
    requires ValidRun(cfg, run) && n < |run.actions| && id in run.states[n + 1].tasks
    requires id in run.states[n].tasks ==> run.states[n + 1].tasks[id] != run.states[n].tasks[id]
    ensures var a, principal := run.actions[n], run.states[n + 1].tasks[id].principal;
            (a.Renew? && a.principal == principal) || (a.Advance? && MadeFor(run, n, a.c, principal))
  {
    RunStoreOk(cfg, run, n);
    assert StepAt(cfg, run, n);
    var s, a := run.states[n], run.actions[n];
    hide ValidRun, StoreOk, MadeFor, PrincipalOf;
    if a.Advance? {
      StepStays(cfg, s, a, a.c);
      RunPrincipals(cfg, run, n, a.c);
      hide Next;
    } else {
      OnlyRenewals(cfg, s, a);
    }
  }
}
