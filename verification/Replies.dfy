/**
 What stored states and results come from (`_apply_observation`, `_cancel_remote` and
 `transition_remote_event` in pipeline/a2a_coordination.py).

 Every confirmed record reports a reply that the worker gave to a call on this very task and attempt,
 and nothing else: its remote identity, its state as far as it is valid, and its validated result.
 */
module Replies {
  import opened Common
  import opened Scopes
  import opened Records
  import opened Budgets
  import opened Coordinator
  import opened StoreInvariant
  import opened Submission
  import opened Delegation
  import Cancellation

  // ---------------------------------------------------------------- calls that wait for the worker

  /** The item of a call that is about to ask the worker, or waits for its answer. */
  function Asked(pc: Pc): Option<WorkItem> {
    match pc
    case SubmitSend(item, _, _) => Some(item)
    case SubmitWait(item, _, _) => Some(item)
    case ReconcileWait(item, _, _) => Some(item)
    case RefreshWait(item, _, _) => Some(item)
    case CancelSend(item, _, _, _) => Some(item)
    case CancelWait(item, _, _, _) => Some(item)
    case _ => None
  }

  function AskedAttempt(pc: Pc): Attempt
    requires Asked(pc).Some?
  {
    pc.attempt
  }

  predicate Stored(tasks: Tasks, item: WorkItem) {
    item.id in tasks && tasks[item.id].item == item
  }

  /** Calls ask for stored items. */
  ghost predicate AskersOk(s: Sys) {
    forall c | c in s.calls && Asked(s.calls[c].pc).Some? :: Stored(s.tasks, Asked(s.calls[c].pc).value)
  }

  /** The task a call is cancelling, from the moment it means to. */
  function Cancelling(pc: Pc): Option<string> {
    match pc
    case CancelSend(item, _, _, _) => Some(item.id)
    case CancelWait(item, _, _, _) => Some(item.id)
    case Settle(id, _, _, e, _, sentTo) => if sentTo.Some? || (e.TransportError? && e.rpc == RpcCancel) then Some(id)
        else None
    case _ => None
  }

  ghost predicate CancellersOk(s: Sys) {
    forall c | c in s.calls && Cancelling(s.calls[c].pc).Some? ::
      Cancelling(s.calls[c].pc).value in s.tasks && s.tasks[Cancelling(s.calls[c].pc).value].cancelRequested
  }

  lemma AskerSettle(s: Sys, c: nat)
    requires c in s.calls && s.calls[c].pc.Settle?
    ensures var pc := s.calls[c].pc;
            var t := StepSettle(s, c, pc.id, pc.principal, pc.attempt, pc.event, pc.forward);
            && c in t.calls
            && (Asked(t.calls[c].pc).Some? ==> pc.id in s.tasks && Asked(t.calls[c].pc) == Some(s.tasks[pc.id].item))
  {
    var pc := s.calls[c].pc;
    if pc.id in s.tasks { EventShape(s.tasks[pc.id], pc.attempt, pc.event, s.clock); }
    hide ApplyEvent, Terminal, Truthy;
  }

  lemma AskerClaim(s: Sys, c: nat)
    requires c in s.calls && s.calls[c].pc.GetClaim?
    ensures var pc := s.calls[c].pc;
            var t := StepClaim(s, c, pc.id, pc.principal, pc.observedAt);
            && c in t.calls
            && (Asked(t.calls[c].pc).Some? ==> pc.id in s.tasks && Asked(t.calls[c].pc) == Some(s.tasks[pc.id].item))
  {
    hide Terminal, Truthy;
  }

  lemma AskerAdvance(s: Sys, c: nat)
    requires c in s.calls && (forall id | id in s.tasks :: s.tasks[id].item.id == id)
    ensures c in StepAdvance(s, c).calls
    ensures var pc, after := s.calls[c].pc, StepAdvance(s, c).calls[c].pc;
            Asked(after).Some? ==>
              || Asked(after) == Asked(pc)
              || (pc.SubmitBegin? && Asked(after) == Some(pc.item))
              || Stored(s.tasks, Asked(after).value)
  {
    match s.calls[c].pc {
      case Settle(_, _, _, _, _, _) => AskerSettle(s, c);
      case GetClaim(id, principal, observedAt) => AskerClaim(s, c);
      case _ =>
    }
    hide CheckCreate, BeginDispatch, StepSettle, StepClaim;
  }

  lemma AskerStep(cfg: Config, s: Sys, a: Action, c: nat)
    requires Enabled(s, a) && c in Next(cfg, s, a).calls && (forall id | id in s.tasks :: s.tasks[id].item.id == id)
    requires Asked(Next(cfg, s, a).calls[c].pc).Some?
    ensures c in s.calls
    ensures var pc, item := s.calls[c].pc, Asked(Next(cfg, s, a).calls[c].pc);
            item == Asked(pc) || (pc.SubmitBegin? && item == Some(pc.item)) || Stored(s.tasks, item.value)
  {
    hide StepAdvance, Authorize, RenewLease, Classify;
    if a.Advance? {
      if a.c == c { AskerAdvance(s, c); } else { AdvanceOthers(s, a.c); }
    }
  }

  lemma CancellerSettle(s: Sys, c: nat)
    requires c in s.calls && s.calls[c].pc.Settle?
    requires s.calls[c].pc.id in s.tasks ==> s.tasks[s.calls[c].pc.id].item.id == s.calls[c].pc.id
    ensures var pc := s.calls[c].pc;
            var t := StepSettle(s, c, pc.id, pc.principal, pc.attempt, pc.event, pc.forward);
            && c in t.calls
            && (Cancelling(t.calls[c].pc).Some? ==>
                  && Cancelling(t.calls[c].pc) == Some(pc.id) && pc.id in t.tasks
                  && t.tasks[pc.id].cancelRequested)
  {
    var pc := s.calls[c].pc;
    if pc.id in s.tasks { EventShape(s.tasks[pc.id], pc.attempt, pc.event, s.clock); }
    hide ApplyEvent, Terminal, Truthy;
  }

  lemma CancellerRequest(s: Sys, c: nat)
    requires c in s.calls && s.calls[c].pc.CancelRead?
    requires s.calls[c].pc.id in s.tasks ==> s.tasks[s.calls[c].pc.id].item.id == s.calls[c].pc.id
    ensures var pc := s.calls[c].pc;
            var t := StepCancelRead(s, c, pc.id, pc.principal);
            && c in t.calls
            && (Cancelling(t.calls[c].pc).Some? ==>
                  && Cancelling(t.calls[c].pc) == Some(pc.id) && pc.id in t.tasks
                  && t.tasks[pc.id].cancelRequested)
  {
    hide Terminal, Truthy;
  }

  lemma CancellerAdvance(s: Sys, c: nat)
    requires c in s.calls && (forall id | id in s.tasks :: s.tasks[id].item.id == id)
    ensures c in StepAdvance(s, c).calls
    ensures var pc, t := s.calls[c].pc, StepAdvance(s, c);
            Cancelling(t.calls[c].pc).Some? ==>
              || Cancelling(t.calls[c].pc) == Cancelling(pc)
              || (Cancelling(t.calls[c].pc).value in t.tasks &&
                  t.tasks[Cancelling(t.calls[c].pc).value].cancelRequested)
  {
    match s.calls[c].pc {
      case Settle(_, _, _, _, _, _) => CancellerSettle(s, c);
      case CancelRead(_, _) => CancellerRequest(s, c);
      case _ =>
    }
    hide CheckCreate, BeginDispatch, ClaimRecovery, StepSettle, StepCancelRead;
  }

  lemma CancellerStep(cfg: Config, s: Sys, a: Action, c: nat)
    requires Enabled(s, a) && c in Next(cfg, s, a).calls && (forall id | id in s.tasks :: s.tasks[id].item.id == id)
    ensures var t := Next(cfg, s, a);
            Cancelling(t.calls[c].pc).Some? ==>
              || (c in s.calls && Cancelling(t.calls[c].pc) == Cancelling(s.calls[c].pc))
              || (Cancelling(t.calls[c].pc).value in t.tasks &&
                  t.tasks[Cancelling(t.calls[c].pc).value].cancelRequested)
  {
    hide StepAdvance, Authorize, RenewLease;
    if a.Advance? {
      if a.c == c { CancellerAdvance(s, c); } else { AdvanceOthers(s, a.c); }
    } else if a.Reply? && a.c == c {
      ReplyIsNoFailure(s.calls[c].pc, a.reply);
    }
  }

  lemma ReplyIsNoFailure(pc: Pc, reply: RemoteReply)
    requires Waiting(pc)
    ensures var after := AfterReply(pc, reply); after.Settle? && !after.event.TransportError?
  {
    ClassifyExact(pc.item, reply);
    hide Classify;
  }

  lemma IdsMatch(cfg: Config, tasks: Tasks)
    requires TasksOk(cfg, tasks)
    ensures forall id | id in tasks :: tasks[id].item.id == id
  {
  }

  lemma {:induction false} RunCallsOk(cfg: Config, run: Run, n: nat)
    requires ValidRun(cfg, run) && n < |run.states|
    ensures AskersOk(run.states[n]) && CancellersOk(run.states[n])
  {
    hide Next, TasksOk, CallsOk, OrderOk, ChildOk, Advances;
    if n > 0 {
      RunCallsOk(cfg, run, n - 1);
      RunStoreOk(cfg, run, n - 1);
      RunSubmissionOk(cfg, run, n - 1);
      assert StepAt(cfg, run, n - 1);
      var s, a, t := run.states[n - 1], run.actions[n - 1], run.states[n];
      IdsMatch(cfg, s.tasks);
      TasksStep(cfg, s, a);
      ItemsKept(s.tasks, t.tasks);
      IntentsKept(s.tasks, t.tasks);
      forall c | c in t.calls && Asked(t.calls[c].pc).Some? ensures Stored(t.tasks, Asked(t.calls[c].pc).value) {
        AskerStep(cfg, s, a, c);
      }
      forall c | c in t.calls && Cancelling(t.calls[c].pc).Some?
        ensures Cancelling(t.calls[c].pc).value in t.tasks && t.tasks[Cancelling(t.calls[c].pc).value].cancelRequested
      {
        CancellerStep(cfg, s, a, c);
      }
    }
  }

  lemma IntentsKept(before: Tasks, after: Tasks)
    requires Grows(before, after)
    ensures forall id | id in before && before[id].cancelRequested :: id in after && after[id].cancelRequested
  {
    assert forall id | id in before :: Advances(before[id], after[id]);
  }

  // ---------------------------------------------------------------- where settlements come from

  /** At this step the worker answered a call on the task, for this attempt. */
  ghost predicate RepliedAt(run: Run, k: nat, c: nat, id: string, attempt: Attempt, reply: RemoteReply) {
    && k < |run.actions| && k < |run.states| && run.actions[k] == Reply(c, reply) && c in run.states[k].calls
    && var pc := run.states[k].calls[c].pc;
    && Waiting(pc) && Asked(pc).Some? && Asked(pc).value.id == id && AskedAttempt(pc) == attempt
  }

  /** At this step a submission or reconciliation of the task failed or came to nothing. */
  ghost predicate FailedAt(run: Run, k: nat, c: nat, id: string, attempt: Attempt) {
    && k < |run.actions| && k < |run.states| && run.actions[k].NoReply? && run.actions[k].c == c
    && c in run.states[k].calls
    && var pc := run.states[k].calls[c].pc;
    && (pc.SubmitWait? || pc.ReconcileWait?) && pc.item.id == id && pc.attempt == attempt
  }

  /** The event that the call settles is the classified reply, or a failure that happened. */
  ghost predicate HasOrigin(run: Run, n: nat, c: nat)
    requires n < |run.states| && c in run.states[n].calls && run.states[n].calls[c].pc.Settle?
  {
    var s, pc := run.states[n], run.states[n].calls[c].pc;
    && pc.id in s.tasks
    && (pc.event.TransportError? && pc.event.rpc != RpcCancel ==>
          exists k | 0 <= k < n :: FailedAt(run, k, c, pc.id, pc.attempt))
    && (!pc.event.TransportError? ==> exists k, reply | 0 <= k < n && RepliedAt(run, k, c, pc.id, pc.attempt, reply) ::
          pc.event == Classify(s.tasks[pc.id].item, reply))
  }

  lemma SettleOrigin(cfg: Config, s: Sys, a: Action, c: nat)
    requires Enabled(s, a) && c in Next(cfg, s, a).calls && Next(cfg, s, a).calls[c].pc.Settle?
    ensures c in s.calls
    ensures var pc, after := s.calls[c].pc, Next(cfg, s, a).calls[c].pc;
            || after == pc
            || (a.Reply? && a.c == c && Waiting(pc) && after.id == pc.item.id && after.attempt == pc.attempt
                && after.event == Classify(pc.item, a.reply))
            || (a.NoReply? && a.c == c && Waiting(pc) && after.id == pc.item.id && after.attempt == pc.attempt
                && after.event.TransportError? &&
                    (after.event.rpc != RpcCancel ==> pc.SubmitWait? || pc.ReconcileWait?))
  {
    hide StepAdvance, Authorize, RenewLease, Classify;
    if a.Advance? {
      if a.c == c { AdvanceNeverBringsToSettle(s, c); } else { AdvanceOthers(s, a.c); }
    }
  }

  lemma AdvanceNeverBringsToSettle(s: Sys, c: nat)
    requires c in s.calls
    ensures c in StepAdvance(s, c).calls
    ensures StepAdvance(s, c).calls[c].pc.Settle? ==> StepAdvance(s, c).calls[c].pc == s.calls[c].pc
  {
    hide CheckCreate, ApplyEvent, BeginDispatch, RequestCancel, ClaimRecovery;
  }

  lemma OriginLasts(cfg: Config, run: Run, n: nat, c: nat)
    requires n + 1 < |run.states| && c in run.states[n].calls && run.states[n].calls[c].pc.Settle?
    requires HasOrigin(run, n, c)
    requires c in run.states[n + 1].calls && run.states[n + 1].calls[c].pc == run.states[n].calls[c].pc
    requires forall id | id in run.states[n].tasks ::
               id in run.states[n + 1].tasks && run.states[n + 1].tasks[id].item == run.states[n].tasks[id].item
    ensures HasOrigin(run, n + 1, c)
  {
    hide RepliedAt, FailedAt, Classify;
  }

  lemma OriginStarts(cfg: Config, run: Run, n: nat, c: nat)
    requires ValidRun(cfg, run) && n < |run.actions| && AskersOk(run.states[n]) && c in run.states[n].calls
    requires c in run.states[n + 1].calls && run.states[n + 1].calls[c].pc.Settle?
    requires run.states[n + 1].calls[c].pc != run.states[n].calls[c].pc
    ensures HasOrigin(run, n + 1, c)
  {
    hide Next, Classify;
    assert StepAt(cfg, run, n);
    RunStoreOk(cfg, run, n);
    var s, a := run.states[n], run.actions[n];
    SettleOrigin(cfg, s, a, c);
    TasksStep(cfg, s, a);
    ItemsKept(s.tasks, run.states[n + 1].tasks);
    hide StoreOk, Grows;
    var pc := s.calls[c].pc;
    WaitersAsk(pc);
    assert Stored(s.tasks, Asked(pc).value);
    if a.Reply? {
      assert RepliedAt(run, n, c, pc.item.id, pc.attempt, a.reply);
      ClassifyExact(pc.item, a.reply);
    } else if run.states[n + 1].calls[c].pc.event.rpc != RpcCancel {
      assert FailedAt(run, n, c, pc.item.id, pc.attempt);
    }
  }

  lemma WaitersAsk(pc: Pc)
    requires Waiting(pc)
    ensures Asked(pc) == Some(pc.item) && AskedAttempt(pc) == pc.attempt
  {
  }

  lemma {:induction false} RunOrigins(cfg: Config, run: Run, n: nat)
    requires ValidRun(cfg, run) && n < |run.states|
    ensures forall c | c in run.states[n].calls && run.states[n].calls[c].pc.Settle? :: HasOrigin(run, n, c)
  {
    hide Next, HasOrigin, TasksOk, CallsOk, OrderOk, ChildOk, Grows;
    if n > 0 {
      RunOrigins(cfg, run, n - 1);
      RunCallsOk(cfg, run, n - 1);
      RunStoreOk(cfg, run, n - 1);
      assert StepAt(cfg, run, n - 1);
      var s, a, t := run.states[n - 1], run.actions[n - 1], run.states[n];
      TasksStep(cfg, s, a);
      ItemsKept(s.tasks, t.tasks);
      forall c | c in t.calls && t.calls[c].pc.Settle? ensures HasOrigin(run, n, c) {
        SettleOrigin(cfg, s, a, c);
        if t.calls[c].pc == s.calls[c].pc { OriginLasts(cfg, run, n - 1, c); }
            else { OriginStarts(cfg, run, n - 1, c); }
      }
    }
  }

  // ---------------------------------------------------------------- what a record reports

  /** What a record says about a reply of the worker: all of a valid one, and of an invalid one that it was. */
  predicate Reports(r: Record, reply: RemoteReply) {
    && r.remoteId == Some(reply.remoteId) && r.remoteState == Some(reply.state)
    && (ValidReply(r.item, reply) ==>
          && r.result == reply.result
          && r.state == (if r.cancelRequested && !Terminal(reply.state) then CancellationPending else reply.state)
          && (!r.cancelRequested || Terminal(reply.state) ==> r.outcome == Some(Observed(reply.state, reply.message)))
          && (r.cancelRequested && Terminal(reply.state) ==> r.cancelStatus == RemoteTerminal))
    && (!ValidReply(r.item, reply) ==>
          if Terminal(reply.state) then r.state == Failed && r.outcome.Some? && r.outcome.value.OutcomeFailed?
          else
            || (r.state == DispatchUncertain && r.outcome.Some? && r.outcome.value.ObservationInvalid?)
            || (r.cancelRequested && r.state == CancellationPending))
  }

  /** A change that leaves what the record reports alone, but for a cancellation of a live task. */
  ghost predicate KeepsReport(r: Record, after: Record) {
    && after.item == r.item && after.attempt == r.attempt && after.remoteId == r.remoteId
    && after.remoteState == r.remoteState && after.result == r.result
    && ((after.state == r.state && after.cancelRequested == r.cancelRequested && after.outcome == r.outcome
         && (Terminal(r.state) ==> after.cancelStatus == r.cancelStatus))
        || (!Terminal(r.state) && after.cancelRequested && after.state == CancellationPending))
  }

  lemma ReportKept(r: Record, after: Record, reply: RemoteReply)
    requires KeepsReport(r, after) && Reports(r, reply)
    ensures Reports(after, reply)
  {
    hide ResultFits;
  }

  /** An event that reaches a live record of its attempt makes the record report it. */
  ghost predicate ReportsEvent(after: Record, e: RemoteEvent) {
    && !e.TransportError? && after.remoteId == Some(e.remoteId) && after.remoteState == Some(e.remoteState)
    && (e.Observation? ==>
          && after.result == e.result && after.outcome == Some(Observed(e.remoteState, e.message))
          && after.state == (if after.cancelRequested && !Terminal(e.remoteState) then CancellationPending
              else e.remoteState)
          && (after.cancelRequested ==>
                after.cancelStatus == if Terminal(e.remoteState) then RemoteTerminal else CancelPending))
    && (e.ProtocolError? ==>
          && after.state == (if Terminal(e.remoteState) then Failed else DispatchUncertain)
          && after.outcome == Some(if Terminal(e.remoteState) then OutcomeFailed(e.code, e.message)
                                   else ObservationInvalid(e.code, e.message)))
  }

  ghost predicate ReachesLive(r: Record, attempt: Attempt, e: RemoteEvent) {
    && r.attempt == Some(attempt) && !Terminal(r.state)
    && !(Truthy(EventId(e)) && Truthy(r.remoteId) && EventId(e) != r.remoteId)
  }

  ghost predicate SameButDiagnostics(r: Record, after: Record) {
    && after.item == r.item && after.attempt == r.attempt && after.dispatch == r.dispatch
    && after.remoteId == r.remoteId
    && after.remoteState == r.remoteState && after.result == r.result && after.state == r.state
    && after.cancelRequested == r.cancelRequested && after.outcome == r.outcome && after.cancelStatus == r.cancelStatus
  }

  lemma DiagnosticsReportNothing(now: int)
    ensures forall r, code, message :: SameButDiagnostics(r, AddDiagnostic(r, code, message, now))
  {
  }

  lemma LiveEventReports(r: Record, e: RemoteEvent, now: int)
    ensures e.Observation? ==>
        ReportsEvent(AfterObservation(r, e, now), e) && AfterObservation(r, e, now).dispatch == Confirmed
    ensures e.ProtocolError? ==>
              ReportsEvent(AfterProtocolError(r, e, now), e) && AfterProtocolError(r, e, now).dispatch == Confirmed
  {
    DiagnosticsReportNothing(now);
    hide AddDiagnostic;
  }

  lemma LiveFailureReports(r: Record, e: RemoteEvent, now: int)
    requires e.TransportError?
    ensures var after := AfterTransportError(r, e, now);
            && after.item == r.item && after.attempt == r.attempt && after.remoteId == r.remoteId
            && after.remoteState == r.remoteState && after.result == r.result
            && after.cancelRequested == r.cancelRequested
            && (e.rpc == RpcCancel ==>
                  after.dispatch == r.dispatch && after.state == CancellationPending &&
                      after.cancelStatus == CancelUncertain)
            && (e.rpc != RpcCancel ==>
                  && after.dispatch == Uncertain && after.cancelStatus == r.cancelStatus
                  && after.state == if r.cancelRequested then CancellationPending else DispatchUncertain)
  {
    DiagnosticsReportNothing(now);
    hide AddDiagnostic;
  }

  lemma LateEventReports(r: Record, e: RemoteEvent, now: int)
    ensures SameButDiagnostics(r, LateEvent(r, e, now).0)
  {
    DiagnosticsReportNothing(now);
    hide AddDiagnostic;
  }

  /** An event either reaches the record and is reported, or leaves what it reports alone. */
  lemma EventReports(r: Record, attempt: Attempt, e: RemoteEvent, now: int)
    ensures var after := ApplyEvent(r, attempt, e, now).0;
            && (ReachesLive(r, attempt, e) && !e.TransportError? ==>
                ReportsEvent(after, e) && after.dispatch == Confirmed)
            && (ReachesLive(r, attempt, e) && e.TransportError? ==> after == AfterTransportError(r, e, now))
            && (!ReachesLive(r, attempt, e) ==> SameButDiagnostics(r, after))
            && after.item == r.item && after.attempt == r.attempt && after.cancelRequested == r.cancelRequested
  {
    DiagnosticsReportNothing(now);
    LiveEventReports(r, e, now);
    LateEventReports(r, e, now);
    EventShape(r, attempt, e, now);
    hide AddDiagnostic, LateEvent, AfterObservation, AfterProtocolError, AfterTransportError, ReportsEvent;
  }

  lemma ReportsReply(after: Record, reply: RemoteReply)
    requires ReportsEvent(after, Classify(after.item, reply))
    ensures Reports(after, reply)
  {
    ClassifyExact(after.item, reply);
    hide Classify, ResultFits;
  }

  // ---------------------------------------------------------------- over runs

  /** A call settled this step for the task. */
  ghost predicate SettledAt(run: Run, m: nat, c: nat, id: string) {
    && m < |run.actions| && m < |run.states| && run.actions[m] == Advance(c) && c in run.states[m].calls
    && run.states[m].calls[c].pc.Settle? && run.states[m].calls[c].pc.id == id
  }

  /** The worker replied to a call for the record's attempt, which the call then settled, and the record reports it. */
  ghost predicate ReportsReplyOf(run: Run, n: nat, r: Record, k: nat, m: nat, c: nat, attempt: Attempt,
          reply: RemoteReply) {
    && k < m < n && RepliedAt(run, k, c, r.item.id, attempt, reply) && SettledAt(run, m, c, r.item.id)
    && r.attempt == Some(attempt) && Reports(r, reply)
  }

  ghost predicate HasReply(run: Run, n: nat, r: Record) {
    exists k, m, c, attempt, reply :: ReportsReplyOf(run, n, r, k, m, c, attempt, reply)
  }

  lemma ReplyKept(run: Run, n: nat, r: Record, after: Record)
    requires HasReply(run, n, r) && KeepsReport(r, after)
    ensures HasReply(run, n + 1, after)
  {
    var k, m, c, attempt, reply :| ReportsReplyOf(run, n, r, k, m, c, attempt, reply);
    ReportKept(r, after, reply);
    hide Reports, KeepsReport, RepliedAt, SettledAt;
    assert ReportsReplyOf(run, n + 1, after, k, m, c, attempt,
        reply) by { SameReplyFor(run, n, r, after, k, m, c, attempt, reply); }
  }

  lemma SameReplyFor(run: Run, n: nat, r: Record, after: Record, k: nat, m: nat, c: nat, attempt: Attempt,
          reply: RemoteReply)
    requires ReportsReplyOf(run, n, r, k, m, c, attempt, reply) && KeepsReport(r, after) && Reports(after, reply)
    ensures ReportsReplyOf(run, n + 1, after, k, m, c, attempt, reply)
  {
    hide Reports, RepliedAt, SettledAt;
  }

  lemma SameIsUnconfirming(r: Record)
    ensures Unconfirming(r, r)
  {
  }

  lemma AdvanceReports(s: Sys, c: nat, id: string)
    requires c in s.calls && id in s.tasks && id in StepAdvance(s, c).tasks
    requires !(s.calls[c].pc.Settle? && s.calls[c].pc.id == id)
    ensures Unconfirming(s.tasks[id], StepAdvance(s, c).tasks[id])
  {
    var r, call := s.tasks[id], s.calls[c];
    SameIsUnconfirming(r);
    match call.pc {
      case SubmitBegin(_, _) => BeginReports(r, s.serial, call.owner, call.lease, s.clock);
      case GetClaim(_, _, observedAt) => ClaimReports(r, call.owner, call.lease, observedAt);
      case CancelRead(_, _) => RequestReports(r, s.clock);
      case _ =>
    }
    hide CheckCreate, ApplyEvent, BeginDispatch, RequestCancel, ClaimRecovery, ForwardCancel, Unconfirming;
  }

  /** Steps other than a settlement leave the report of a confirmed record alone, and confirm none. */
  lemma OtherStepsReport(cfg: Config, s: Sys, a: Action, id: string)
    requires TasksOk(cfg, s.tasks) && Enabled(s, a) && id in s.tasks && id in Next(cfg, s, a).tasks
    requires !(a.Advance? && s.calls[a.c].pc.Settle? && s.calls[a.c].pc.id == id)
    ensures var r, after := s.tasks[id], Next(cfg, s, a).tasks[id];
            && (after.dispatch == Confirmed ==> r.dispatch == Confirmed && KeepsReport(r, after))
            && (after.dispatch == Uncertain ==> r.dispatch == Uncertain)
            && after.result == r.result && after.item == r.item
  {
    hide Authorize, RenewLease, Classify, AfterReply, AfterNoReply, RecordOk, Granted, StepAdvance, KeepsReport;
    var r := s.tasks[id];
    assert Unconfirming(r, r) by { SameIsUnconfirming(r); }
    if a.Advance? {
      AdvanceReports(s, a.c, id);
    } else if a.Renew? {
      RenewReports(r, a.attempt, a.owner, a.lease, s.clock);
    }
  }

  ghost predicate Unconfirming(r: Record, after: Record) {
    && (after.dispatch == Confirmed ==> r.dispatch == Confirmed && KeepsReport(r, after))
    && (after.dispatch == Uncertain ==> r.dispatch == Uncertain) && after.result == r.result && after.item == r.item
  }

  lemma BeginReports(r: Record, serial: nat, owner: string, lease: nat, now: int)
    ensures Unconfirming(r, BeginDispatch(r, serial, owner, lease, now).0)
  {
  }

  lemma RenewReports(r: Record, attempt: Attempt, owner: string, lease: nat, now: int)
    ensures Unconfirming(r, RenewLease(r, attempt, owner, lease, now).0)
  {
  }

  lemma ClaimReports(r: Record, owner: string, lease: nat, observedAt: int)
    ensures ClaimRecovery(r, owner, lease, observedAt).Ok? ==>
              Unconfirming(r, ClaimRecovery(r, owner, lease, observedAt).value.0)
  {
  }

  lemma RequestReports(r: Record, now: int)
    ensures Unconfirming(r, RequestCancel(r, now).0)
  {
  }

  lemma NewIsUnconfirmed(cfg: Config, s: Sys, a: Action, id: string)
    requires StoreOk(cfg, s) && Enabled(s, a) && id !in s.tasks && id in Next(cfg, s, a).tasks
    ensures Next(cfg, s, a).tasks[id].dispatch == NotStarted && Next(cfg, s, a).tasks[id].result.None?
  {
    TasksStep(cfg, s, a);
    assert PcOk(cfg, s.tasks, s.calls[a.c].pc);
    hide Next, TasksOk, OrderOk, ChildOk, CheckCreate, Granted, ValidItem, DiagnosticsOk;
  }

  /** The record after a settlement that was allowed in, and what it reports. */
  lemma SettledRecord(cfg: Config, run: Run, n: nat, c: nat, id: string)
    requires ValidRun(cfg, run) && n < |run.actions| && SettledAt(run, n, c, id)
    requires Read(run.states[n].tasks, id, run.states[n].calls[c].pc.principal).Ok?
    ensures id in run.states[n + 1].tasks
    ensures var s, pc := run.states[n], run.states[n].calls[c].pc;
            && run.states[n + 1].tasks[id] == ApplyEvent(s.tasks[id], pc.attempt, pc.event, s.clock).0
            && s.tasks[id].item.id == id
  {
    RunStoreOk(cfg, run, n);
    assert StepAt(cfg, run, n);
    IdsMatch(cfg, run.states[n].tasks);
    Cancellation.SettleStores(run.states[n], c);
    hide ApplyEvent, StepAdvance, TasksOk, CallsOk, OrderOk, ChildOk;
  }

  lemma DeniedSettlement(cfg: Config, run: Run, n: nat, c: nat, id: string)
    requires ValidRun(cfg, run) && n < |run.actions| && SettledAt(run, n, c, id)
    requires Read(run.states[n].tasks, id, run.states[n].calls[c].pc.principal).Err?
    ensures run.states[n + 1].tasks == run.states[n].tasks
  {
    assert StepAt(cfg, run, n);
    hide ApplyEvent;
  }

  /**
   A settlement that reaches the live record of its attempt is never dropped: the record then reports
   the reply that the worker gave to this call, and its dispatch is confirmed.
   */
  lemma SettlementIsReported(cfg: Config, run: Run, n: nat, c: nat, id: string) returns (k: nat, reply: RemoteReply)
    requires ValidRun(cfg, run) && n < |run.actions| && SettledAt(run, n, c, id)
    requires var s, pc := run.states[n], run.states[n].calls[c].pc;
             Read(s.tasks, id, pc.principal).Ok? && ReachesLive(s.tasks[id], pc.attempt, pc.event) &&
                 !pc.event.TransportError?
    ensures id in run.states[n + 1].tasks && run.states[n + 1].tasks[id].dispatch == Confirmed
    ensures ReportsReplyOf(run, n + 1, run.states[n + 1].tasks[id], k, n, c, run.states[n].calls[c].pc.attempt, reply)
  {
    RunOrigins(cfg, run, n);
    SettledRecord(cfg, run, n, c, id);
    var s, pc := run.states[n], run.states[n].calls[c].pc;
    assert HasOrigin(run, n, c);
    k, reply :| 0 <= k < n && RepliedAt(run, k, c, pc.id, pc.attempt, reply)
                && pc.event == Classify(s.tasks[pc.id].item, reply);
    EventReports(s.tasks[id], pc.attempt, pc.event, s.clock);
    ReportsReply(run.states[n + 1].tasks[id], reply);
    hide ValidRun, ApplyEvent, Classify, Reports, RepliedAt, ReportsEvent, HasOrigin;
  }

  lemma ConfirmedBySettlement(cfg: Config, run: Run, n: nat, c: nat, id: string)
    requires ValidRun(cfg, run) && n < |run.actions| && SettledAt(run, n, c, id)
    requires id in run.states[n].tasks && id in run.states[n + 1].tasks
    requires run.states[n + 1].tasks[id].dispatch == Confirmed
    requires run.states[n].tasks[id].dispatch == Confirmed ==> HasReply(run, n, run.states[n].tasks[id])
    ensures HasReply(run, n + 1, run.states[n + 1].tasks[id])
  {
    RunCallsOk(cfg, run, n);
    var s, r, after := run.states[n], run.states[n].tasks[id], run.states[n + 1].tasks[id];
    hide ValidRun, HasReply, ApplyEvent, ReachesLive, AskersOk, CancellersOk, KeepsReport, ReportsReplyOf, ReportsEvent,
         SameButDiagnostics;
    var pc := s.calls[c].pc;
    if Read(s.tasks, id, pc.principal).Err? {
      DeniedSettlement(cfg, run, n, c, id);
      ReplyKept(run, n, r, after);
    } else if ReachesLive(r, pc.attempt, pc.event) && !pc.event.TransportError? {
      var k, reply := SettlementIsReported(cfg, run, n, c, id);
      ReplyStarts(run, n + 1, after, k, n, c, pc.attempt, reply);
    } else {
      SettledRecord(cfg, run, n, c, id);
      EventReports(r, pc.attempt, pc.event, s.clock);
      SilentSettlement(s, c, r, after);
      ReplyKept(run, n, r, after);
    }
  }

  lemma ConfirmedStep(cfg: Config, run: Run, n: nat, id: string)
    requires ValidRun(cfg, run) && n < |run.actions| && id in run.states[n].tasks && id in run.states[n + 1].tasks
    requires run.states[n + 1].tasks[id].dispatch == Confirmed
    requires run.states[n].tasks[id].dispatch == Confirmed ==> HasReply(run, n, run.states[n].tasks[id])
    ensures HasReply(run, n + 1, run.states[n + 1].tasks[id])
  {
    RunStoreOk(cfg, run, n);
    assert StepAt(cfg, run, n);
    var s, a := run.states[n], run.actions[n];
    hide ValidRun, Next, StoreOk, HasReply;
    if a.Advance? && SettledAt(run, n, a.c, id) {
      ConfirmedBySettlement(cfg, run, n, a.c, id);
    } else {
      ConfirmedElsewhere(cfg, s, a, id);
      ReplyKept(run, n, s.tasks[id], run.states[n + 1].tasks[id]);
    }
  }

  lemma ReplyStarts(run: Run, n: nat, r: Record, k: nat, m: nat, c: nat, attempt: Attempt, reply: RemoteReply)
    requires ReportsReplyOf(run, n, r, k, m, c, attempt, reply)
    ensures HasReply(run, n, r)
  {
    hide ReportsReplyOf;
  }

  lemma ConfirmedElsewhere(cfg: Config, s: Sys, a: Action, id: string)
    requires StoreOk(cfg, s) && Enabled(s, a) && id in s.tasks && id in Next(cfg, s, a).tasks
    requires !(a.Advance? && s.calls[a.c].pc.Settle? && s.calls[a.c].pc.id == id)
    requires Next(cfg, s, a).tasks[id].dispatch == Confirmed
    ensures s.tasks[id].dispatch == Confirmed && KeepsReport(s.tasks[id], Next(cfg, s, a).tasks[id])
  {
    OtherStepsReport(cfg, s, a, id);
    hide Next, StoreOk, KeepsReport;
  }

  /** A settlement that is late, misattributed or a failed cancellation keeps a confirmed record's report. */
  lemma SilentSettlement(s: Sys, c: nat, r: Record, after: Record)
    requires c in s.calls && s.calls[c].pc.Settle? && CancellersOk(s)
    requires s.calls[c].pc.id in s.tasks && r == s.tasks[s.calls[c].pc.id] && after.dispatch == Confirmed
    requires var pc := s.calls[c].pc;
             && after == ApplyEvent(r, pc.attempt, pc.event, s.clock).0
             && !(ReachesLive(r, pc.attempt, pc.event) && !pc.event.TransportError?)
    ensures r.dispatch == Confirmed && KeepsReport(r, after)
  {
    var pc := s.calls[c].pc;
    EventReports(r, pc.attempt, pc.event, s.clock);
    if ReachesLive(r, pc.attempt, pc.event) {
      LiveFailureReports(r, pc.event, s.clock);
      if pc.event.rpc == RpcCancel { assert Cancelling(pc) == Some(pc.id); }
    }
    hide ApplyEvent, AfterTransportError;
  }

  lemma {:induction false} RunReports(cfg: Config, run: Run, n: nat, id: string)
    requires ValidRun(cfg, run) && n < |run.states| && id in run.states[n].tasks
    requires run.states[n].tasks[id].dispatch == Confirmed
    ensures HasReply(run, n, run.states[n].tasks[id])
  {
    hide Next, HasReply, StoreOk;
    if n > 0 {
      RunStoreOk(cfg, run, n - 1);
      assert StepAt(cfg, run, n - 1);
      if id in run.states[n - 1].tasks {
        if run.states[n - 1].tasks[id].dispatch == Confirmed { RunReports(cfg, run, n - 1, id); }
        ConfirmedStep(cfg, run, n - 1, id);
      } else {
        NewIsUnconfirmed(cfg, run.states[n - 1], run.actions[n - 1], id);
      }
    }
  }

  /**
   What a confirmed record says is what the worker said: some earlier reply to a call on this very task
   and attempt, settled by that call, carried exactly this identity, this state and this result. A live
   state shows as a pending cancellation if one is stored; an invalid reply shows as failed if it was
   terminal and as uncertain if not.
   */
  lemma ConfirmedHasReply(cfg: Config, run: Run, n: nat, id: string)
    returns (k: nat, m: nat, c: nat, attempt: Attempt, reply: RemoteReply)
    requires ValidRun(cfg, run) && n < |run.states| && id in run.states[n].tasks
    requires run.states[n].tasks[id].dispatch == Confirmed
    ensures ReportsReplyOf(run, n, run.states[n].tasks[id], k, m, c, attempt, reply)
  {
    RunReports(cfg, run, n, id);
    hide ReportsReplyOf;
    k, m, c, attempt, reply :| ReportsReplyOf(run, n, run.states[n].tasks[id], k, m, c, attempt, reply);
  }

  /**
   Every finished task was either cancelled before its dispatch, or finished by a reply of the worker:
   with exactly the state and result of a valid one, or as failed by an invalid terminal one.
   */
  lemma FinishedByReply(cfg: Config, run: Run, n: nat, id: string) returns (k: nat, m: nat, c: nat, reply: RemoteReply)
    requires ValidRun(cfg, run) && n < |run.states| && id in run.states[n].tasks
    requires Terminal(run.states[n].tasks[id].state)
    ensures var r := run.states[n].tasks[id];
            || (r.state == Cancelled && r.dispatch == NotStarted && r.cancelRequested && r.result.None?)
            || (&& k < m < n && run.actions[k] == Reply(c, reply) && SettledAt(run, m, c, id)
                && c in run.states[k].calls && Asked(run.states[k].calls[c].pc) == Some(r.item)
                && r.remoteId == Some(reply.remoteId) && Terminal(reply.state)
                && if ValidReply(r.item, reply) then r.state == reply.state && r.result == reply.result
                   else r.state == Failed)
  {
    RunStoreOk(cfg, run, n);
    assert RecordOk(run.states[n].tasks[id]);
    k, m, c := 0, 0, 0;
    reply := RemoteReply("", Submitted, None, "");
    if run.states[n].tasks[id].dispatch == Confirmed {
      var attempt: Attempt;
      k, m, c, attempt, reply := ConfirmedHasReply(cfg, run, n, id);
      AskedForItem(cfg, run, k, n, c, id);
    }
    hide ValidReply, ValidItem, DiagnosticsOk, Granted;
  }

  /** A call that waits on a task asks for the item the task is stored with, then and later. */
  lemma AskedForItem(cfg: Config, run: Run, k: nat, n: nat, c: nat, id: string)
    requires ValidRun(cfg, run) && k <= n < |run.states| && c in run.states[k].calls && id in run.states[n].tasks
    requires Asked(run.states[k].calls[c].pc).Some? && Asked(run.states[k].calls[c].pc).value.id == id
    ensures Asked(run.states[k].calls[c].pc) == Some(run.states[n].tasks[id].item)
  {
    RunCallsOk(cfg, run, k);
    RecordsOnlyAdvance(cfg, run, k, n);
    ItemsKept(run.states[k].tasks, run.states[n].tasks);
    hide Next, Grows;
  }

  // ---------------------------------------------------------------- stored results

  lemma ResultStep(cfg: Config, run: Run, n: nat, id: string)
    requires ValidRun(cfg, run) && n < |run.actions| && id in run.states[n].tasks && id in run.states[n + 1].tasks
    ensures var r, after := run.states[n].tasks[id], run.states[n + 1].tasks[id];
            after.item == r.item &&
                (after.result == r.result || after.result.None? || ResultFits(after.item, after.result.value))
  {
    RunStoreOk(cfg, run, n);
    assert StepAt(cfg, run, n);
    var s, a := run.states[n], run.actions[n];
    hide Next, CallsOk, OrderOk, ChildOk, ApplyEvent, ReachesLive, ResultFits;
    if a.Advance? && SettledAt(run, n, a.c, id) {
      var pc := s.calls[a.c].pc;
      if Read(s.tasks, id, pc.principal).Err? {
        DeniedSettlement(cfg, run, n, a.c, id);
      } else if ReachesLive(s.tasks[id], pc.attempt, pc.event) && !pc.event.TransportError? {
        SettledObservationFits(cfg, run, n, a.c, id);
      } else {
        SettledRecord(cfg, run, n, a.c, id);
        EventReports(s.tasks[id], pc.attempt, pc.event, s.clock);
        if pc.event.TransportError? { LiveFailureReports(s.tasks[id], pc.event, s.clock); }
      }
    } else {
      OtherStepsReport(cfg, s, a, id);
    }
  }

  lemma SettledObservationFits(cfg: Config, run: Run, n: nat, c: nat, id: string)
    requires ValidRun(cfg, run) && n < |run.actions| && SettledAt(run, n, c, id)
    requires var s, pc := run.states[n], run.states[n].calls[c].pc;
             Read(s.tasks, id, pc.principal).Ok? && ReachesLive(s.tasks[id], pc.attempt, pc.event) &&
                 !pc.event.TransportError?
    ensures id in run.states[n + 1].tasks
    ensures var r, after := run.states[n].tasks[id], run.states[n + 1].tasks[id];
            after.item == r.item &&
                (after.result == r.result || after.result.None? || ResultFits(after.item, after.result.value))
  {
    var s, pc := run.states[n], run.states[n].calls[c].pc;
    RunOrigins(cfg, run, n);
    assert HasOrigin(run, n, c);
    var k, reply :| 0 <= k < n && RepliedAt(run, k, c, pc.id, pc.attempt, reply)
                    && pc.event == Classify(s.tasks[pc.id].item, reply);
    SettledRecord(cfg, run, n, c, id);
    ClassifyExact(s.tasks[id].item, reply);
    hide ValidRun, Classify, RepliedAt, HasOrigin, ResultFits;
    ResultOfEvent(s.tasks[id], pc.attempt, pc.event, s.clock);
  }

  lemma ResultOfEvent(r: Record, attempt: Attempt, e: RemoteEvent, now: int)
    ensures var after := ApplyEvent(r, attempt, e, now).0;
            after.item == r.item && (after.result == r.result || (e.Observation? && after.result == e.result))
  {
    DiagnosticsReportNothing(now);
    hide AddDiagnostic;
  }

  /**
   Every result ever stored fits its item: it names the item and its base revision, its digests are
   digests, and each changed path is allowed to the item and not protected.
   */
  lemma {:induction false} StoredResultsFit(cfg: Config, run: Run, n: nat, id: string)
    requires ValidRun(cfg, run) && n < |run.states| && id in run.states[n].tasks && run.states[n].tasks[id].result.Some?
    ensures ResultFits(run.states[n].tasks[id].item, run.states[n].tasks[id].result.value)
  {
    hide Next, StoreOk, ResultFits;
    if n > 0 {
      RunStoreOk(cfg, run, n - 1);
      assert StepAt(cfg, run, n - 1);
      if id in run.states[n - 1].tasks {
        ResultStep(cfg, run, n - 1, id);
        if run.states[n - 1].tasks[id].result.Some? { StoredResultsFit(cfg, run, n - 1, id); }
      } else {
        NewIsUnconfirmed(cfg, run.states[n - 1], run.actions[n - 1], id);
      }
    }
  }

  /**
   So every path that a stored result changed stays in the tree, outside the protected parts of the
   repository, and within what every ancestor of the task allows and protects, save for tree roots.
   */
  lemma StoredPathsStayWithin(cfg: Config, run: Run, n: nat, chain: seq<string>, raw: string)
    requires ValidRun(cfg, run) && n < |run.states| && Chain(run.states[n].tasks, chain)
    requires var result := run.states[n].tasks[chain[0]].result;
             result.Some? && result.value.changed.Listed? && raw in result.value.changed.items
    ensures Normalize(raw).Ok? && !IsAbsolute(raw)
    ensures ".." !in Parts(raw) && ".git" !in Parts(raw) && ".formalspecgen" !in Parts(raw)
    ensures var ancestor := run.states[n].tasks[chain[|chain| - 1]].item;
            && !PathAllowed(Normalize(raw).value, ancestor.guarded)
            && (PathAllowed(Normalize(raw).value, ancestor.allowed) ||
                IsTreeRoot(Normalize(raw).value, ancestor.allowed))
  {
    hide Normalize, IsTreeRoot, PathAllowed;
    StoredResultsFit(cfg, run, n, chain[0]);
    NormalPathIsSafe(raw);
    AuthorityShrinks(cfg, run, n, chain, Normalize(raw).value);
  }

  // ---------------------------------------------------------------- failures

  ghost predicate HasFailure(run: Run, n: nat, id: string, r: Record) {
    exists k, m, c, attempt :: FailureOf(run, n, id, r, k, m, c, attempt)
  }

  ghost predicate FailureOf(run: Run, n: nat, id: string, r: Record, k: nat, m: nat, c: nat, attempt: Attempt) {
    k < m < n && FailedAt(run, k, c, id, attempt) && SettledAt(run, m, c, id) && r.attempt == Some(attempt)
  }

  /** A settled failure of a submission or reconciliation leaves a live record uncertain, at once claimable. */
  lemma FailureSettles(cfg: Config, run: Run, n: nat, c: nat, id: string)
    requires ValidRun(cfg, run) && n < |run.actions| && SettledAt(run, n, c, id)
    requires var s, pc := run.states[n], run.states[n].calls[c].pc;
             && Read(s.tasks, id, pc.principal).Ok? && ReachesLive(s.tasks[id], pc.attempt, pc.event)
             && pc.event.TransportError? && pc.event.rpc != RpcCancel
    ensures id in run.states[n + 1].tasks
    ensures var r, after := run.states[n].tasks[id], run.states[n + 1].tasks[id];
            && after.dispatch == Uncertain && after.attempt == r.attempt && after.remoteId == r.remoteId
            && after.state == if r.cancelRequested then CancellationPending else DispatchUncertain
    ensures HasFailure(run, n + 1, id, run.states[n + 1].tasks[id])
  {
    var s, pc := run.states[n], run.states[n].calls[c].pc;
    SettledRecord(cfg, run, n, c, id);
    EventReports(s.tasks[id], pc.attempt, pc.event, s.clock);
    LiveFailureReports(s.tasks[id], pc.event, s.clock);
    RunOrigins(cfg, run, n);
    assert HasOrigin(run, n, c);
    hide ValidRun, ApplyEvent, AfterTransportError, FailedAt, Classify;
    var k :| 0 <= k < n && FailedAt(run, k, c, pc.id, pc.attempt);
    assert FailureOf(run, n + 1, id, run.states[n + 1].tasks[id], k, n, c, pc.attempt);
  }

  lemma FailureKept(run: Run, n: nat, id: string, r: Record, after: Record)
    requires HasFailure(run, n, id, r) && after.attempt == r.attempt
    ensures HasFailure(run, n + 1, id, after)
  {
    hide FailedAt, SettledAt;
    var k, m, c, attempt :| FailureOf(run, n, id, r, k, m, c, attempt);
    assert FailureOf(run, n + 1, id, after, k, m, c, attempt);
  }

  lemma AttemptKept(before: Tasks, after: Tasks, id: string)
    requires Grows(before, after) && id in before && before[id].attempt.Some?
    ensures id in after && after[id].attempt == before[id].attempt
  {
    assert Advances(before[id], after[id]);
  }

  /** A record is uncertain only because a submission or reconciliation of its attempt failed. */
  lemma {:induction false} UncertainHasFailure(cfg: Config, run: Run, n: nat, id: string)
    requires ValidRun(cfg, run) && n < |run.states| && id in run.states[n].tasks
    requires run.states[n].tasks[id].dispatch == Uncertain
    ensures HasFailure(run, n, id, run.states[n].tasks[id])
  {
    hide Next, HasFailure, TasksOk, CallsOk, OrderOk, ChildOk, Grows;
    if n > 0 {
      RunStoreOk(cfg, run, n - 1);
      assert StepAt(cfg, run, n - 1);
      var s, a := run.states[n - 1], run.actions[n - 1];
      if id in s.tasks {
        if s.tasks[id].dispatch == Uncertain {
          UncertainHasFailure(cfg, run, n - 1, id);
          TasksStep(cfg, s, a);
          UncertainIsAttempted(cfg, s, id);
          AttemptKept(s.tasks, run.states[n].tasks, id);
          FailureKept(run, n - 1, id, s.tasks[id], run.states[n].tasks[id]);
        } else {
          BecomesUncertain(cfg, run, n - 1, id);
        }
      } else {
        NewIsUnconfirmed(cfg, s, a, id);
      }
    }
  }

  lemma UncertainIsAttempted(cfg: Config, s: Sys, id: string)
    requires TasksOk(cfg, s.tasks) && id in s.tasks && s.tasks[id].dispatch == Uncertain
    ensures s.tasks[id].attempt.Some?
  {
  }

  lemma BecomesUncertain(cfg: Config, run: Run, n: nat, id: string)
    requires ValidRun(cfg, run) && n < |run.actions| && id in run.states[n].tasks && id in run.states[n + 1].tasks
    requires run.states[n].tasks[id].dispatch != Uncertain && run.states[n + 1].tasks[id].dispatch == Uncertain
    ensures HasFailure(run, n + 1, id, run.states[n + 1].tasks[id])
  {
    RunStoreOk(cfg, run, n);
    assert StepAt(cfg, run, n);
    var s, a := run.states[n], run.actions[n];
    hide Next, CallsOk, OrderOk, ChildOk, ApplyEvent, HasFailure, KeepsReport;
    if a.Advance? && SettledAt(run, n, a.c, id) {
      var pc := s.calls[a.c].pc;
      if Read(s.tasks, id, pc.principal).Err? {
        DeniedSettlement(cfg, run, n, a.c, id);
      } else {
        SettledRecord(cfg, run, n, a.c, id);
        EventReports(s.tasks[id], pc.attempt, pc.event, s.clock);
        if pc.event.TransportError? { LiveFailureReports(s.tasks[id], pc.event, s.clock); }
        FailureSettles(cfg, run, n, a.c, id);
      }
    } else {
      OtherStepsReport(cfg, s, a, id);
    }
  }
}
