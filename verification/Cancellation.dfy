/**
 No stored cancellation is lost (`cancel`, `_apply_observation` and `_cancel_remote` in
 pipeline/a2a_coordination.py).

 In every run, a live task with a stored cancellation and a bound remote identity has had a
 cancellation request sent for that identity, or some call is about to send it, unless one of two
 steps of the run lost it: a call about to send that very request crashed, or the identity was bound,
 with the cancellation already stored, by an event that forwards none.
 */
module Cancellation {
  import opened Common
  import opened Records
  import opened Budgets
  import opened Coordinator
  import opened StoreInvariant

  ghost predicate Sent(h: History, id: string, remoteId: string) {
    exists i | 0 <= i < |h.cancels| :: h.cancels[i].id == id && h.cancels[i].remoteId == remoteId
  }

  ghost predicate AboutToCancel(pc: Pc, id: string, remoteId: string) {
    pc.CancelSend? && pc.item.id == id && pc.remoteId == remoteId
  }

  ghost predicate Pending(s: Sys, id: string, remoteId: string) {
    exists c | c in s.calls :: AboutToCancel(s.calls[c].pc, id, remoteId)
  }

  /** A live task whose user wants it cancelled and whose remote identity is known. */
  ghost predicate Cancellable(r: Record) {
    r.cancelRequested && Truthy(r.remoteId) && !Terminal(r.state)
  }

  // ---------------------------------------------------------------- one step

  ghost predicate Settles(s: Sys, a: Action, id: string) {
    a.Advance? && a.c in s.calls && s.calls[a.c].pc.Settle? && s.calls[a.c].pc.id == id
  }

  ghost predicate Requests(s: Sys, a: Action, id: string) {
    a.Advance? && a.c in s.calls && s.calls[a.c].pc.CancelRead? && s.calls[a.c].pc.id == id
  }

  ghost predicate SameView(a: Record, b: Record) {
    a.cancelRequested == b.cancelRequested && a.remoteId == b.remoteId
  }

  lemma UpdatesKeepView(r: Record, serial: nat, attempt: Attempt, owner: string, lease: nat, now: int)
    ensures SameView(r, BeginDispatch(r, serial, owner, lease, now).0)
    ensures SameView(r, RenewLease(r, attempt, owner, lease, now).0)
    ensures ClaimRecovery(r, owner, lease, now).Ok? ==> SameView(r, ClaimRecovery(r, owner, lease, now).value.0)
    ensures RequestCancel(r, now).0.remoteId == r.remoteId
  {
  }

  /** Only settling an event changes an identity, and only a cancellation request stores the intent. */
  lemma ViewStep(cfg: Config, s: Sys, a: Action, id: string)
    requires Enabled(s, a) && id in s.tasks && !Settles(s, a, id)
    ensures id in Next(cfg, s, a).tasks
    ensures var t := Next(cfg, s, a);
            && t.tasks[id].remoteId == s.tasks[id].remoteId
            && (!Requests(s, a, id) ==> t.tasks[id].cancelRequested == s.tasks[id].cancelRequested)
  {
    hide CheckCreate, Authorize, ApplyEvent, BeginDispatch, RenewLease, RequestCancel, ClaimRecovery,
         Classify, AfterReply, AfterNoReply, ForwardCancel;
    if a.Advance? {
      var call := s.calls[a.c];
      match call.pc {
        case SubmitBegin(item, _) =>
          if item.id == id { UpdatesKeepView(s.tasks[id], s.serial, Missing, call.owner, call.lease, s.clock); }
        case GetClaim(_, _, observedAt) => UpdatesKeepView(s.tasks[id], 0, Missing, call.owner, call.lease, observedAt);
        case CancelRead(_, _) => UpdatesKeepView(s.tasks[id], 0, Missing, "", 0, s.clock);
        case _ =>
      }
    } else if a.Renew? {
      UpdatesKeepView(s.tasks[id], 0, a.attempt, a.owner, a.lease, s.clock);
    }
  }

  lemma EventView(r: Record, attempt: Attempt, e: RemoteEvent, now: int)
    ensures var after := ApplyEvent(r, attempt, e, now).0;
            && after.cancelRequested == r.cancelRequested
            && after.item == r.item
            && (after.remoteId == r.remoteId || Truthy(r.remoteId) || e.Observation? || e.ProtocolError?)
  {
    hide ApplyEvent;
    EventShape(r, attempt, e, now);
  }

  lemma HistoryStep(cfg: Config, s: Sys, a: Action)
    requires Enabled(s, a)
    ensures var h, k := s.history, Next(cfg, s, a).history;
            (k.cancels == h.cancels ||
                (a.Advance? && s.calls[a.c].pc.CancelSend? &&
                 var pc := s.calls[a.c].pc; k.cancels == h.cancels + [CancelRequest(a.c, pc.item.id, pc.remoteId)]))
  {
    hide CheckCreate, Authorize, ApplyEvent, BeginDispatch, RenewLease, RequestCancel, ClaimRecovery,
         Classify, AfterReply, AfterNoReply, ForwardCancel;
  }

  lemma SentLasts(h: History, k: History, id: string, remoteId: string)
    requires h.cancels == k.cancels || exists extra :: k.cancels == h.cancels + [extra]
    requires Sent(h, id, remoteId)
    ensures Sent(k, id, remoteId)
  {
    var i :| 0 <= i < |h.cancels| && h.cancels[i].id == id && h.cancels[i].remoteId == remoteId;
    assert k.cancels[i] == h.cancels[i];
  }

  /** A call that is about to send exactly this cancellation crashes. */
  ghost predicate CrashLoses(s: Sys, a: Action, id: string, remoteId: string) {
    a.Crash? && a.c in s.calls && AboutToCancel(s.calls[a.c].pc, id, remoteId)
  }

  /** With the cancellation already stored, the step binds this identity of a task it leaves live. */
  ghost predicate BindsIntended(cfg: Config, s: Sys, a: Action, id: string, remoteId: string) {
    && Enabled(s, a) && Settles(s, a, id) && id in s.tasks && s.tasks[id].cancelRequested
    && s.tasks[id].remoteId != Some(remoteId)
    && id in Next(cfg, s, a).tasks && Cancellable(Next(cfg, s, a).tasks[id])
    && Next(cfg, s, a).tasks[id].remoteId == Some(remoteId)
  }

  /** Only a valid observation that does not answer a cancellation forwards one. */
  ghost predicate Forwards(s: Sys, a: Action) {
    a.Advance? && a.c in s.calls && s.calls[a.c].pc.Settle? && s.calls[a.c].pc.event.Observation? &&
        s.calls[a.c].pc.sentTo.None?
  }

  ghost predicate Loses(cfg: Config, s: Sys, a: Action, id: string, remoteId: string) {
    CrashLoses(s, a, id, remoteId) || (BindsIntended(cfg, s, a, id, remoteId) && !Forwards(s, a))
  }

  /** A call about to cancel stays there until it sends the request or crashes. */
  lemma PendingStep(cfg: Config, s: Sys, a: Action, id: string, remoteId: string)
    requires Enabled(s, a) && Pending(s, id, remoteId)
    ensures var t := Next(cfg, s, a);
            Sent(t.history, id, remoteId) || Pending(t, id, remoteId) || CrashLoses(s, a, id, remoteId)
  {
    hide StepAdvance, Authorize, RenewLease, Classify, AfterReply, AfterNoReply, Read;
    var t := Next(cfg, s, a);
    var c :| c in s.calls && AboutToCancel(s.calls[c].pc, id, remoteId);
    if a == Advance(c) {
      SendSends(s, c);
      assert t.history.cancels[|s.history.cancels|] == CancelRequest(c, id, remoteId);
    } else if a != Crash(c) {
      if a.Advance? { AdvanceOthers(s, a.c); }
      assert t.calls[c] == s.calls[c];
    }
  }

  lemma SendSends(s: Sys, c: nat)
    requires c in s.calls && s.calls[c].pc.CancelSend?
    ensures var pc := s.calls[c].pc;
            StepAdvance(s, c).history.cancels == s.history.cancels + [CancelRequest(c, pc.item.id, pc.remoteId)]
  {
  }

  // ---------------------------------------------------------------- settling

  /** Where a settling call stands decides whether it may forward. */
  ghost predicate SettlesOk(s: Sys) {
    forall c | c in s.calls && s.calls[c].pc.Settle? ::
      s.calls[c].pc.forward <==> s.calls[c].pc.event.Observation? && s.calls[c].pc.sentTo.None?
  }

  lemma SettleIsAfterWait(cfg: Config, s: Sys, a: Action, c: nat)
    requires Enabled(s, a) && c in Next(cfg, s, a).calls && Next(cfg, s, a).calls[c].pc.Settle?
    ensures c in s.calls
    ensures var pc, after := s.calls[c].pc, Next(cfg, s, a).calls[c].pc;
            after == pc || (after.forward <==> after.event.Observation? && after.sentTo.None?)
  {
    hide StepAdvance, Authorize, RenewLease, Classify;
    if a.Advance? {
      if a.c == c { AdvanceNeverSettles(s, c); } else { AdvanceOthers(s, a.c); }
    }
  }

  lemma AdvanceNeverSettles(s: Sys, c: nat)
    requires c in s.calls
    ensures c in StepAdvance(s, c).calls
    ensures StepAdvance(s, c).calls[c].pc.Settle? ==> StepAdvance(s, c).calls[c].pc == s.calls[c].pc
  {
    hide CheckCreate, ApplyEvent, BeginDispatch, RequestCancel, ClaimRecovery;
  }

  lemma {:induction false} RunSettlesOk(cfg: Config, run: Run, n: nat)
    requires ValidRun(cfg, run) && n < |run.states|
    ensures SettlesOk(run.states[n])
  {
    hide Next;
    if n > 0 {
      RunSettlesOk(cfg, run, n - 1);
      assert StepAt(cfg, run, n - 1);
      var t := run.states[n];
      forall c | c in t.calls && t.calls[c].pc.Settle?
        ensures t.calls[c].pc.forward <==> t.calls[c].pc.event.Observation? && t.calls[c].pc.sentTo.None?
      {
        SettleIsAfterWait(cfg, run.states[n - 1], run.actions[n - 1], c);
      }
    }
  }

  /** Settling keeps the intent, and a call that may forward a live binding is about to. */
  lemma SettleView(s: Sys, c: nat)
    requires c in s.calls && s.calls[c].pc.Settle? && s.calls[c].pc.id in s.tasks
    requires s.tasks[s.calls[c].pc.id].item.id == s.calls[c].pc.id
    ensures var pc := s.calls[c].pc;
            var t := StepAdvance(s, c);
            pc.id in t.tasks &&
            var r, after := s.tasks[pc.id], t.tasks[pc.id];
            && after.cancelRequested == r.cancelRequested
            && (after.remoteId != r.remoteId && Cancellable(after) ==>
                  (AboutToCancel(t.calls[c].pc, pc.id, after.remoteId.value) <==> pc.forward))
  {
    hide ApplyEvent;
    var pc := s.calls[c].pc;
    EventView(s.tasks[pc.id], pc.attempt, pc.event, s.clock);
  }

  /**
   The settling step, exactly: when it binds a live identity with a cancellation stored, its call is
   about to cancel that identity if and only if the event is a valid observation that does not itself
   answer a cancellation request. Otherwise the call ends there and sends none.
   */
  lemma BindingForwardsIff(cfg: Config, run: Run, n: nat, id: string, remoteId: string)
    requires ValidRun(cfg, run) && n < |run.actions|
    requires BindsIntended(cfg, run.states[n], run.actions[n], id, remoteId)
    ensures var s, a, t := run.states[n], run.actions[n], run.states[n + 1];
            && a.c in t.calls && (AboutToCancel(t.calls[a.c].pc, id, remoteId) <==> Forwards(s, a))
            && (!Forwards(s, a) ==> t.calls[a.c].pc.Finished? && t.history.cancels == s.history.cancels)
  {
    hide StepAdvance, TasksOk, CallsOk, OrderOk, ChildOk, Cancellable;
    RunStoreOk(cfg, run, n);
    RunSettlesOk(cfg, run, n);
    assert StepAt(cfg, run, n);
    var s, c := run.states[n], run.actions[n].c;
    assert s.tasks[id].item.id == id by { StoredUnderItsId(cfg, s, id); }
    SettleView(s, c);
    SettleEnds(s, c);
  }

  lemma StoredUnderItsId(cfg: Config, s: Sys, id: string)
    requires TasksOk(cfg, s.tasks) && id in s.tasks
    ensures s.tasks[id].item.id == id && (Truthy(s.tasks[id].remoteId) ==> s.tasks[id].dispatch != NotStarted)
  {
  }

  lemma SettleEnds(s: Sys, c: nat)
    requires c in s.calls && s.calls[c].pc.Settle?
    ensures c in StepAdvance(s, c).calls && StepAdvance(s, c).history.cancels == s.history.cancels
    ensures !s.calls[c].pc.forward ==> StepAdvance(s, c).calls[c].pc.Finished?
  {
    hide ApplyEvent, ForwardCancel;
  }

  // ---------------------------------------------------------------- requesting

  lemma RequestShape(r: Record, now: int)
    ensures RequestCancel(r, now).0.item == r.item && RequestCancel(r, now).0.remoteId == r.remoteId
  {
  }

  /** A request that stores the intent on a live bound task is about to cancel it. */
  lemma RequestPends(cfg: Config, s: Sys, c: nat, id: string)
    requires TasksOk(cfg, s.tasks) && c in s.calls && s.calls[c].pc.CancelRead? && s.calls[c].pc.id == id
    requires id in s.tasks
    requires id in StepAdvance(s, c).tasks && Cancellable(StepAdvance(s, c).tasks[id]) && !Cancellable(s.tasks[id])
    ensures Pending(StepAdvance(s, c), id, StepAdvance(s, c).tasks[id].remoteId.value)
  {
    hide RequestCancel, RecordOk, Granted;
    var pc, t := s.calls[c].pc, StepAdvance(s, c);
    RequestShape(s.tasks[id], s.clock);
    assert Read(s.tasks, id, pc.principal).Ok?;
    assert AboutToCancel(t.calls[c].pc, id, t.tasks[id].remoteId.value);
  }

  // ---------------------------------------------------------------- coverage

  lemma StillLive(r: Record, after: Record)
    requires Advances(r, after) && !Terminal(after.state)
    ensures !Terminal(r.state)
  {
    assert WithoutDiagnostics(r).state == r.state && WithoutDiagnostics(after).state == after.state;
  }

  lemma NewTaskUncancelled(cfg: Config, s: Sys, a: Action)
    requires StoreOk(cfg, s) && Enabled(s, a)
    ensures forall id | id in Next(cfg, s, a).tasks && id !in s.tasks :: !Next(cfg, s, a).tasks[id].cancelRequested
  {
    hide Next, RecordOk, Granted, ChildOk;
    TasksStep(cfg, s, a);
    if Creates(s, a) {
      assert PcOk(cfg, s.tasks, s.calls[a.c].pc);
    }
  }

  /** How a task becomes cancellable with an identity it was not cancellable with before. */
  lemma BecomesCancellable(cfg: Config, s: Sys, a: Action, id: string)
    requires StoreOk(cfg, s) && SettlesOk(s) && Enabled(s, a)
    requires var t := Next(cfg, s, a);
             && id in t.tasks && Cancellable(t.tasks[id])
             && !(id in s.tasks && Cancellable(s.tasks[id]) && s.tasks[id].remoteId == t.tasks[id].remoteId)
    ensures var t := Next(cfg, s, a);
            Pending(t, id, t.tasks[id].remoteId.value) || Loses(cfg, s, a, id, t.tasks[id].remoteId.value)
  {
    hide StepAdvance, StepRenew, TasksOk, CallsOk, OrderOk, ChildOk, Advances;
    var t := Next(cfg, s, a);
    TasksStep(cfg, s, a);
    NewTaskUncancelled(cfg, s, a);
    StillLive(s.tasks[id], t.tasks[id]);
    if Settles(s, a, id) {
      assert s.tasks[id].item.id == id by { StoredUnderItsId(cfg, s, id); }
      SettleView(s, a.c);
      SettleEnds(s, a.c);
      assert t.tasks[id].remoteId != s.tasks[id].remoteId;
      assert BindsIntended(cfg, s, a, id, t.tasks[id].remoteId.value);
    } else {
      ViewStep(cfg, s, a, id);
      RequestPends(cfg, s, a.c, id);
    }
  }

  ghost predicate LostBefore(cfg: Config, run: Run, n: nat, id: string, remoteId: string)
    requires n <= |run.actions| < |run.states|
  {
    exists i | 0 <= i < n :: Loses(cfg, run.states[i], run.actions[i], id, remoteId)
  }

  lemma CoverageLasts(cfg: Config, run: Run, n: nat, id: string, remoteId: string)
    requires ValidRun(cfg, run) && n < |run.actions|
    requires Sent(run.states[n].history, id, remoteId) || Pending(run.states[n], id, remoteId) ||
        LostBefore(cfg, run, n, id, remoteId)
    ensures Sent(run.states[n + 1].history, id, remoteId) || Pending(run.states[n + 1], id, remoteId)
            || LostBefore(cfg, run, n + 1, id, remoteId)
  {
    hide Next, Sent, Pending, Loses;
    assert StepAt(cfg, run, n);
    var s, a := run.states[n], run.actions[n];
    HistoryStep(cfg, s, a);
    if Sent(s.history, id, remoteId) {
      SentLasts(s.history, run.states[n + 1].history, id, remoteId);
    } else if Pending(s, id, remoteId) {
      PendingStep(cfg, s, a, id, remoteId);
      if CrashLoses(s, a, id, remoteId) {
        CrashIsLoss(cfg, s, a, id, remoteId);
        assert LostBefore(cfg, run, n + 1, id, remoteId);
      }
    }
  }

  lemma CrashIsLoss(cfg: Config, s: Sys, a: Action, id: string, remoteId: string)
    requires CrashLoses(s, a, id, remoteId)
    ensures Loses(cfg, s, a, id, remoteId)
  {
  }

  /**
   No lost cancellation, over every run and every interleaving: the request for the identity now bound
   was sent, or is about to be sent, or some earlier step of this run lost exactly this request.
   */
  lemma {:induction false} NoLostCancellation(cfg: Config, run: Run, n: nat, id: string)
    requires ValidRun(cfg, run) && n < |run.states|
    requires id in run.states[n].tasks && Cancellable(run.states[n].tasks[id])
    ensures var remoteId := run.states[n].tasks[id].remoteId.value;
            || Sent(run.states[n].history, id, remoteId)
            || Pending(run.states[n], id, remoteId)
            || LostBefore(cfg, run, n, id, remoteId)
  {
    hide Next, Sent, Pending, Loses, StoreOk, SettlesOk;
    if n > 0 {
      RunStoreOk(cfg, run, n - 1);
      RunSettlesOk(cfg, run, n - 1);
      assert StepAt(cfg, run, n - 1);
      var s, a, t := run.states[n - 1], run.actions[n - 1], run.states[n];
      if id in s.tasks && Cancellable(s.tasks[id]) && s.tasks[id].remoteId == t.tasks[id].remoteId {
        NoLostCancellation(cfg, run, n - 1, id);
        CoverageLasts(cfg, run, n - 1, id, t.tasks[id].remoteId.value);
      } else {
        BecomesCancellable(cfg, s, a, id);
      }
    }
  }

  /**
   Once every call has come to its end, a stored cancellation of a live bound task has been sent with
   its identity, if nobody crashed about to send it and its identity was not bound, after the
   cancellation was stored, by an invalid observation or by the answer to a cancellation.
   */
  lemma CancellationForwarded(cfg: Config, run: Run, n: nat, id: string)
    requires ValidRun(cfg, run) && n < |run.states|
    requires id in run.states[n].tasks && Cancellable(run.states[n].tasks[id])
    requires forall c | c in run.states[n].calls ::
        run.states[n].calls[c].pc.Finished? || run.states[n].calls[c].pc.Crashed?
    requires !LostBefore(cfg, run, n, id, run.states[n].tasks[id].remoteId.value)
    ensures Sent(run.states[n].history, id, run.states[n].tasks[id].remoteId.value)
  {
    NoLostCancellation(cfg, run, n, id);
  }

  lemma ProtocolErrorBinds(r: Record, attempt: Attempt, e: RemoteEvent, now: int)
    requires FirstNamesInvalidly(r, attempt, e)
    ensures var after := ApplyEvent(r, attempt, e, now).0;
            && after.remoteId == Some(e.remoteId) && !Terminal(after.state)
            && after.cancelRequested == r.cancelRequested
  {
    DiagnosticsAreQuiet(now);
    hide AddDiagnostic;
  }

  /** An invalid observation, well attributed, that first names the remote task of a live record. */
  predicate FirstNamesInvalidly(r: Record, attempt: Attempt, e: RemoteEvent) {
    && r.attempt == Some(attempt) && !Terminal(r.state) && !Truthy(r.remoteId)
    && e.ProtocolError? && e.remoteId != "" && !Terminal(e.remoteState)
  }

  lemma SettleStores(s: Sys, c: nat)
    requires c in s.calls && s.calls[c].pc.Settle? && Read(s.tasks, s.calls[c].pc.id, s.calls[c].pc.principal).Ok?
    ensures var pc := s.calls[c].pc;
            StepAdvance(s, c).tasks == s.tasks[pc.id := ApplyEvent(s.tasks[pc.id], pc.attempt, pc.event, s.clock).0]
  {
    hide ApplyEvent, ForwardCancel;
  }

  /** The loss is real: an invalid live observation that first names the remote task forwards nothing. */
  lemma InvalidObservationNotForwarded(cfg: Config, s: Sys, c: nat, id: string)
    requires c in s.calls && Settles(s, Advance(c), id) && !s.calls[c].pc.forward
    requires Read(s.tasks, id, s.calls[c].pc.principal).Ok? && s.tasks[id].cancelRequested
    requires FirstNamesInvalidly(s.tasks[id], s.calls[c].pc.attempt, s.calls[c].pc.event)
    ensures var t := Next(cfg, s, Advance(c));
            && Cancellable(t.tasks[id]) && t.calls[c].pc.Finished? && t.history.cancels == s.history.cancels
            && Loses(cfg, s, Advance(c), id, s.calls[c].pc.event.remoteId)
  {
    ProtocolErrorBinds(s.tasks[id], s.calls[c].pc.attempt, s.calls[c].pc.event, s.clock);
    SettleStores(s, c);
    SettleEnds(s, c);
    hide StepAdvance, ApplyEvent;
  }

  /** An observation settled before the user cancels costs nothing: the cancel call itself is about to send. */
  lemma CancelOfBoundTaskPends(cfg: Config, run: Run, n: nat, id: string)
    requires ValidRun(cfg, run) && n < |run.actions| && Requests(run.states[n], run.actions[n], id)
    requires Read(run.states[n].tasks, id, run.states[n].calls[run.actions[n].c].pc.principal).Ok?
    requires Truthy(run.states[n].tasks[id].remoteId) && !Terminal(run.states[n].tasks[id].state)
    ensures var t, c := run.states[n + 1], run.actions[n].c;
            c in t.calls && AboutToCancel(t.calls[c].pc, id, run.states[n].tasks[id].remoteId.value)
  {
    hide TasksOk, CallsOk, OrderOk, ChildOk, Advances, RequestCancel;
    RunStoreOk(cfg, run, n);
    assert StepAt(cfg, run, n);
    var s := run.states[n];
    StoredUnderItsId(cfg, s, id);
    RequestShape(s.tasks[id], s.clock);
    RequestStaysLive(s.tasks[id], s.clock);
  }

  /** On a bound record the dispatch has started, so a request cannot end it locally. */
  lemma RequestStaysLive(r: Record, now: int)
    ensures r.dispatch != NotStarted && !Terminal(r.state) ==> !Terminal(RequestCancel(r, now).0.state)
  {
  }

  /** Any later refresh by the principal picks the cancellation up with the bound identity. */
  lemma RefreshForwards(cfg: Config, s: Sys, c: nat, id: string)
    requires TasksOk(cfg, s.tasks) && c in s.calls && s.calls[c].pc.GetRead? && s.calls[c].pc.id == id
    requires s.calls[c].pc.refresh
    requires Read(s.tasks, id, s.calls[c].pc.principal).Ok? && Cancellable(s.tasks[id])
    ensures AboutToCancel(Next(cfg, s, Advance(c)).calls[c].pc, id, s.tasks[id].remoteId.value)
  {
    hide RecordOk, Granted;
  }

  // ---------------------------------------------------------------- remote identity

  /** Nothing settled about the task is an observation or protocol error without an identity. */
  ghost predicate Names(s: Sys, a: Action, id: string) {
    Settles(s, a, id) ==> s.calls[a.c].pc.event.TransportError? || s.calls[a.c].pc.event.remoteId != ""
  }

  lemma IdentityStep(cfg: Config, s: Sys, a: Action, id: string)
    requires TasksOk(cfg, s.tasks) && Enabled(s, a) && id in s.tasks && Truthy(s.tasks[id].remoteId) && Names(s, a, id)
    ensures id in Next(cfg, s, a).tasks && Next(cfg, s, a).tasks[id].remoteId == s.tasks[id].remoteId
  {
    hide ApplyEvent, ForwardCancel, RecordOk, Granted;
    if Settles(s, a, id) {
      var pc := s.calls[a.c].pc;
      RemoteIdKept(s.tasks[id], pc.attempt, pc.event, s.clock);
    } else {
      ViewStep(cfg, s, a, id);
    }
  }

  /** A bound remote identity is never replaced as long as the worker's observations name the task. */
  lemma {:induction false} IdentityKept(cfg: Config, run: Run, i: nat, j: nat, id: string)
    requires ValidRun(cfg, run) && i <= j < |run.states|
    requires id in run.states[i].tasks && Truthy(run.states[i].tasks[id].remoteId)
    requires forall k | i <= k < j :: Names(run.states[k], run.actions[k], id)
    ensures id in run.states[j].tasks && run.states[j].tasks[id].remoteId == run.states[i].tasks[id].remoteId
    decreases j - i
  {
    hide Next, TasksOk, CallsOk, OrderOk, ChildOk, Names;
    if i < j {
      IdentityKept(cfg, run, i, j - 1, id);
      RunStoreOk(cfg, run, j - 1);
      assert StepAt(cfg, run, j - 1);
      IdentityStep(cfg, run.states[j - 1], run.actions[j - 1], id);
    }
  }

  // ---------------------------------------------------------------- at most one request per call

  /** A call that has sent its cancellation request never comes back to the sending point. */
  ghost predicate PastCancel(pc: Pc) {
    pc.CancelWait? || (pc.Settle? && pc.sentTo.Some? && !pc.forward) || pc.Finished? || pc.Crashed?
  }

  ghost predicate OncePerCall(s: Sys) {
    && (forall i | 0 <= i < |s.history.cancels| ::
          s.history.cancels[i].call in s.calls && PastCancel(s.calls[s.history.cancels[i].call].pc))
    && (forall i, j | 0 <= i < j < |s.history.cancels| :: s.history.cancels[i].call != s.history.cancels[j].call)
  }

  lemma PastCancelAdvance(s: Sys, c: nat)
    requires c in s.calls && (PastCancel(s.calls[c].pc) || s.calls[c].pc.CancelSend?)
    ensures c in StepAdvance(s, c).calls && PastCancel(StepAdvance(s, c).calls[c].pc)
  {
    hide StepSubmitRead, StepCreate, StepBegin, StepSubmitSend, StepGetRead, StepClaim, StepCancelRead,
         ApplyEvent, ForwardCancel;
  }

  lemma PastCancelStep(cfg: Config, s: Sys, a: Action, c: nat)
    requires Enabled(s, a) && c in s.calls &&
        (PastCancel(s.calls[c].pc) || (a == Advance(c) && s.calls[c].pc.CancelSend?))
    ensures c in Next(cfg, s, a).calls && PastCancel(Next(cfg, s, a).calls[c].pc)
  {
    hide StepAdvance, Authorize, RenewLease, Classify;
    if a.Advance? {
      if a.c == c { PastCancelAdvance(s, c); } else { AdvanceOthers(s, a.c); }
    }
  }

  /** Each submit, get or cancel call sends at most one cancellation request. */
  lemma {:induction false} CancelsOncePerCall(cfg: Config, run: Run, n: nat)
    requires ValidRun(cfg, run) && n < |run.states|
    ensures OncePerCall(run.states[n])
  {
    hide Next, PastCancel;
    if n > 0 {
      CancelsOncePerCall(cfg, run, n - 1);
      assert StepAt(cfg, run, n - 1);
      var s, a, t := run.states[n - 1], run.actions[n - 1], run.states[n];
      HistoryStep(cfg, s, a);
      forall i | 0 <= i < |t.history.cancels|
        ensures t.history.cancels[i].call in t.calls && PastCancel(t.calls[t.history.cancels[i].call].pc)
      {
        PastCancelStep(cfg, s, a, t.history.cancels[i].call);
      }
      if a.Advance? && s.calls[a.c].pc.CancelSend? {
        SenderIsNotPast(s.calls[a.c].pc);
      }
    }
  }

  lemma SenderIsNotPast(pc: Pc)
    requires pc.CancelSend?
    ensures !PastCancel(pc)
  {
  }
}
