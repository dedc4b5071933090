/**
 A work item is submitted to the worker at most once, whatever crashes, retries and recoveries
 interleave (`begin_dispatch` and `submit` in pipeline/a2a_coordination.py).
 */
module Submission {
  import opened Common
  import opened Records
  import opened Budgets
  import opened Coordinator
  import opened StoreInvariant

  /** The stored record of an item about to be, or already, sent. */
  ghost predicate Dispatched(tasks: Tasks, item: WorkItem) {
    item.id in tasks && tasks[item.id].item == item && tasks[item.id].dispatch != NotStarted
  }

  ghost predicate Unsent(submits: seq<WorkItem>, id: string) {
    forall i | 0 <= i < |submits| :: submits[i].id != id
  }

  ghost predicate SendersOk(s: Sys) {
    && (forall c | c in s.calls && s.calls[c].pc.SubmitBegin? ::
          var item := s.calls[c].pc.item; item.id in s.tasks && s.tasks[item.id].item == item)
    && (forall c | c in s.calls && s.calls[c].pc.SubmitSend? ::
          Dispatched(s.tasks, s.calls[c].pc.item) && Unsent(s.history.submits, s.calls[c].pc.item.id))
    && (forall c, d | c in s.calls && d in s.calls && c != d && s.calls[c].pc.SubmitSend? &&
        s.calls[d].pc.SubmitSend? ::
          s.calls[c].pc.item.id != s.calls[d].pc.item.id)
  }

  ghost predicate SentOk(s: Sys) {
    && (forall i | 0 <= i < |s.history.submits| :: Dispatched(s.tasks, s.history.submits[i]))
    && (forall i, j | 0 <= i < j < |s.history.submits| :: s.history.submits[i].id != s.history.submits[j].id)
  }

  ghost predicate SubmissionOk(s: Sys) {
    SendersOk(s) && SentOk(s)
  }

  ghost predicate FromCreate(s: Sys, a: Action, c: nat, after: Pc)
    requires c in s.calls && after.SubmitBegin?
  {
    after == s.calls[c].pc || (a == Advance(c) && Creates(s, a) && after.item == s.calls[c].pc.record.item)
  }

  ghost predicate FromBegin(s: Sys, a: Action, c: nat, after: Pc)
    requires c in s.calls && after.SubmitSend?
  {
    after == s.calls[c].pc || (a == Advance(c) && s.calls[c].pc.SubmitBegin? && after.item == s.calls[c].pc.item)
  }

  /** How a call comes to the sending points, and which step logs a submission. */
  lemma SenderStep(cfg: Config, s: Sys, a: Action, c: nat)
    requires Enabled(s, a) && c in Next(cfg, s, a).calls
    ensures var after := Next(cfg, s, a).calls[c].pc;
            && (after.SubmitBegin? ==> c in s.calls && FromCreate(s, a, c, after))
            && (after.SubmitSend? ==> c in s.calls && FromBegin(s, a, c, after))
  {
    hide StepAdvance, Authorize, RenewLease, Classify, CheckCreate;
    if a.Advance? {
      if a.c == c { SenderAdvance(s, c); } else { AdvanceOthers(s, a.c); }
    }
  }

  lemma SenderAdvance(s: Sys, c: nat)
    requires c in s.calls
    ensures c in StepAdvance(s, c).calls
    ensures var after := StepAdvance(s, c).calls[c].pc;
            && (after.SubmitBegin? ==> FromCreate(s, Advance(c), c, after))
            && (after.SubmitSend? ==> FromBegin(s, Advance(c), c, after))
  {
    hide CheckCreate, ApplyEvent, BeginDispatch, RequestCancel, ClaimRecovery;
  }

  lemma SubmitsStep(cfg: Config, s: Sys, a: Action)
    requires Enabled(s, a)
    ensures var before, after := s.history.submits, Next(cfg, s, a).history.submits;
            || after == before
            || (a.Advance? && s.calls[a.c].pc.SubmitSend? && after == before + [s.calls[a.c].pc.item])
  {
    hide CheckCreate, Authorize, ApplyEvent, BeginDispatch, RenewLease, RequestCancel, ClaimRecovery, Classify;
  }

  /** Claiming the dispatch takes the record out of its not-started state, once. */
  lemma BeginClaims(cfg: Config, s: Sys, c: nat)
    requires c in s.calls && s.calls[c].pc.SubmitBegin? && StepAdvance(s, c).calls[c].pc.SubmitSend?
    requires s.calls[c].pc.item.id in s.tasks && s.tasks[s.calls[c].pc.item.id].item == s.calls[c].pc.item
    ensures s.tasks[s.calls[c].pc.item.id].dispatch == NotStarted
    ensures Dispatched(StepAdvance(s, c).tasks, s.calls[c].pc.item)
  {
  }

  lemma StaysDispatched(before: Tasks, after: Tasks, item: WorkItem)
    requires Dispatched(before, item) && Grows(before, after)
    ensures Dispatched(after, item)
  {
    assert Advances(before[item.id], after[item.id]);
  }

  lemma SentStep(cfg: Config, s: Sys, a: Action)
    requires StoreOk(cfg, s) && SubmissionOk(s) && Enabled(s, a)
    ensures SentOk(Next(cfg, s, a))
  {
    hide Next, StoreOk, Advances;
    var t := Next(cfg, s, a);
    TasksStep(cfg, s, a);
    SubmitsStep(cfg, s, a);
    forall i | 0 <= i < |t.history.submits|
      ensures Dispatched(t.tasks, t.history.submits[i])
    {
      StaysDispatched(s.tasks, t.tasks, t.history.submits[i]);
    }
  }

  /** A call that reaches the sending point had its item unsent, and no other call is there. */
  lemma SenderOk(cfg: Config, s: Sys, a: Action, c: nat)
    requires StoreOk(cfg, s) && SubmissionOk(s) && Enabled(s, a)
    requires c in Next(cfg, s, a).calls && Next(cfg, s, a).calls[c].pc.SubmitSend?
    ensures var t := Next(cfg, s, a);
            Dispatched(t.tasks, t.calls[c].pc.item) && Unsent(t.history.submits, t.calls[c].pc.item.id)
  {
    hide Next, StoreOk, StepAdvance, BeginDispatch, Grows, FromCreate;
    SenderStep(cfg, s, a, c);
    if s.calls[c].pc.SubmitSend? {
      SenderStays(cfg, s, a, c);
    } else {
      SenderArrives(cfg, s, a, c);
    }
  }

  lemma SenderStays(cfg: Config, s: Sys, a: Action, c: nat)
    requires StoreOk(cfg, s) && SubmissionOk(s) && Enabled(s, a) && c in s.calls && s.calls[c].pc.SubmitSend?
    requires c in Next(cfg, s, a).calls && Next(cfg, s, a).calls[c].pc == s.calls[c].pc
    ensures var t := Next(cfg, s, a);
            Dispatched(t.tasks, t.calls[c].pc.item) && Unsent(t.history.submits, t.calls[c].pc.item.id)
  {
    hide Next, StoreOk, StepAdvance, Grows, SentOk, Creates, TasksOk, Dispatched;
    var t := Next(cfg, s, a);
    TasksStep(cfg, s, a);
    SubmitsStep(cfg, s, a);
    StaysDispatched(s.tasks, t.tasks, t.calls[c].pc.item);
    if a == Advance(c) {
      AdvanceIsNext(cfg, s, c);
      SendLeaves(s, c);
    }
  }

  lemma SenderArrives(cfg: Config, s: Sys, a: Action, c: nat)
    requires SubmissionOk(s) && Enabled(s, a) && c in s.calls && s.calls[c].pc.SubmitBegin? && a == Advance(c)
    requires c in Next(cfg, s, a).calls && Next(cfg, s, a).calls[c].pc.SubmitSend?
    requires Next(cfg, s, a).calls[c].pc.item == s.calls[c].pc.item
    ensures var t := Next(cfg, s, a);
            Dispatched(t.tasks, t.calls[c].pc.item) && Unsent(t.history.submits, t.calls[c].pc.item.id)
  {
    hide Next, StepAdvance;
    AdvanceIsNext(cfg, s, c);
    SubmitsStep(cfg, s, a);
    BeginClaims(cfg, s, c);
    var item := s.calls[c].pc.item;
    forall i | 0 <= i < |s.history.submits| ensures s.history.submits[i].id != item.id {
      assert Dispatched(s.tasks, s.history.submits[i]);
    }
  }

  lemma AdvanceIsNext(cfg: Config, s: Sys, c: nat)
    requires c in s.calls
    ensures Next(cfg, s, Advance(c)) == StepAdvance(s, c)
  {
    hide StepAdvance;
  }

  lemma SendLeaves(s: Sys, c: nat)
    requires c in s.calls && s.calls[c].pc.SubmitSend?
    ensures StepAdvance(s, c).calls[c].pc.SubmitWait?
  {
  }

  lemma SendersStep(cfg: Config, s: Sys, a: Action)
    requires StoreOk(cfg, s) && SubmissionOk(s) && Enabled(s, a)
    ensures SendersOk(Next(cfg, s, a))
  {
    hide Next, StoreOk, Advances, Granted, RecordOk;
    var t := Next(cfg, s, a);
    TasksStep(cfg, s, a);
    forall c | c in t.calls && t.calls[c].pc.SubmitBegin?
      ensures var item := t.calls[c].pc.item; item.id in t.tasks && t.tasks[item.id].item == item
    {
      SenderStep(cfg, s, a, c);
      BeginItem(cfg, s, a, c);
    }
    forall c | c in t.calls && t.calls[c].pc.SubmitSend?
      ensures Dispatched(t.tasks, t.calls[c].pc.item) && Unsent(t.history.submits, t.calls[c].pc.item.id)
    {
      SenderOk(cfg, s, a, c);
    }
    forall c, d | c in t.calls && d in t.calls && c != d && t.calls[c].pc.SubmitSend? && t.calls[d].pc.SubmitSend?
      ensures t.calls[c].pc.item.id != t.calls[d].pc.item.id
    {
      SendersApart(cfg, s, a, c, d);
    }
  }

  lemma BeginItem(cfg: Config, s: Sys, a: Action, c: nat)
    requires StoreOk(cfg, s) && SubmissionOk(s) && Enabled(s, a)
    requires c in Next(cfg, s, a).calls && Next(cfg, s, a).calls[c].pc.SubmitBegin?
    ensures var t := Next(cfg, s, a);
            var item := t.calls[c].pc.item; item.id in t.tasks && t.tasks[item.id].item == item
  {
    hide Next, StoreOk, Granted, RecordOk, CheckCreate;
    TasksStep(cfg, s, a);
    SenderStep(cfg, s, a, c);
    var t := Next(cfg, s, a);
    var item := t.calls[c].pc.item;
    if item.id in s.tasks {
      assert Advances(s.tasks[item.id], t.tasks[item.id]);
    }
  }

  lemma SendersApart(cfg: Config, s: Sys, a: Action, c: nat, d: nat)
    requires StoreOk(cfg, s) && SubmissionOk(s) && Enabled(s, a) && c != d
    requires c in Next(cfg, s, a).calls && Next(cfg, s, a).calls[c].pc.SubmitSend?
    requires d in Next(cfg, s, a).calls && Next(cfg, s, a).calls[d].pc.SubmitSend?
    ensures Next(cfg, s, a).calls[c].pc.item.id != Next(cfg, s, a).calls[d].pc.item.id
  {
    hide StoreOk, StepAdvance, BeginDispatch, Grows, RecordOk, Granted;
    SenderStep(cfg, s, a, c);
    SenderStep(cfg, s, a, d);
    if !s.calls[c].pc.SubmitSend? {
      BeginClaims(cfg, s, c);
      assert Dispatched(s.tasks, s.calls[d].pc.item);
    } else if !s.calls[d].pc.SubmitSend? {
      BeginClaims(cfg, s, d);
      assert Dispatched(s.tasks, s.calls[c].pc.item);
    }
  }

  lemma {:induction false} RunSubmissionOk(cfg: Config, run: Run, n: nat)
    requires ValidRun(cfg, run) && n < |run.states|
    ensures SubmissionOk(run.states[n])
  {
    hide Next, StoreOk;
    if n > 0 {
      RunSubmissionOk(cfg, run, n - 1);
      RunStoreOk(cfg, run, n - 1);
      assert StepAt(cfg, run, n - 1);
      SentStep(cfg, run.states[n - 1], run.actions[n - 1]);
      SendersStep(cfg, run.states[n - 1], run.actions[n - 1]);
    }
  }

  /**
   A task cancelled before its dispatch is never sent: once a stored record carries the cancellation and
   no dispatch, it is cancelled for good, and in no later state has the item been sent or is any call
   about to send it.
   */
  lemma CancelledNeverSent(cfg: Config, run: Run, i: nat, j: nat, id: string)
    requires ValidRun(cfg, run) && i <= j < |run.states|
    requires var r := run.states[i].tasks; id in r && r[id].cancelRequested && r[id].dispatch == NotStarted
    ensures id in run.states[j].tasks
    ensures run.states[j].tasks[id].state == Cancelled && run.states[j].tasks[id].dispatch == NotStarted
    ensures forall k | 0 <= k < |run.states[j].history.submits| :: run.states[j].history.submits[k].id != id
    ensures forall c | c in run.states[j].calls && run.states[j].calls[c].pc.SubmitSend? ::
              run.states[j].calls[c].pc.item.id != id
  {
    hide Next;
    RunStoreOk(cfg, run, i);
    RunSubmissionOk(cfg, run, j);
    assert RecordOk(run.states[i].tasks[id]);
    TerminalForever(cfg, run, i, j, id);
    hide RecordOk, Granted, CallsOk, OrderOk, ChildOk;
    var t := run.states[j];
    forall k | 0 <= k < |t.history.submits| ensures t.history.submits[k].id != id {
      assert Dispatched(t.tasks, t.history.submits[k]);
    }
  }

  /** What a cancellation leaves: a cancelled task if nobody has begun to dispatch it, a pending one if somebody has. */
  ghost predicate CancelRecorded(before: Record, after: Record, now: int) {
    && after.cancelRequested && after.item == before.item && after.principal == before.principal
    && after.dispatch == before.dispatch && after.attempt == before.attempt && after.remoteId == before.remoteId
    && after.cancelRequestedAt == (if before.cancelRequested then before.cancelRequestedAt else Some(now))
    && after.result == before.result && after.updatedAt == now
    && (before.dispatch == NotStarted ==>
          after.state == Cancelled && after.cancelStatus == ConfirmedLocal
          && after.outcome == Some(CancelledBeforeDispatch))
    && (before.dispatch != NotStarted ==>
          after.state == CancellationPending && after.cancelStatus == CancelPending
          && after.outcome == Some(CancellationNotConfirmed))
  }

  lemma RequestIsRecorded(r: Record, now: int)
    requires !Terminal(r.state) && (r.cancelRequested <==> r.cancelRequestedAt.Some?)
    ensures CancelRecorded(r, RequestCancel(r, now).0, now)
  {
  }

  lemma CancelStep(s: Sys, c: nat)
    requires c in s.calls && s.calls[c].pc.CancelRead?
    requires var pc := s.calls[c].pc;
             && Read(s.tasks, pc.id, pc.principal).Ok? && !Terminal(s.tasks[pc.id].state)
             && (s.tasks[pc.id].cancelRequested <==> s.tasks[pc.id].cancelRequestedAt.Some?)
    ensures var id := s.calls[c].pc.id;
            && id in StepAdvance(s, c).tasks
            && CancelRecorded(s.tasks[id], StepAdvance(s, c).tasks[id], s.clock)
  {
    RequestIsRecorded(s.tasks[s.calls[c].pc.id], s.clock);
    hide RequestCancel, CancelRecorded, ForwardCancel;
  }

  lemma CancelIsMarked(cfg: Config, tasks: Tasks, id: string)
    requires TasksOk(cfg, tasks) && id in tasks
    ensures tasks[id].cancelRequested <==> tasks[id].cancelRequestedAt.Some?
  {
  }

  /** Cancelling a task nobody has begun to dispatch cancels it at once, and only then locally. */
  lemma CancelBeforeDispatch(cfg: Config, run: Run, n: nat, c: nat)
    requires ValidRun(cfg, run) && n < |run.actions| && run.actions[n] == Advance(c) && c in run.states[n].calls
    requires run.states[n].calls[c].pc.CancelRead?
    requires var pc := run.states[n].calls[c].pc;
             Read(run.states[n].tasks, pc.id, pc.principal).Ok? && !Terminal(run.states[n].tasks[pc.id].state)
    ensures var id := run.states[n].calls[c].pc.id;
            && id in run.states[n + 1].tasks
            && CancelRecorded(run.states[n].tasks[id], run.states[n + 1].tasks[id], run.states[n].clock)
  {
    RunStoreOk(cfg, run, n);
    assert StepAt(cfg, run, n);
    CancelIsMarked(cfg, run.states[n].tasks, run.states[n].calls[c].pc.id);
    CancelStep(run.states[n], c);
    hide TasksOk, CallsOk, OrderOk, StepAdvance, CancelRecorded;
  }

  /**
   At most once: in every run, no two submissions to the worker name the same work item, and what
   was sent is the stored, granted item.
   */
  lemma SubmittedAtMostOnce(cfg: Config, run: Run, n: nat)
    requires ValidRun(cfg, run) && n < |run.states|
    ensures var submits := run.states[n].history.submits;
            && (forall i, j | 0 <= i < j < |submits| :: submits[i].id != submits[j].id)
            && (forall i | 0 <= i < |submits| ::
                  && submits[i].id in run.states[n].tasks && run.states[n].tasks[submits[i].id].item == submits[i]
                  && Granted(cfg, run.states[n].tasks[submits[i].id]))
  {
    hide Granted, RecordOk;
    RunSubmissionOk(cfg, run, n);
    RunStoreOk(cfg, run, n);
    var submits := run.states[n].history.submits;
    forall i | 0 <= i < |submits|
      ensures submits[i].id in run.states[n].tasks && run.states[n].tasks[submits[i].id].item == submits[i]
              && Granted(cfg, run.states[n].tasks[submits[i].id])
    {
      assert Dispatched(run.states[n].tasks, submits[i]);
    }
  }
}
