/**
 Calls that nothing interrupts, from any state that a run can reach (`submit`, `get` and `cancel` of
 pipeline/a2a_coordination.py): what the caller ends up with and what the store then says.
 */
module Executions {
  import opened Common
  import opened Records
  import opened Budgets
  import opened Coordinator
  import opened StoreInvariant
  import opened GrantCeilings
  import opened Replies
  import opened Submission

  /** A run followed by these actions. */
  ghost predicate Continues(cfg: Config, run: Run, actions: seq<Action>, longer: Run) {
    && ValidRun(cfg, longer) && |longer.states| > 0
    && longer.actions == run.actions + actions && run.states <= longer.states
  }

  lemma ContinueWith(cfg: Config, run: Run, actions: seq<Action>, sofar: Run, a: Action) returns (longer: Run)
    requires Continues(cfg, run, actions, sofar) && Enabled(Last(sofar), a)
    ensures Continues(cfg, run, actions + [a], longer) && |longer.states| > 0
    ensures Last(longer) == Next(cfg, Last(sofar), a)
  {
    hide Next, Enabled, ValidRun;
    LongerBy(cfg, sofar, a);
    longer := Longer(cfg, sofar, a);
    assert longer.actions == run.actions + (actions + [a]);
  }

  lemma Begin(cfg: Config, run: Run)
    requires ValidRun(cfg, run)
    ensures |run.states| > 0 && Continues(cfg, run, [], run)
  {
    assert run.actions + [] == run.actions;
  }

  /** A record the principal may see. */
  ghost predicate Sees(s: Sys, id: string, principal: string) {
    id in s.tasks && s.tasks[id].principal == principal
  }

  lemma LastStoreOk(cfg: Config, run: Run)
    requires ValidRun(cfg, run)
    ensures |run.states| > 0 && StoreOk(cfg, Last(run))
  {
    RunStoreOk(cfg, run, |run.states| - 1);
  }

  lemma BoundIsAttempted(cfg: Config, run: Run, id: string)
    requires ValidRun(cfg, run) && |run.states| > 0 && id in Last(run).tasks
    ensures var r := Last(run).tasks[id];
            && r.item.id == id && (Truthy(r.remoteId) || r.dispatch != NotStarted ==> r.attempt.Some?)
            && (Truthy(r.remoteId) ==> r.dispatch != NotStarted)
  {
    LastStoreOk(cfg, run);
    hide ValidRun;
  }

  // ---------------------------------------------------------------- single steps

  lemma InvokeStep(cfg: Config, s: Sys, c: nat, owner: string, lease: nat, pc: Pc)
    requires c !in s.calls && Entry(pc)
    ensures Enabled(s, Invoke(c, owner, lease, pc))
    ensures Next(cfg, s, Invoke(c, owner, lease, pc)) == s.(calls := s.calls[c := Call(owner, lease, pc)])
  {
  }

  lemma GetReadStep(cfg: Config, s: Sys, c: nat)
    requires c in s.calls && s.calls[c].pc.GetRead? && Sees(s, s.calls[c].pc.id, s.calls[c].pc.principal)
    ensures Enabled(s, Advance(c))
    ensures var pc, t := s.calls[c].pc, Next(cfg, s, Advance(c));
            var r := s.tasks[pc.id];
            && t == s.(calls := t.calls) && c in t.calls && t.calls[c] == s.calls[c].(pc := t.calls[c].pc)
            && (!pc.refresh || Terminal(r.state) ==> t.calls[c].pc == Finished(Ok(r)))
            && (pc.refresh && !Terminal(r.state) ==>
                  && (!Truthy(r.remoteId) ==> t.calls[c].pc == GetClock(pc.id, pc.principal))
                  && (Truthy(r.remoteId) && !r.cancelRequested && r.attempt.Some? ==>
                        t.calls[c].pc == RefreshWait(r.item, pc.principal, r.attempt.value)))
  {
    hide ForwardCancel;
  }

  lemma GetClockStep(cfg: Config, s: Sys, c: nat)
    requires c in s.calls && s.calls[c].pc.GetClock?
    ensures Enabled(s, Advance(c))
    ensures var pc, t := s.calls[c].pc, Next(cfg, s, Advance(c));
            && t == s.(calls := t.calls) && c in t.calls
            && t.calls[c] == s.calls[c].(pc := GetClaim(pc.id, pc.principal, s.clock))
  {
  }

  lemma GetClaimStep(cfg: Config, s: Sys, c: nat)
    requires c in s.calls && s.calls[c].pc.GetClaim? && Sees(s, s.calls[c].pc.id, s.calls[c].pc.principal)
    requires Abandoned(s.tasks[s.calls[c].pc.id], s.calls[c].pc.observedAt)
    requires s.tasks[s.calls[c].pc.id].attempt.Some?
    ensures Enabled(s, Advance(c))
    ensures var pc, t := s.calls[c].pc, Next(cfg, s, Advance(c));
            var r := s.tasks[pc.id];
            && pc.id in t.tasks && t.tasks == s.tasks[pc.id := t.tasks[pc.id]]
            && t.clock == s.clock && t.history == s.history
            && TakenOver(r, t.tasks[pc.id], s.calls[c].owner, s.calls[c].lease, pc.observedAt)
            && c in t.calls && t.calls[c].pc == ReconcileWait(r.item, pc.principal, r.attempt.value)
  {
  }

  lemma SettleStep(cfg: Config, s: Sys, c: nat)
    requires c in s.calls && s.calls[c].pc.Settle? && Sees(s, s.calls[c].pc.id, s.calls[c].pc.principal)
    ensures Enabled(s, Advance(c))
    ensures var pc, t := s.calls[c].pc, Next(cfg, s, Advance(c));
            var after := ApplyEvent(s.tasks[pc.id], pc.attempt, pc.event, s.clock).0;
            && t.tasks == s.tasks[pc.id := after] && t.clock == s.clock && t.history == s.history && c in t.calls
            && (!pc.forward || !after.cancelRequested || Terminal(after.state) ==>
                  t.calls[c].pc == Finished(Ok(after)))
  {
    hide ApplyEvent, ForwardCancel;
  }

  lemma ReplyStep(cfg: Config, s: Sys, c: nat, reply: RemoteReply)
    requires c in s.calls && Waiting(s.calls[c].pc)
    ensures Enabled(s, Reply(c, reply))
    ensures var pc, t := s.calls[c].pc, Next(cfg, s, Reply(c, reply));
            && t == s.(calls := t.calls) && c in t.calls && t.calls[c].pc.Settle?
            && t.calls[c].pc.id == pc.item.id && t.calls[c].pc.principal == pc.principal
            && t.calls[c].pc.attempt == pc.attempt && t.calls[c].pc.event == Classify(pc.item, reply)
            && (pc.CancelWait? ==> !t.calls[c].pc.forward)
  {
    hide Classify;
  }

  lemma NoReplyStep(cfg: Config, s: Sys, c: nat, code: Code, message: string)
    requires c in s.calls && Waiting(s.calls[c].pc)
    ensures Enabled(s, NoReply(c, code, message))
    ensures var pc, t := s.calls[c].pc, Next(cfg, s, NoReply(c, code, message));
            && t == s.(calls := t.calls) && c in t.calls
            && (pc.RefreshWait? ==> t.calls[c].pc == Finished(Err(code)))
            && (!pc.RefreshWait? ==>
                  && t.calls[c].pc.Settle? && t.calls[c].pc.id == pc.item.id && !t.calls[c].pc.forward
                  && t.calls[c].pc.principal == pc.principal && t.calls[c].pc.attempt == pc.attempt
                  && t.calls[c].pc.event == TransportError(RpcOf(pc), TargetOf(pc), code, message))
  {
  }

  /** Which request a waiting call has out, and which worker task it names. */
  function RpcOf(pc: Pc): Rpc {
    if pc.CancelWait? then RpcCancel else if pc.ReconcileWait? then RpcReconcile else RpcSubmit
  }

  function TargetOf(pc: Pc): Option<string> {
    if pc.CancelWait? then Some(pc.remoteId) else None
  }

  /** What a failed request leaves of a live record: still unknown, and for a cancellation still pending. */
  ghost predicate FailureRecorded(r: Record, after: Record, rpc: Rpc, code: Code, message: string, now: int) {
    && SameTarget(after, r) && after.cancelRequested == r.cancelRequested && after.result == r.result
    && after.updatedAt == now && after.consistent == r.consistent && after.diagnosticCount == r.diagnosticCount + 1
    && after.dispatch == (if rpc == RpcCancel then r.dispatch else Uncertain)
    && after.state == (if rpc == RpcCancel || r.cancelRequested then CancellationPending else DispatchUncertain)
    && after.cancelStatus == (if rpc == RpcCancel then CancelUncertain else r.cancelStatus)
    && after.outcome == Some(if rpc == RpcCancel then CancellationUncertain(code, message)
                             else if rpc == RpcReconcile then ReconciliationFailed(code, message)
                             else SubmissionUncertain(code, message))
  }

  lemma FailureIsRecorded(r: Record, attempt: Attempt, rpc: Rpc, target: Option<string>, code: Code, message: string,
                          now: int)
    requires r.attempt == Some(attempt) && !Terminal(r.state) && (target.None? || target == r.remoteId)
    ensures FailureRecorded(r, ApplyEvent(r, attempt, TransportError(rpc, target, code, message), now).0, rpc, code,
                            message, now)
  {
  }

  /** Failure and settlement of a call that waits for anything but a refresh. */
  lemma FailureSettled(cfg: Config, run: Run, actions: seq<Action>, sofar: Run, c: nat, code: Code, message: string)
    returns (longer: Run)
    requires Continues(cfg, run, actions, sofar) && c in Last(sofar).calls && Waiting(Last(sofar).calls[c].pc)
    requires var s, pc := Last(sofar), Last(sofar).calls[c].pc;
             && !pc.RefreshWait? && Sees(s, pc.item.id, pc.principal)
             && s.tasks[pc.item.id].attempt == Some(pc.attempt) && !Terminal(s.tasks[pc.item.id].state)
             && (pc.CancelWait? ==> s.tasks[pc.item.id].remoteId == Some(pc.remoteId))
    ensures Continues(cfg, run, actions + [NoReply(c, code, message), Advance(c)], longer)
    ensures var s, pc, t := Last(sofar), Last(sofar).calls[c].pc, Last(longer);
            && pc.item.id in t.tasks && t.tasks == s.tasks[pc.item.id := t.tasks[pc.item.id]]
            && t.history == s.history && t.clock == s.clock
            && FailureRecorded(s.tasks[pc.item.id], t.tasks[pc.item.id], RpcOf(pc), code, message, s.clock)
            && c in t.calls && t.calls[c].pc == Finished(Ok(t.tasks[pc.item.id]))
  {
    var s, pc := Last(sofar), Last(sofar).calls[c].pc;
    FailureIsRecorded(s.tasks[pc.item.id], pc.attempt, RpcOf(pc), TargetOf(pc), code, message, s.clock);
    hide Continues, ApplyEvent, FailureRecorded, Next, Enabled, RpcOf;
    NoReplyStep(cfg, s, c, code, message);
    longer := ContinueWith(cfg, run, actions, sofar, NoReply(c, code, message));
    SettleStep(cfg, Last(longer), c);
    longer := ContinueWith(cfg, run, actions + [NoReply(c, code, message)], longer, Advance(c));
    assert actions + [NoReply(c, code, message)] + [Advance(c)] == actions + [NoReply(c, code, message), Advance(c)];
  }

  lemma CancelReadStep(cfg: Config, s: Sys, c: nat)
    requires c in s.calls && s.calls[c].pc.CancelRead? && Sees(s, s.calls[c].pc.id, s.calls[c].pc.principal)
    requires var r := s.tasks[s.calls[c].pc.id];
             && !Terminal(r.state) && Truthy(r.remoteId) && r.dispatch != NotStarted && r.attempt.Some?
             && (r.cancelRequested <==> r.cancelRequestedAt.Some?)
    ensures Enabled(s, Advance(c))
    ensures var pc, t := s.calls[c].pc, Next(cfg, s, Advance(c));
            var r := s.tasks[pc.id];
            && pc.id in t.tasks && t.tasks == s.tasks[pc.id := t.tasks[pc.id]]
            && t.clock == s.clock && t.history == s.history
            && CancelRecorded(r, t.tasks[pc.id], s.clock)
            && c in t.calls && t.calls[c].pc == CancelSend(r.item, pc.principal, r.attempt.value, r.remoteId.value)
  {
  }

  lemma CancelSendStep(cfg: Config, s: Sys, c: nat)
    requires c in s.calls && s.calls[c].pc.CancelSend?
    ensures Enabled(s, Advance(c))
    ensures var pc, t := s.calls[c].pc, Next(cfg, s, Advance(c));
            && t.tasks == s.tasks && t.clock == s.clock && c in t.calls
            && t.calls[c].pc == CancelWait(pc.item, pc.principal, pc.attempt, pc.remoteId)
            && t.history == s.history.(cancels := s.history.cancels + [CancelRequest(c, pc.item.id, pc.remoteId)])
  {
  }

  /** What identifies a task to its worker and its principal. */
  ghost predicate SameTarget(a: Record, b: Record) {
    a.item == b.item && a.principal == b.principal && a.attempt == b.attempt && a.remoteId == b.remoteId
  }

  /** An attempt nobody owns any more: it failed, or its dispatch or recovery lease has run out. */
  ghost predicate Abandoned(r: Record, now: int) {
    && !Terminal(r.state) && !Truthy(r.remoteId)
    && (|| r.dispatch == Uncertain
        || (r.dispatch == InFlight && r.leaseUntil.Some? && r.leaseUntil.value <= now)
        || (r.dispatch == Recovering && r.recoveryUntil.Some? && r.recoveryUntil.value <= now))
  }

  /** Somebody else owns the attempt now, for a lease from the moment it looked. */
  ghost predicate TakenOver(r: Record, after: Record, owner: string, lease: nat, observedAt: int) {
    && SameTarget(after, r) && after.cancelRequested == r.cancelRequested
    && after.dispatch == Recovering && after.recoveryUntil == Some(observedAt + lease)
    && after.recoveryOwner == Some(owner)
    && after.state == (if r.cancelRequested then CancellationPending else DispatchUncertain)
    && after.outcome == Some(ReconcilingAttempt)
  }

  // ---------------------------------------------------------------- reading

  /** A finished task, or a plain read, is answered from the store, and the worker is not asked. */
  lemma ReadAnswersFromStore(cfg: Config, run: Run, c: nat, owner: string, lease: nat, id: string, principal: string,
                             refresh: bool) returns (longer: Run)
    requires ValidRun(cfg, run) && |run.states| > 0 && c !in Last(run).calls && Sees(Last(run), id, principal)
    requires !refresh || Terminal(Last(run).tasks[id].state)
    ensures Continues(cfg, run, [Invoke(c, owner, lease, GetRead(id, principal, refresh)), Advance(c)], longer)
    ensures Last(longer).tasks == Last(run).tasks && Last(longer).history == Last(run).history
    ensures c in Last(longer).calls && Last(longer).calls[c].pc == Finished(Ok(Last(run).tasks[id]))
  {
    Begin(cfg, run);
    hide ValidRun, Continues, Next, Enabled;
    var first := Invoke(c, owner, lease, GetRead(id, principal, refresh));
    InvokeStep(cfg, Last(run), c, owner, lease, GetRead(id, principal, refresh));
    longer := ContinueWith(cfg, run, [], run, first);
    GetReadStep(cfg, Last(longer), c);
    longer := ContinueWith(cfg, run, [] + [first], longer, Advance(c));
    assert [] + [first] + [Advance(c)] == [first, Advance(c)];
  }

  // ---------------------------------------------------------------- refreshing

  /** A refresh of a live bound task that nobody cancelled asks the worker for it. */
  lemma RefreshAsks(cfg: Config, run: Run, c: nat, owner: string, lease: nat, id: string, principal: string)
    returns (longer: Run)
    requires ValidRun(cfg, run) && |run.states| > 0 && c !in Last(run).calls && Sees(Last(run), id, principal)
    requires var r := Last(run).tasks[id]; !Terminal(r.state) && Truthy(r.remoteId) && !r.cancelRequested
    ensures Continues(cfg, run, [Invoke(c, owner, lease, GetRead(id, principal, true)), Advance(c)], longer)
    ensures Last(longer).tasks == Last(run).tasks && Last(longer).history == Last(run).history
    ensures Last(longer).clock == Last(run).clock
    ensures var r := Last(run).tasks[id];
            && c in Last(longer).calls && r.attempt.Some?
            && Last(longer).calls[c].pc == RefreshWait(r.item, principal, r.attempt.value)
  {
    Begin(cfg, run);
    BoundIsAttempted(cfg, run, id);
    hide ValidRun, Continues, Next, Enabled;
    var first := Invoke(c, owner, lease, GetRead(id, principal, true));
    InvokeStep(cfg, Last(run), c, owner, lease, GetRead(id, principal, true));
    longer := ContinueWith(cfg, run, [], run, first);
    GetReadStep(cfg, Last(longer), c);
    longer := ContinueWith(cfg, run, [] + [first], longer, Advance(c));
    assert [] + [first] + [Advance(c)] == [first, Advance(c)];
  }

  /** The event that a reply becomes reaches the live record it was asked about, if it names the same task. */
  lemma ReplyReaches(r: Record, attempt: Attempt, reply: RemoteReply)
    requires r.attempt == Some(attempt) && !Terminal(r.state)
    requires reply.remoteId == "" || !Truthy(r.remoteId) || r.remoteId == Some(reply.remoteId)
    ensures ReachesLive(r, attempt, Classify(r.item, reply)) && !Classify(r.item, reply).TransportError?
  {
    ClassifyExact(r.item, reply);
    hide Classify;
  }

  lemma ReplyIsRecorded(r: Record, attempt: Attempt, reply: RemoteReply, now: int)
    requires r.attempt == Some(attempt) && !Terminal(r.state)
    requires reply.remoteId == "" || !Truthy(r.remoteId) || r.remoteId == Some(reply.remoteId)
    ensures var after := ApplyEvent(r, attempt, Classify(r.item, reply), now).0;
            && after.dispatch == Confirmed && Reports(after, reply) && after.cancelRequested == r.cancelRequested
  {
    ReplyReaches(r, attempt, reply);
    EventReports(r, attempt, Classify(r.item, reply), now);
    ReportsReply(ApplyEvent(r, attempt, Classify(r.item, reply), now).0, reply);
    hide ApplyEvent, Classify, Reports, ReachesLive, ReportsEvent;
  }

  /** Reply and settlement of a call that waits: the record then reports the reply, and nothing else changed. */
  lemma ReplySettles(cfg: Config, run: Run, actions: seq<Action>, sofar: Run, c: nat, reply: RemoteReply)
    returns (longer: Run)
    requires Continues(cfg, run, actions, sofar) && c in Last(sofar).calls && Waiting(Last(sofar).calls[c].pc)
    requires var s, pc := Last(sofar), Last(sofar).calls[c].pc;
             && Sees(s, pc.item.id, pc.principal) && s.tasks[pc.item.id].item == pc.item
             && s.tasks[pc.item.id].attempt == Some(pc.attempt) && !Terminal(s.tasks[pc.item.id].state)
             && (reply.remoteId == "" || !Truthy(s.tasks[pc.item.id].remoteId)
                 || s.tasks[pc.item.id].remoteId == Some(reply.remoteId))
    ensures Continues(cfg, run, actions + [Reply(c, reply), Advance(c)], longer)
    ensures var s, pc, t := Last(sofar), Last(sofar).calls[c].pc, Last(longer);
            && pc.item.id in t.tasks && t.tasks == s.tasks[pc.item.id := t.tasks[pc.item.id]]
            && t.history == s.history && t.clock == s.clock
            && t.tasks[pc.item.id].dispatch == Confirmed && Reports(t.tasks[pc.item.id], reply)
            && t.tasks[pc.item.id].cancelRequested == s.tasks[pc.item.id].cancelRequested
            && c in t.calls
            && (!t.tasks[pc.item.id].cancelRequested || Terminal(t.tasks[pc.item.id].state) || pc.CancelWait? ==>
                  t.calls[c].pc == Finished(Ok(t.tasks[pc.item.id])))
  {
    var s, pc := Last(sofar), Last(sofar).calls[c].pc;
    ReplyIsRecorded(s.tasks[pc.item.id], pc.attempt, reply, s.clock);
    hide Continues, ApplyEvent, Classify, Reports, Next, Enabled, Waiting;
    ReplyStep(cfg, s, c, reply);
    longer := ContinueWith(cfg, run, actions, sofar, Reply(c, reply));
    SettleStep(cfg, Last(longer), c);
    longer := ContinueWith(cfg, run, actions + [Reply(c, reply)], longer, Advance(c));
    assert actions + [Reply(c, reply)] + [Advance(c)] == actions + [Reply(c, reply), Advance(c)];
  }

  /** A refresh that the worker answers ends with the answer on record and in the caller's hands. */
  lemma RefreshReports(cfg: Config, run: Run, c: nat, owner: string, lease: nat, id: string, principal: string,
                       reply: RemoteReply) returns (longer: Run)
    requires ValidRun(cfg, run) && |run.states| > 0 && c !in Last(run).calls && Sees(Last(run), id, principal)
    requires var r := Last(run).tasks[id];
             !Terminal(r.state) && Truthy(r.remoteId) && !r.cancelRequested && r.remoteId == Some(reply.remoteId)
    ensures Continues(cfg, run, [Invoke(c, owner, lease, GetRead(id, principal, true)), Advance(c),
                                 Reply(c, reply), Advance(c)], longer)
    ensures var t := Last(longer);
            && id in t.tasks && t.tasks == Last(run).tasks[id := t.tasks[id]]
            && t.tasks[id].dispatch == Confirmed && Reports(t.tasks[id], reply)
            && c in t.calls && t.calls[c].pc == Finished(Ok(t.tasks[id]))
  {
    BoundIsAttempted(cfg, run, id);
    hide ValidRun, Continues, Reports;
    var actions := [Invoke(c, owner, lease, GetRead(id, principal, true)), Advance(c)];
    longer := RefreshAsks(cfg, run, c, owner, lease, id, principal);
    longer := ReplySettles(cfg, run, actions, longer, c, reply);
    assert actions + [Reply(c, reply), Advance(c)]
           == [Invoke(c, owner, lease, GetRead(id, principal, true)), Advance(c), Reply(c, reply), Advance(c)];
  }

  /** A refresh that fails tells the caller, and leaves the store as it was. */
  lemma RefreshFailureChangesNothing(cfg: Config, run: Run, c: nat, owner: string, lease: nat, id: string,
                                     principal: string, code: Code, message: string) returns (longer: Run)
    requires ValidRun(cfg, run) && |run.states| > 0 && c !in Last(run).calls && Sees(Last(run), id, principal)
    requires var r := Last(run).tasks[id]; !Terminal(r.state) && Truthy(r.remoteId) && !r.cancelRequested
    ensures Continues(cfg, run, [Invoke(c, owner, lease, GetRead(id, principal, true)), Advance(c),
                                 NoReply(c, code, message)], longer)
    ensures Last(longer).tasks == Last(run).tasks && Last(longer).history == Last(run).history
    ensures c in Last(longer).calls && Last(longer).calls[c].pc == Finished(Err(code))
  {
    hide ValidRun, Continues;
    var actions := [Invoke(c, owner, lease, GetRead(id, principal, true)), Advance(c)];
    longer := RefreshAsks(cfg, run, c, owner, lease, id, principal);
    longer := ContinueWith(cfg, run, actions, longer, NoReply(c, code, message));
    assert actions + [NoReply(c, code, message)]
           == [Invoke(c, owner, lease, GetRead(id, principal, true)), Advance(c), NoReply(c, code, message)];
  }

  // ---------------------------------------------------------------- recovering

  /** A refresh of an abandoned attempt takes it over for its lease and asks the worker about that attempt. */
  lemma RecoveryAsks(cfg: Config, run: Run, c: nat, owner: string, lease: nat, id: string, principal: string)
    returns (longer: Run)
    requires ValidRun(cfg, run) && |run.states| > 0 && c !in Last(run).calls && Sees(Last(run), id, principal)
    requires Abandoned(Last(run).tasks[id], Last(run).clock)
    ensures Continues(cfg, run, [Invoke(c, owner, lease, GetRead(id, principal, true)), Advance(c), Advance(c),
                                 Advance(c)], longer)
    ensures var r, t := Last(run).tasks[id], Last(longer);
            && id in t.tasks && t.tasks == Last(run).tasks[id := t.tasks[id]] && t.clock == Last(run).clock
            && t.history == Last(run).history
            && TakenOver(r, t.tasks[id], owner, lease, t.clock) && r.attempt.Some?
            && c in t.calls && t.calls[c].pc == ReconcileWait(r.item, principal, r.attempt.value)
  {
    Begin(cfg, run);
    BoundIsAttempted(cfg, run, id);
    hide ValidRun, Continues, Next, Enabled, TakenOver;
    var first := Invoke(c, owner, lease, GetRead(id, principal, true));
    InvokeStep(cfg, Last(run), c, owner, lease, GetRead(id, principal, true));
    longer := ContinueWith(cfg, run, [], run, first);
    GetReadStep(cfg, Last(longer), c);
    longer := ContinueWith(cfg, run, [] + [first], longer, Advance(c));
    GetClockStep(cfg, Last(longer), c);
    longer := ContinueWith(cfg, run, [] + [first] + [Advance(c)], longer, Advance(c));
    GetClaimStep(cfg, Last(longer), c);
    longer := ContinueWith(cfg, run, [] + [first] + [Advance(c)] + [Advance(c)], longer, Advance(c));
    assert [] + [first] + [Advance(c)] + [Advance(c)] + [Advance(c)] == [first, Advance(c), Advance(c), Advance(c)];
  }

  lemma UnclaimedStep(cfg: Config, s: Sys, c: nat)
    requires c in s.calls && s.calls[c].pc.GetClaim? && Sees(s, s.calls[c].pc.id, s.calls[c].pc.principal)
    requires !Abandoned(s.tasks[s.calls[c].pc.id], s.calls[c].pc.observedAt)
    requires Leased(s.tasks[s.calls[c].pc.id])
    ensures Enabled(s, Advance(c))
    ensures var pc, t := s.calls[c].pc, Next(cfg, s, Advance(c));
            t == s.(calls := t.calls) && c in t.calls && t.calls[c].pc == Finished(Ok(s.tasks[pc.id]))
  {
  }

  /** An attempt that is owned is owned until some time. */
  ghost predicate Leased(r: Record) {
    (r.dispatch == InFlight ==> r.leaseUntil.Some?) && (r.dispatch == Recovering ==> r.recoveryUntil.Some?)
  }

  lemma StoredAreLeased(cfg: Config, run: Run, id: string)
    requires ValidRun(cfg, run) && |run.states| > 0 && id in Last(run).tasks
    ensures Leased(Last(run).tasks[id])
  {
    LastStoreOk(cfg, run);
    hide ValidRun;
  }

  /** An unbound attempt that somebody still owns is left alone: a refresh answers from the store. */
  lemma OwnedIsLeftAlone(cfg: Config, run: Run, c: nat, owner: string, lease: nat, id: string, principal: string)
    returns (longer: Run)
    requires ValidRun(cfg, run) && |run.states| > 0 && c !in Last(run).calls && Sees(Last(run), id, principal)
    requires var r := Last(run).tasks[id]; !Terminal(r.state) && !Truthy(r.remoteId)
    requires !Abandoned(Last(run).tasks[id], Last(run).clock)
    ensures Continues(cfg, run, [Invoke(c, owner, lease, GetRead(id, principal, true)), Advance(c), Advance(c),
                                 Advance(c)], longer)
    ensures Last(longer).tasks == Last(run).tasks && Last(longer).history == Last(run).history
    ensures c in Last(longer).calls && Last(longer).calls[c].pc == Finished(Ok(Last(run).tasks[id]))
  {
    Begin(cfg, run);
    StoredAreLeased(cfg, run, id);
    hide ValidRun, Continues, Next, Enabled, Leased, Abandoned;
    var first := Invoke(c, owner, lease, GetRead(id, principal, true));
    InvokeStep(cfg, Last(run), c, owner, lease, GetRead(id, principal, true));
    longer := ContinueWith(cfg, run, [], run, first);
    GetReadStep(cfg, Last(longer), c);
    longer := ContinueWith(cfg, run, [] + [first], longer, Advance(c));
    GetClockStep(cfg, Last(longer), c);
    longer := ContinueWith(cfg, run, [] + [first] + [Advance(c)], longer, Advance(c));
    UnclaimedStep(cfg, Last(longer), c);
    longer := ContinueWith(cfg, run, [] + [first] + [Advance(c)] + [Advance(c)], longer, Advance(c));
    assert [] + [first] + [Advance(c)] + [Advance(c)] + [Advance(c)] == [first, Advance(c), Advance(c), Advance(c)];
  }

  /** And if the worker knows the attempt, the task is bound and reported again. */
  lemma RecoveryReports(cfg: Config, run: Run, c: nat, owner: string, lease: nat, id: string, principal: string,
                        reply: RemoteReply) returns (longer: Run)
    requires ValidRun(cfg, run) && |run.states| > 0 && c !in Last(run).calls && Sees(Last(run), id, principal)
    requires Abandoned(Last(run).tasks[id], Last(run).clock)
    ensures Continues(cfg, run, [Invoke(c, owner, lease, GetRead(id, principal, true)), Advance(c), Advance(c),
                                 Advance(c), Reply(c, reply), Advance(c)], longer)
    ensures var t := Last(longer);
            && id in t.tasks && t.tasks == Last(run).tasks[id := t.tasks[id]]
            && t.tasks[id].dispatch == Confirmed && Reports(t.tasks[id], reply)
  {
    BoundIsAttempted(cfg, run, id);
    hide ValidRun, Continues, Reports;
    var actions := [Invoke(c, owner, lease, GetRead(id, principal, true)), Advance(c), Advance(c), Advance(c)];
    longer := RecoveryAsks(cfg, run, c, owner, lease, id, principal);
    longer := ReplySettles(cfg, run, actions, longer, c, reply);
    assert actions + [Reply(c, reply), Advance(c)]
           == [Invoke(c, owner, lease, GetRead(id, principal, true)), Advance(c), Advance(c), Advance(c),
               Reply(c, reply), Advance(c)];
  }

  /** A recovery that fails leaves the attempt open to the next one. */
  lemma RecoveryFailureIsRecoverable(cfg: Config, run: Run, c: nat, owner: string, lease: nat, id: string,
                                     principal: string, code: Code, message: string) returns (longer: Run)
    requires ValidRun(cfg, run) && |run.states| > 0 && c !in Last(run).calls && Sees(Last(run), id, principal)
    requires Abandoned(Last(run).tasks[id], Last(run).clock)
    ensures Continues(cfg, run, [Invoke(c, owner, lease, GetRead(id, principal, true)), Advance(c), Advance(c),
                                 Advance(c), NoReply(c, code, message), Advance(c)], longer)
    ensures var r, t := Last(run).tasks[id], Last(longer);
            && id in t.tasks && t.tasks == Last(run).tasks[id := t.tasks[id]] && t.history == Last(run).history
            && t.tasks[id].attempt == r.attempt && Abandoned(t.tasks[id], t.clock)
            && t.tasks[id].outcome == Some(ReconciliationFailed(code, message))
            && c in t.calls && t.calls[c].pc == Finished(Ok(t.tasks[id]))
  {
    BoundIsAttempted(cfg, run, id);
    hide ValidRun, Continues, Next, Enabled;
    var actions := [Invoke(c, owner, lease, GetRead(id, principal, true)), Advance(c), Advance(c), Advance(c)];
    longer := RecoveryAsks(cfg, run, c, owner, lease, id, principal);
    longer := FailureSettled(cfg, run, actions, longer, c, code, message);
    assert actions + [NoReply(c, code, message), Advance(c)]
           == [Invoke(c, owner, lease, GetRead(id, principal, true)), Advance(c), Advance(c), Advance(c),
               NoReply(c, code, message), Advance(c)];
  }

  // ---------------------------------------------------------------- submitting

  /** The item as it is authorised and sent: a child also guards what its parent guards. */
  ghost function Inherited(s: Sys, item: WorkItem): WorkItem {
    if item.parent.Some? && item.parent.value in s.tasks
    then item.(guarded := item.guarded + s.tasks[item.parent.value].item.guarded) else item
  }

  /** What any submission needs: a parent it may see, and permission. */
  ghost predicate Authorized(cfg: Config, s: Sys, item: WorkItem, grant: Grant, worker: string) {
    && ValidItem(item) && (item.parent.Some? ==> Sees(s, item.parent.value, grant.principal))
    && worker in cfg.workers
    && Authorize(cfg, Inherited(s, item), grant.principal, worker, s.clock) == Ok((grant, cfg.workers[worker]))
  }

  /** What the submission of a new item needs besides: room under the ceilings. */
  ghost predicate Admissible(cfg: Config, s: Sys, item: WorkItem, grant: Grant, worker: string) {
    && Authorized(cfg, s, item, grant, worker) && item.id !in s.tasks
    && CheckCreate(s.tasks, SubmittedRecord(cfg, Inherited(s, item), grant, worker, s.clock),
                   AggregateCeiling(grant, cfg.workers[worker])).Ok?
  }

  lemma SubmitReadStep(cfg: Config, s: Sys, c: nat)
    requires c in s.calls && s.calls[c].pc.SubmitRead?
    requires var pc := s.calls[c].pc; pc.item.parent.Some? ==> Sees(s, pc.item.parent.value, pc.principal)
    ensures Enabled(s, Advance(c))
    ensures var pc, t := s.calls[c].pc, Next(cfg, s, Advance(c));
            && t == s.(calls := t.calls) && c in t.calls
            && t.calls[c] == s.calls[c].(pc := SubmitAuthorize(Inherited(s, pc.item), pc.principal))
  {
  }

  lemma AuthorizeStep(cfg: Config, s: Sys, c: nat, grant: Grant, worker: string)
    requires c in s.calls && s.calls[c].pc.SubmitAuthorize? && worker in cfg.workers
    requires var pc := s.calls[c].pc;
             pc.principal == grant.principal &&
             Authorize(cfg, pc.item, pc.principal, worker, s.clock) == Ok((grant, cfg.workers[worker]))
    ensures Enabled(s, ChooseWorker(c, worker))
    ensures var pc, t := s.calls[c].pc, Next(cfg, s, ChooseWorker(c, worker));
            && t == s.(calls := t.calls) && c in t.calls
            && t.calls[c] == s.calls[c].(pc := SubmitCreate(SubmittedRecord(cfg, pc.item, grant, worker, s.clock),
                                                            AggregateCeiling(grant, cfg.workers[worker])))
  {
    hide Authorize, AggregateCeiling;
  }

  lemma SubmittedIsNew(cfg: Config, item: WorkItem, grant: Grant, worker: string, now: int)
    requires worker in cfg.workers
    ensures var r := SubmittedRecord(cfg, item, grant, worker, now);
            && r.item == item && r.principal == grant.principal && r.worker == worker && r.createdAt == now
            && r.state == Queued && r.dispatch == NotStarted && r.remoteId.None? && !r.cancelRequested
  {
  }

  lemma SubmitIsAuthorized(cfg: Config, run: Run, c: nat, owner: string, lease: nat, item: WorkItem, grant: Grant,
                           worker: string) returns (longer: Run)
    requires ValidRun(cfg, run) && |run.states| > 0 && c !in Last(run).calls
    requires Authorized(cfg, Last(run), item, grant, worker)
    ensures Continues(cfg, run, [Invoke(c, owner, lease, SubmitRead(item, grant.principal)), Advance(c),
                                 ChooseWorker(c, worker)], longer)
    ensures var s, t, sent := Last(run), Last(longer), Inherited(Last(run), item);
            && t == s.(calls := t.calls) && c in t.calls
            && t.calls[c] == Call(owner, lease, SubmitCreate(SubmittedRecord(cfg, sent, grant, worker, s.clock),
                                                             AggregateCeiling(grant, cfg.workers[worker])))
  {
    Begin(cfg, run);
    hide ValidRun, Continues, ValidItem, Authorize, AggregateCeiling, Next, Enabled, SubmittedRecord;
    var first := Invoke(c, owner, lease, SubmitRead(item, grant.principal));
    InvokeStep(cfg, Last(run), c, owner, lease, SubmitRead(item, grant.principal));
    longer := ContinueWith(cfg, run, [], run, first);
    SubmitReadStep(cfg, Last(longer), c);
    assert Inherited(Last(longer), item) == Inherited(Last(run), item);
    longer := ContinueWith(cfg, run, [] + [first], longer, Advance(c));
    AuthorizeStep(cfg, Last(longer), c, grant, worker);
    longer := ContinueWith(cfg, run, [] + [first] + [Advance(c)], longer, ChooseWorker(c, worker));
    assert [] + [first] + [Advance(c)] + [ChooseWorker(c, worker)] == [first, Advance(c), ChooseWorker(c, worker)];
  }

  /** Once stored, the item is dispatched under a fresh attempt for the caller's lease, and sent, once. */
  lemma SubmitSends(cfg: Config, run: Run, c: nat, owner: string, lease: nat, item: WorkItem, grant: Grant,
                    worker: string) returns (longer: Run)
    requires ValidRun(cfg, run) && |run.states| > 0 && c !in Last(run).calls
    requires Admissible(cfg, Last(run), item, grant, worker)
    ensures Continues(cfg, run, [Invoke(c, owner, lease, SubmitRead(item, grant.principal)), Advance(c),
                                 ChooseWorker(c, worker), Advance(c), Advance(c), Advance(c)], longer)
    ensures var s, t, sent := Last(run), Last(longer), Inherited(Last(run), item);
            && item.id in t.tasks && t.tasks == s.tasks[item.id := t.tasks[item.id]] && t.clock == s.clock
            && t.history.submits == s.history.submits + [sent] && t.history.created == s.history.created + [item.id]
            && var r := t.tasks[item.id];
            && r.item == sent && r.principal == grant.principal && r.worker == worker && r.createdAt == s.clock
            && r.dispatch == InFlight && r.state == Dispatching && r.attempt == Some(Random(s.serial))
            && r.owner == Some(owner) && r.leaseUntil == Some(s.clock + lease) && r.remoteId.None? && !r.cancelRequested
            && c in t.calls && t.calls[c].pc == SubmitWait(sent, grant.principal, Random(s.serial))
  {
    var head := [Invoke(c, owner, lease, SubmitRead(item, grant.principal)), Advance(c), ChooseWorker(c, worker)];
    var sent := Inherited(Last(run), item);
    SubmittedIsNew(cfg, sent, grant, worker, Last(run).clock);
    hide ValidRun, Continues, Authorized, CheckCreate, AggregateCeiling, Next, Enabled, SubmittedRecord;
    longer := SubmitIsAuthorized(cfg, run, c, owner, lease, item, grant, worker);
    longer := SubmitRest(cfg, run, head, longer, c, sent, SubmittedRecord(cfg, sent, grant, worker, Last(run).clock),
                         AggregateCeiling(grant, cfg.workers[worker]));
    assert head + [Advance(c), Advance(c), Advance(c)]
           == [Invoke(c, owner, lease, SubmitRead(item, grant.principal)), Advance(c), ChooseWorker(c, worker),
               Advance(c), Advance(c), Advance(c)];
  }

  /** The same task, in flight under this attempt and owned until then. */
  ghost predicate NewlyInFlight(r: Record, after: Record, attempt: Attempt, owner: string, until: int) {
    && SameBinding(after, r) && after.remoteId == r.remoteId && after.cancelRequested == r.cancelRequested
    && after.dispatch == InFlight && after.state == Dispatching && after.attempt == Some(attempt)
    && after.owner == Some(owner) && after.leaseUntil == Some(until) && after.outcome == Some(SubmissionInFlight)
  }

  lemma CreateStep(cfg: Config, s: Sys, c: nat)
    requires c in s.calls && s.calls[c].pc.SubmitCreate?
    requires var pc := s.calls[c].pc;
             pc.record.item.id !in s.tasks && CheckCreate(s.tasks, pc.record, pc.ceiling).Ok?
    ensures Enabled(s, Advance(c))
    ensures var r, t := s.calls[c].pc.record, Next(cfg, s, Advance(c));
            && t.tasks == s.tasks[r.item.id := r] && t.clock == s.clock && t.serial == s.serial
            && t.history == s.history.(created := s.history.created + [r.item.id])
            && c in t.calls && t.calls[c] == s.calls[c].(pc := SubmitBegin(r.item, r.principal))
  {
    hide CheckCreate;
  }

  lemma BeginStep(cfg: Config, s: Sys, c: nat)
    requires c in s.calls && s.calls[c].pc.SubmitBegin? && Sees(s, s.calls[c].pc.item.id, s.calls[c].pc.principal)
    requires var r := s.tasks[s.calls[c].pc.item.id]; r.state == Queued && r.dispatch == NotStarted
    ensures Enabled(s, Advance(c))
    ensures var pc, t := s.calls[c].pc, Next(cfg, s, Advance(c));
            && pc.item.id in t.tasks && t.tasks == s.tasks[pc.item.id := t.tasks[pc.item.id]]
            && t.clock == s.clock && t.history == s.history
            && var r, q := s.tasks[pc.item.id], t.tasks[pc.item.id];
            && NewlyInFlight(r, q, Random(s.serial), s.calls[c].owner, s.clock + s.calls[c].lease)
            && c in t.calls && t.calls[c] == s.calls[c].(pc := SubmitSend(pc.item, pc.principal, Random(s.serial)))
  {
  }

  lemma SendStep(cfg: Config, s: Sys, c: nat)
    requires c in s.calls && s.calls[c].pc.SubmitSend?
    ensures Enabled(s, Advance(c))
    ensures var pc, t := s.calls[c].pc, Next(cfg, s, Advance(c));
            && t.tasks == s.tasks && t.clock == s.clock && c in t.calls
            && t.history == s.history.(submits := s.history.submits + [pc.item])
            && t.calls[c].pc == SubmitWait(pc.item, pc.principal, pc.attempt)
  {
  }

  lemma Overwritten(tasks: Tasks, id: string, a: Record, b: Record)
    ensures tasks[id := a][id := b] == tasks[id := b]
  {
  }

  lemma SubmitClaims(cfg: Config, run: Run, head: seq<Action>, sofar: Run, c: nat) returns (longer: Run)
    requires Continues(cfg, run, head, sofar) && c in Last(sofar).calls && Last(sofar).calls[c].pc.SubmitCreate?
    requires var s, r := Last(sofar), Last(sofar).calls[c].pc.record;
             && r.item.id !in s.tasks && r.state == Queued && r.dispatch == NotStarted
             && CheckCreate(s.tasks, r, s.calls[c].pc.ceiling).Ok?
    ensures Continues(cfg, run, head + [Advance(c)] + [Advance(c)], longer) && |longer.states| > 0
    ensures var s, r, t := Last(sofar), Last(sofar).calls[c].pc.record, Last(longer);
            && r.item.id in t.tasks && t.tasks == s.tasks[r.item.id := t.tasks[r.item.id]] && t.clock == s.clock
            && t.history == s.history.(created := s.history.created + [r.item.id])
            && NewlyInFlight(r, t.tasks[r.item.id], Random(s.serial), s.calls[c].owner, s.clock + s.calls[c].lease)
            && c in t.calls && t.calls[c].pc == SubmitSend(r.item, r.principal, Random(s.serial))
  {
    CreateStep(cfg, Last(sofar), c);
    hide Continues, CheckCreate, Next, Enabled, NewlyInFlight, ValidRun;
    var s, r := Last(sofar), Last(sofar).calls[c].pc.record;
    longer := ContinueWith(cfg, run, head, sofar, Advance(c));
    BeginStep(cfg, Last(longer), c);
    longer := ContinueWith(cfg, run, head + [Advance(c)], longer, Advance(c));
    Overwritten(s.tasks, r.item.id, r, Last(longer).tasks[r.item.id]);
  }

  lemma SubmitRest(cfg: Config, run: Run, head: seq<Action>, sofar: Run, c: nat, item: WorkItem, r: Record,
                   ceiling: map<string, int>) returns (longer: Run)
    requires Continues(cfg, run, head, sofar) && c in Last(sofar).calls
    requires Last(sofar).calls[c].pc == SubmitCreate(r, ceiling) && r.item == item && item.id !in Last(sofar).tasks
    requires r.state == Queued && r.dispatch == NotStarted && CheckCreate(Last(sofar).tasks, r, ceiling).Ok?
    ensures Continues(cfg, run, head + [Advance(c), Advance(c), Advance(c)], longer)
    ensures var s, t := Last(sofar), Last(longer);
            && item.id in t.tasks && t.tasks == s.tasks[item.id := t.tasks[item.id]] && t.clock == s.clock
            && t.history.submits == s.history.submits + [item] && t.history.created == s.history.created + [item.id]
            && var q := t.tasks[item.id];
            && NewlyInFlight(r, q, Random(s.serial), s.calls[c].owner, s.clock + s.calls[c].lease)
            && c in t.calls && t.calls[c].pc == SubmitWait(item, r.principal, Random(s.serial))
  {
    longer := SubmitClaims(cfg, run, head, sofar, c);
    hide Continues, CheckCreate, Next, Enabled, NewlyInFlight, ValidRun;
    SendStep(cfg, Last(longer), c);
    longer := ContinueWith(cfg, run, head + [Advance(c)] + [Advance(c)], longer, Advance(c));
    assert head + [Advance(c)] + [Advance(c)] + [Advance(c)] == head + [Advance(c), Advance(c), Advance(c)];
  }

  /**
   A retry sends nothing and stores nothing: the caller gets the stored task if it asked for the same
   item, and a conflict otherwise.
   */
  lemma RetryAnswers(cfg: Config, run: Run, c: nat, owner: string, lease: nat, item: WorkItem, grant: Grant,
                     worker: string) returns (longer: Run)
    requires forall a, b | cfg.requestDigest(a) == cfg.requestDigest(b) :: a == b
    requires ValidRun(cfg, run) && |run.states| > 0 && c !in Last(run).calls && item.id in Last(run).tasks
    requires Authorized(cfg, Last(run), item, grant, worker)
    ensures Continues(cfg, run, [Invoke(c, owner, lease, SubmitRead(item, grant.principal)), Advance(c),
                                 ChooseWorker(c, worker), Advance(c)], longer)
    ensures var s, t, stored := Last(run), Last(longer), Last(run).tasks[item.id];
            && t.tasks == s.tasks && t.history == s.history && c in t.calls
            && t.calls[c].pc == Finished(if stored.item == Inherited(s, item) then Ok(stored)
                                         else Err(IdempotencyConflict))
            && (stored.item == Inherited(s, item) ==> stored.principal == grant.principal)
  {
    var head := [Invoke(c, owner, lease, SubmitRead(item, grant.principal)), Advance(c), ChooseWorker(c, worker)];
    RetriedRequest(cfg, run, item.id, Inherited(Last(run), item), grant);
    hide ValidRun, Continues, Authorized, AggregateCeiling, Next, Enabled;
    longer := SubmitIsAuthorized(cfg, run, c, owner, lease, item, grant, worker);
    RetryStep(cfg, Last(longer), c);
    longer := ContinueWith(cfg, run, head, longer, Advance(c));
    assert head + [Advance(c)] == [Invoke(c, owner, lease, SubmitRead(item, grant.principal)), Advance(c),
                                   ChooseWorker(c, worker), Advance(c)];
  }

  lemma RetryStep(cfg: Config, s: Sys, c: nat)
    requires c in s.calls && s.calls[c].pc.SubmitCreate? && s.calls[c].pc.record.item.id in s.tasks
    ensures Enabled(s, Advance(c))
    ensures var r, t := s.calls[c].pc.record, Next(cfg, s, Advance(c));
            var stored := s.tasks[r.item.id];
            && t.tasks == s.tasks && t.history == s.history && c in t.calls
            && t.calls[c].pc == Finished(if stored.request == r.request then Ok(stored) else Err(IdempotencyConflict))
  {
  }

  /** Equal digests mean the same item, and so the same grant and the same principal. */
  lemma RetriedRequest(cfg: Config, run: Run, id: string, item: WorkItem, grant: Grant)
    requires forall a, b | cfg.requestDigest(a) == cfg.requestDigest(b) :: a == b
    requires ValidRun(cfg, run) && |run.states| > 0 && id in Last(run).tasks && item.authorityRef in cfg.authorities
    requires cfg.authorities[item.authorityRef] == grant
    ensures Last(run).tasks[id].request == cfg.requestDigest(item) <==> Last(run).tasks[id].item == item
    ensures Last(run).tasks[id].item == item ==> Last(run).tasks[id].principal == grant.principal
  {
    LastStoreOk(cfg, run);
    hide ValidRun;
  }

  /**
   Between its creation and its dispatch a task may be cancelled: then the submission sends nothing and
   answers with it. Otherwise it goes on to send it, under an attempt nobody has used.
   */
  lemma BeginAnswers(cfg: Config, run: Run, c: nat) returns (longer: Run)
    requires ValidRun(cfg, run) && |run.states| > 0 && c in Last(run).calls && Last(run).calls[c].pc.SubmitBegin?
    requires var pc := Last(run).calls[c].pc; Sees(Last(run), pc.item.id, pc.principal)
    ensures Continues(cfg, run, [Advance(c)], longer)
    ensures var s, pc, t := Last(run), Last(run).calls[c].pc, Last(longer);
            var r := s.tasks[pc.item.id];
            && t.history == s.history && c in t.calls && pc.item.id in t.tasks
            && (Terminal(r.state) || r.dispatch != NotStarted ==>
                  t.tasks == s.tasks && t.calls[c].pc == Finished(Ok(r)))
            && (!Terminal(r.state) && r.dispatch == NotStarted ==>
                  && t.tasks == s.tasks[pc.item.id := t.tasks[pc.item.id]]
                  && t.tasks[pc.item.id].attempt == Some(Random(s.serial)) && t.serial == s.serial + 1
                  && t.calls[c].pc == SubmitSend(pc.item, pc.principal, Random(s.serial)))
  {
    Begin(cfg, run);
    hide ValidRun, Continues;
    longer := ContinueWith(cfg, run, [], run, Advance(c));
    assert [] + [Advance(c)] == [Advance(c)];
  }

  /** A submission that the worker answers ends with the answer on record and in the caller's hands. */
  lemma SubmitReports(cfg: Config, run: Run, c: nat, owner: string, lease: nat, item: WorkItem, grant: Grant,
                      worker: string, reply: RemoteReply) returns (longer: Run)
    requires ValidRun(cfg, run) && |run.states| > 0 && c !in Last(run).calls
    requires Admissible(cfg, Last(run), item, grant, worker)
    ensures Continues(cfg, run, [Invoke(c, owner, lease, SubmitRead(item, grant.principal)), Advance(c),
                                 ChooseWorker(c, worker), Advance(c), Advance(c), Advance(c),
                                 Reply(c, reply), Advance(c)], longer)
    ensures var t := Last(longer);
            && item.id in t.tasks && t.tasks == Last(run).tasks[item.id := t.tasks[item.id]]
            && t.history.submits == Last(run).history.submits + [Inherited(Last(run), item)]
            && t.tasks[item.id].dispatch == Confirmed && Reports(t.tasks[item.id], reply)
            && c in t.calls && t.calls[c].pc == Finished(Ok(t.tasks[item.id]))
  {
    hide ValidRun, Continues, Reports, Admissible;
    var actions := [Invoke(c, owner, lease, SubmitRead(item, grant.principal)), Advance(c), ChooseWorker(c, worker),
                    Advance(c), Advance(c), Advance(c)];
    longer := SubmitSends(cfg, run, c, owner, lease, item, grant, worker);
    longer := ReplySettles(cfg, run, actions, longer, c, reply);
    assert actions + [Reply(c, reply), Advance(c)]
           == [Invoke(c, owner, lease, SubmitRead(item, grant.principal)), Advance(c), ChooseWorker(c, worker),
               Advance(c), Advance(c), Advance(c), Reply(c, reply), Advance(c)];
  }

  /** A submission that fails leaves the task uncertain, so that anybody may recover the attempt at once. */
  lemma SubmitFailureIsRecoverable(cfg: Config, run: Run, c: nat, owner: string, lease: nat, item: WorkItem,
                                   grant: Grant, worker: string, code: Code, message: string) returns (longer: Run)
    requires ValidRun(cfg, run) && |run.states| > 0 && c !in Last(run).calls
    requires Admissible(cfg, Last(run), item, grant, worker)
    ensures Continues(cfg, run, [Invoke(c, owner, lease, SubmitRead(item, grant.principal)), Advance(c),
                                 ChooseWorker(c, worker), Advance(c), Advance(c), Advance(c),
                                 NoReply(c, code, message), Advance(c)], longer)
    ensures var t := Last(longer);
            && item.id in t.tasks && t.tasks == Last(run).tasks[item.id := t.tasks[item.id]]
            && t.history.submits == Last(run).history.submits + [Inherited(Last(run), item)]
            && t.tasks[item.id].state == DispatchUncertain
            && t.tasks[item.id].outcome == Some(SubmissionUncertain(code, message))
            && t.tasks[item.id].attempt == Some(Random(Last(run).serial)) && Abandoned(t.tasks[item.id], t.clock)
            && c in t.calls && t.calls[c].pc == Finished(Ok(t.tasks[item.id]))
  {
    hide ValidRun, Continues, Admissible, Next, Enabled;
    var actions := [Invoke(c, owner, lease, SubmitRead(item, grant.principal)), Advance(c), ChooseWorker(c, worker),
                    Advance(c), Advance(c), Advance(c)];
    longer := SubmitSends(cfg, run, c, owner, lease, item, grant, worker);
    longer := FailureSettled(cfg, run, actions, longer, c, code, message);
    assert actions + [NoReply(c, code, message), Advance(c)]
           == [Invoke(c, owner, lease, SubmitRead(item, grant.principal)), Advance(c), ChooseWorker(c, worker),
               Advance(c), Advance(c), Advance(c), NoReply(c, code, message), Advance(c)];
  }

  // ---------------------------------------------------------------- cancelling

  lemma CancelAnswerStep(cfg: Config, s: Sys, c: nat)
    requires c in s.calls && s.calls[c].pc.CancelRead? && Sees(s, s.calls[c].pc.id, s.calls[c].pc.principal)
    requires var r := s.tasks[s.calls[c].pc.id]; Terminal(r.state) || !Truthy(r.remoteId)
    ensures Enabled(s, Advance(c))
    ensures var pc, t := s.calls[c].pc, Next(cfg, s, Advance(c));
            && pc.id in t.tasks && t.tasks == s.tasks[pc.id := t.tasks[pc.id]] && t.history == s.history
            && (Terminal(s.tasks[pc.id].state) ==> t.tasks[pc.id] == s.tasks[pc.id])
            && c in t.calls && t.calls[c].pc == Finished(Ok(t.tasks[pc.id]))
  {
  }

  /** A cancellation of a finished task changes nothing; one of an unbound task is recorded, and sends nothing. */
  lemma CancelAnswersFromStore(cfg: Config, run: Run, c: nat, owner: string, lease: nat, id: string,
                               principal: string) returns (longer: Run)
    requires ValidRun(cfg, run) && |run.states| > 0 && c !in Last(run).calls && Sees(Last(run), id, principal)
    requires var r := Last(run).tasks[id]; Terminal(r.state) || !Truthy(r.remoteId)
    ensures Continues(cfg, run, [Invoke(c, owner, lease, CancelRead(id, principal)), Advance(c)], longer)
    ensures var r, t := Last(run).tasks[id], Last(longer);
            && id in t.tasks && t.tasks == Last(run).tasks[id := t.tasks[id]] && t.history == Last(run).history
            && (Terminal(r.state) ==> t.tasks[id] == r)
            && (!Terminal(r.state) ==> CancelRecorded(r, t.tasks[id], Last(run).clock))
            && c in t.calls && t.calls[c].pc == Finished(Ok(t.tasks[id]))
  {
    Begin(cfg, run);
    MarkedInRun(cfg, run, id);
    hide ValidRun, Continues, Enabled, StepAdvance, CancelRecorded;
    var first := Invoke(c, owner, lease, CancelRead(id, principal));
    InvokeStep(cfg, Last(run), c, owner, lease, CancelRead(id, principal));
    longer := ContinueWith(cfg, run, [], run, first);
    CancelAnswerStep(cfg, Last(longer), c);
    if !Terminal(Last(run).tasks[id].state) { CancelStep(Last(longer), c); }
    longer := ContinueWith(cfg, run, [] + [first], longer, Advance(c));
    assert [] + [first] + [Advance(c)] == [first, Advance(c)];
  }

  lemma MarkedInRun(cfg: Config, run: Run, id: string)
    requires ValidRun(cfg, run) && |run.states| > 0 && id in Last(run).tasks
    ensures Last(run).tasks[id].cancelRequested <==> Last(run).tasks[id].cancelRequestedAt.Some?
  {
    LastStoreOk(cfg, run);
    hide ValidRun;
    CancelIsMarked(cfg, Last(run).tasks, id);
  }

  /** Cancelling a live bound task stores the intent and sends the request for the bound identity. */
  lemma CancelSends(cfg: Config, run: Run, c: nat, owner: string, lease: nat, id: string, principal: string)
    returns (longer: Run)
    requires ValidRun(cfg, run) && |run.states| > 0 && c !in Last(run).calls && Sees(Last(run), id, principal)
    requires !Terminal(Last(run).tasks[id].state) && Truthy(Last(run).tasks[id].remoteId)
    ensures Continues(cfg, run, [Invoke(c, owner, lease, CancelRead(id, principal)), Advance(c), Advance(c)], longer)
    ensures var r, t := Last(run).tasks[id], Last(longer);
            && id in t.tasks && t.tasks == Last(run).tasks[id := t.tasks[id]] && t.clock == Last(run).clock
            && t.history.cancels == Last(run).history.cancels + [CancelRequest(c, id, r.remoteId.value)]
            && CancelRecorded(r, t.tasks[id], t.clock) && r.dispatch != NotStarted && r.attempt.Some?
            && c in t.calls && t.calls[c].pc == CancelWait(r.item, principal, r.attempt.value, r.remoteId.value)
  {
    Begin(cfg, run);
    BoundIsAttempted(cfg, run, id);
    MarkedInRun(cfg, run, id);
    hide ValidRun, Continues, Next, Enabled;
    var first := Invoke(c, owner, lease, CancelRead(id, principal));
    InvokeStep(cfg, Last(run), c, owner, lease, CancelRead(id, principal));
    longer := ContinueWith(cfg, run, [], run, first);
    CancelReadStep(cfg, Last(longer), c);
    longer := ContinueWith(cfg, run, [] + [first], longer, Advance(c));
    CancelSendStep(cfg, Last(longer), c);
    longer := ContinueWith(cfg, run, [] + [first] + [Advance(c)], longer, Advance(c));
    assert [] + [first] + [Advance(c)] + [Advance(c)] == [first, Advance(c), Advance(c)];
  }

  /**
   A cancellation that the worker answers ends with the answer on record: finished as the worker says,
   or pending as long as it says the task still runs.
   */
  lemma CancelReports(cfg: Config, run: Run, c: nat, owner: string, lease: nat, id: string, principal: string,
                      reply: RemoteReply) returns (longer: Run)
    requires ValidRun(cfg, run) && |run.states| > 0 && c !in Last(run).calls && Sees(Last(run), id, principal)
    requires !Terminal(Last(run).tasks[id].state) && Truthy(Last(run).tasks[id].remoteId)
    requires Last(run).tasks[id].remoteId == Some(reply.remoteId)
    ensures Continues(cfg, run, [Invoke(c, owner, lease, CancelRead(id, principal)), Advance(c), Advance(c),
                                 Reply(c, reply), Advance(c)], longer)
    ensures var t := Last(longer);
            && id in t.tasks && t.tasks == Last(run).tasks[id := t.tasks[id]]
            && t.tasks[id].cancelRequested && t.tasks[id].dispatch == Confirmed && Reports(t.tasks[id], reply)
            && c in t.calls && t.calls[c].pc == Finished(Ok(t.tasks[id]))
  {
    BoundIsAttempted(cfg, run, id);
    hide ValidRun, Continues, Reports;
    var actions := [Invoke(c, owner, lease, CancelRead(id, principal)), Advance(c), Advance(c)];
    longer := CancelSends(cfg, run, c, owner, lease, id, principal);
    longer := ReplySettles(cfg, run, actions, longer, c, reply);
    assert actions + [Reply(c, reply), Advance(c)]
           == [Invoke(c, owner, lease, CancelRead(id, principal)), Advance(c), Advance(c), Reply(c, reply), Advance(c)];
  }

  /** A cancellation that fails stays pending, and is reported as uncertain. */
  lemma CancelFailureStaysPending(cfg: Config, run: Run, c: nat, owner: string, lease: nat, id: string,
                                  principal: string, code: Code, message: string) returns (longer: Run)
    requires ValidRun(cfg, run) && |run.states| > 0 && c !in Last(run).calls && Sees(Last(run), id, principal)
    requires !Terminal(Last(run).tasks[id].state) && Truthy(Last(run).tasks[id].remoteId)
    ensures Continues(cfg, run, [Invoke(c, owner, lease, CancelRead(id, principal)), Advance(c), Advance(c),
                                 NoReply(c, code, message), Advance(c)], longer)
    ensures var r, t := Last(run).tasks[id], Last(longer);
            && id in t.tasks && t.tasks == Last(run).tasks[id := t.tasks[id]]
            && t.tasks[id].cancelRequested && t.tasks[id].state == CancellationPending
            && t.tasks[id].cancelStatus == CancelUncertain && t.tasks[id].dispatch == r.dispatch
            && t.tasks[id].remoteId == r.remoteId && t.tasks[id].attempt == r.attempt
            && t.tasks[id].outcome == Some(CancellationUncertain(code, message))
            && c in t.calls && t.calls[c].pc == Finished(Ok(t.tasks[id]))
  {
    BoundIsAttempted(cfg, run, id);
    hide ValidRun, Continues, Next, Enabled;
    var actions := [Invoke(c, owner, lease, CancelRead(id, principal)), Advance(c), Advance(c)];
    longer := CancelSends(cfg, run, c, owner, lease, id, principal);
    longer := FailureSettled(cfg, run, actions, longer, c, code, message);
    assert actions + [NoReply(c, code, message), Advance(c)]
           == [Invoke(c, owner, lease, CancelRead(id, principal)), Advance(c), Advance(c), NoReply(c, code, message),
               Advance(c)];
  }
}
