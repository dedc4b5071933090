/**
 Work items, task records and the record updates that the locked sections of `TaskStore`
 (pipeline/a2a_coordination.py) make. Every update is a function from the record a locked section
 loads to the record it appends, so the store class and the protocol model share it.

 Times are clock readings in microseconds, the resolution of the source's timestamps.
 */
module Records {
  import opened Common
  import opened Scopes

  // ---------------------------------------------------------------- vocabulary

  datatype Code =
    | TaskNotFound | TaskEvidenceInvalid | FileExists
    | InvalidWorkItem | BadPathScope | ProtectedPath
    | IdempotencyConflict | AggregateBudgetDenied | ParentAuthorityDenied | ParentBudgetDenied
    | AuthorityDenied | AuthorityExpired | BudgetDenied
    | WorkerResultInvalid | WorkerScopeViolation
    | WorkerUnavailable | RemoteTaskNotObserved | Reported(text: string)
    | StaleDispatchAttempt | RemoteTaskIdConflict | TerminalStateConflict
    | StaleRemoteObservation | LateProtocolError | LateTransportError

  /** Local states of a record; the eight worker states are shared with observations. */
  datatype State =
    | Queued | Dispatching | DispatchUncertain | CancellationPending
    | Submitted | Working | InputRequired | AuthRequired
    | Completed | Failed | Cancelled | Rejected
    | Unknown(text: string)

  predicate Terminal(s: State) {
    s.Completed? || s.Failed? || s.Cancelled? || s.Rejected?
  }

  /** Worker states the coordinator understands. */
  predicate Supported(s: State) {
    Terminal(s) || s.Submitted? || s.Working? || s.InputRequired? || s.AuthRequired?
  }

  datatype DispatchState = NotStarted | InFlight | Recovering | Uncertain | Confirmed

  /** A random attempt id, the one derived from the request digest, or the text of an absent id. */
  datatype Attempt = Random(serial: nat) | Derived(request: string) | Missing

  datatype CancelStatus = NotRequested | CancelPending | CancelUncertain | RemoteTerminal | ConfirmedLocal

  datatype Acceptance = Acceptance(status: string, claim: string)

  const PENDING_ACCEPTANCE := Acceptance("pending", "NO_PROOF")

  datatype Diagnostic = Diagnostic(code: Code, message: string, observedAt: int)

  const KEPT_DIAGNOSTICS: nat := 64

  datatype Outcome =
    | SubmissionInFlight | ReconcilingAttempt
    | OutcomeFailed(code: Code, message: string) | ObservationInvalid(code: Code, message: string)
    | CancellationUncertain(code: Code, message: string)
    | ReconciliationFailed(code: Code, message: string) | SubmissionUncertain(code: Code, message: string)
    | Observed(state: State, message: string)
    | CancelledBeforeDispatch | CancellationNotConfirmed

  // ---------------------------------------------------------------- work items and results

  /**
   The fields of a work item the coordinator looks at. `payload` stands for the ones it only
   hashes and forwards: objective, variant, acceptance plan and deliverables.
   */
  datatype WorkItem = WorkItem(
    id: string, baseRevision: string, workflow: string, payload: string, authorityRef: string,
    allowed: set<string>, guarded: set<string>, effects: set<string>,
    budget: map<string, nat>, parent: Option<string>)

  function NormalizeAll(paths: seq<string>): Result<set<string>, Code> {
    if |paths| == 0 then Ok({})
    else match Normalize(paths[0])
      case Err(InvalidPathScope) => Err(BadPathScope)
      case Err(ProtectedPathScope) => Err(ProtectedPath)
      case Ok(path) =>
        match NormalizeAll(paths[1..])
        case Err(code) => Err(code)
        case Ok(rest) => Ok({path} + rest)
  }

  predicate IsDigit(c: char) { '0' <= c <= '9' }

  predicate IsAlnum(c: char) { IsDigit(c) || 'a' <= c <= 'z' || 'A' <= c <= 'Z' }

  predicate IsIdentifier(s: string) {
    && 1 <= |s| <= 128 && IsAlnum(s[0])
    && forall i | 0 < i < |s| :: IsAlnum(s[i]) || s[i] == '.' || s[i] == '_' || s[i] == '-'
  }

  /** Identifiers and digests, character by character. */
  lemma TextFormsExact(s: string)
    ensures IsIdentifier(s) <==>
            && 1 <= |s| <= 128
            && forall k | 0 <= k < |s| ::
                 || 'a' <= s[k] <= 'z' || 'A' <= s[k] <= 'Z' || '0' <= s[k] <= '9'
                 || (k > 0 && (s[k] == '.' || s[k] == '_' || s[k] == '-'))
    ensures IsSha256(s) <==> |s| == 64 && forall c | c in s :: '0' <= c <= '9' || 'a' <= c <= 'f'
  {
    assert forall k | 0 <= k < |s| :: s[k] in s;
  }

  predicate GoodIds(item: WorkItem) {
    && IsIdentifier(item.id)
    && (item.parent.Some? ==> IsIdentifier(item.parent.value) && item.parent.value != item.id)
  }

  /** What the work item constructor does with identifiers, scopes and the parent link. */
  function Construct(raw: WorkItem, allowed: seq<string>, guarded: seq<string>): Result<WorkItem, Code> {
    match NormalizeAll(allowed)
    case Err(code) => Err(code)
    case Ok(allowedSet) =>
      match NormalizeAll(guarded)
      case Err(code) => Err(code)
      case Ok(guardedSet) =>
        if !GoodIds(raw) || allowedSet == {} then Err(InvalidWorkItem)
        else Ok(raw.(allowed := allowedSet, guarded := guardedSet))
  }

  predicate ValidItem(item: WorkItem) {
    && GoodIds(item)
    && (forall scope | scope in item.allowed + item.guarded :: ValidScope(scope))
    && item.allowed != {}
  }

  lemma {:induction false} NormalizeAllValid(paths: seq<string>)
    requires NormalizeAll(paths).Ok?
    ensures forall scope | scope in NormalizeAll(paths).value :: ValidScope(scope)
  {
    if |paths| > 0 {
      NormalizeIdempotent(paths[0]);
      NormalizeAllValid(paths[1..]);
    }
  }

  lemma {:induction false} NormalizeAllStable(paths: seq<string>)
    requires forall path | path in paths :: ValidScope(path)
    ensures NormalizeAll(paths) == Ok(set path | path in paths)
  {
    hide Normalize;
    if |paths| > 0 {
      NormalizeAllStable(paths[1..]);
      assert paths == [paths[0]] + paths[1..];
      assert (set path | path in paths) == {paths[0]} + (set path | path in paths[1..]);
    } else {
      assert (set path | path in paths) == {};
    }
  }

  lemma {:induction false} NormalizeAllExact(paths: seq<string>)
    ensures NormalizeAll(paths).Ok? <==> forall path | path in paths :: Normalize(path).Ok?
    ensures NormalizeAll(paths).Ok? ==>
              NormalizeAll(paths).value == set path | path in paths :: Normalize(path).value
  {
    hide Normalize;
    if |paths| > 0 {
      assert paths == [paths[0]] + paths[1..];
      NormalizeAllExact(paths[1..]);
      if NormalizeAll(paths).Ok? {
        var rest := set path | path in paths[1..] :: Normalize(path).value;
        assert (set path | path in paths :: Normalize(path).value) == {Normalize(paths[0]).value} + rest;
      }
    }
  }

  /**
   An item can be constructed exactly when its identifiers are good, every path normalises and some path is
   allowed; its scopes are then exactly the normalised paths, and nothing else of it changes.
   */
  lemma ConstructExact(raw: WorkItem, allowed: seq<string>, guarded: seq<string>)
    ensures Construct(raw, allowed, guarded).Ok? <==>
            && GoodIds(raw) && allowed != []
            && forall path | path in allowed + guarded :: Normalize(path).Ok?
    ensures Construct(raw, allowed, guarded).Ok? ==>
              Construct(raw, allowed, guarded).value
              == raw.(allowed := set path | path in allowed :: Normalize(path).value,
                      guarded := set path | path in guarded :: Normalize(path).value)
  {
    NormalizeAllExact(allowed);
    NormalizeAllExact(guarded);
    if allowed != [] && NormalizeAll(allowed).Ok? {
      assert allowed[0] in allowed && Normalize(allowed[0]).value in NormalizeAll(allowed).value;
    }
    hide Normalize, NormalizeAll, GoodIds;
  }

  /** Construction yields a valid item, and rebuilding that item from its stored form is the identity. */
  lemma ConstructRoundTrip(raw: WorkItem, allowed: seq<string>, guarded: seq<string>,
                           storedAllowed: seq<string>, storedGuarded: seq<string>)
    requires Construct(raw, allowed, guarded).Ok?
    requires (set s | s in storedAllowed) == Construct(raw, allowed, guarded).value.allowed
    requires (set s | s in storedGuarded) == Construct(raw, allowed, guarded).value.guarded
    ensures ValidItem(Construct(raw, allowed, guarded).value)
    ensures Construct(Construct(raw, allowed, guarded).value, storedAllowed, storedGuarded)
            == Construct(raw, allowed, guarded)
  {
    NormalizeAllValid(allowed);
    NormalizeAllValid(guarded);
    var item := Construct(raw, allowed, guarded).value;
    forall s | s in storedAllowed ensures ValidScope(s) {
      assert s in (set x | x in storedAllowed);
    }
    forall s | s in storedGuarded ensures ValidScope(s) {
      assert s in (set x | x in storedGuarded);
    }
    NormalizeAllStable(storedAllowed);
    NormalizeAllStable(storedGuarded);
  }

  datatype Listing<T> = NotAList | Listed(items: seq<T>)

  datatype Artifact = NotADict | Artifact(id: string, sha256: string)

  datatype WorkerResult = WorkerResult(
    schema: string, id: string, baseRevision: string, patch: Option<string>,
    changed: Listing<string>, artifacts: Listing<Artifact>)

  const WORKER_RESULT_SCHEMA := "formalspecgen-worker-result-v1"

  predicate IsSha256(s: string) {
    |s| == 64 && forall i | 0 <= i < 64 :: IsDigit(s[i]) || 'a' <= s[i] <= 'f'
  }

  predicate Permitted(item: WorkItem, path: string) {
    PathAllowed(path, item.allowed) && !PathAllowed(path, item.guarded)
  }

  function CheckChanged(item: WorkItem, changed: seq<string>): Result<(), Code> {
    if |changed| == 0 then Ok(())
    else match Normalize(changed[0])
      case Err(InvalidPathScope) => Err(BadPathScope)
      case Err(ProtectedPathScope) => Err(ProtectedPath)
      case Ok(path) =>
        if Permitted(item, path) then CheckChanged(item, changed[1..]) else Err(WorkerScopeViolation)
  }

  predicate GoodArtifact(a: Artifact) {
    a.Artifact? && IsIdentifier(a.id) && IsSha256(a.sha256)
  }

  /** `_validate_result`: binding, patch digest, changed paths, artifacts, in that order. */
  function ValidateResult(item: WorkItem, result: Option<WorkerResult>): Result<Option<WorkerResult>, Code> {
    if result.None? then Ok(None)
    else
      var r := result.value;
      if r.schema != WORKER_RESULT_SCHEMA || r.id != item.id || r.baseRevision != item.baseRevision then
        Err(WorkerResultInvalid)
      else if r.patch.Some? && !IsSha256(r.patch.value) then Err(WorkerResultInvalid)
      else if r.changed.NotAList? then Err(WorkerResultInvalid)
      else match CheckChanged(item, r.changed.items)
        case Err(code) => Err(code)
        case Ok(_) =>
          if r.artifacts.NotAList? || exists i | 0 <= i < |r.artifacts.items| :: !GoodArtifact(r.artifacts.items[i])
          then Err(WorkerResultInvalid)
          else Ok(result)
  }

  lemma {:induction false} CheckChangedExact(item: WorkItem, changed: seq<string>)
    ensures CheckChanged(item, changed).Ok? <==>
            forall raw | raw in changed :: Normalize(raw).Ok? && Permitted(item, Normalize(raw).value)
  {
    if |changed| > 0 {
      assert changed == [changed[0]] + changed[1..];
      CheckChangedExact(item, changed[1..]);
    }
  }

  /** What a result must be to be accepted for an item. */
  predicate ResultFits(item: WorkItem, w: WorkerResult) {
    && w.schema == "formalspecgen-worker-result-v1" && w.id == item.id && w.baseRevision == item.baseRevision
    && (w.patch.Some? ==> IsSha256(w.patch.value))
    && w.changed.Listed?
    && (forall raw | raw in w.changed.items ::
          Normalize(raw).Ok? && PathAllowed(Normalize(raw).value, item.allowed)
          && !PathAllowed(Normalize(raw).value, item.guarded))
    && w.artifacts.Listed?
    && (forall a | a in w.artifacts.items :: a.Artifact? && IsIdentifier(a.id) && IsSha256(a.sha256))
  }

  /** Validation accepts a result exactly when it fits the item, and then passes it on unchanged. */
  lemma ValidateExact(item: WorkItem, result: Option<WorkerResult>)
    ensures ValidateResult(item, result).Ok? <==> result.None? || ResultFits(item, result.value)
    ensures ValidateResult(item, result).Ok? ==> ValidateResult(item, result).value == result
  {
    if result.Some? && result.value.changed.Listed? {
      CheckChangedExact(item, result.value.changed.items);
    }
    hide CheckChanged, Normalize, PathAllowed, IsIdentifier, IsSha256;
  }

  /** Whatever else it is, a path that normalises never leaves the tree or enters its protected parts. */
  lemma NormalPathIsSafe(raw: string)
    requires Normalize(raw).Ok?
    ensures !IsAbsolute(raw) && Parts(raw) != []
    ensures ".." !in Parts(raw) && ".git" !in Parts(raw) && ".formalspecgen" !in Parts(raw)
    ensures Parts(Normalize(raw).value) == Parts(raw)
  {
    PartsAreClean(raw);
    PartsOfJoin(Parts(raw));
    hide Wild;
  }

  // ---------------------------------------------------------------- records

  datatype Record = Record(
    item: WorkItem, request: string, principal: string, worker: string,
    authority: string, profile: string,
    state: State, dispatch: DispatchState,
    attempt: Option<Attempt>, owner: Option<string>, leaseUntil: Option<int>,
    recoveryOwner: Option<string>, recoveryUntil: Option<int>,
    remoteId: Option<string>, remoteState: Option<State>,
    cancelRequested: bool, cancelRequestedAt: Option<int>, cancelStatus: CancelStatus,
    result: Option<WorkerResult>, outcome: Option<Outcome>,
    consistent: bool, diagnostics: seq<Diagnostic>, diagnosticCount: nat,
    acceptance: Acceptance, createdAt: int, updatedAt: int)

  /** The record `submit` builds before anything is stored. */
  function NewRecord(item: WorkItem, request: string, principal: string, worker: string,
                     authority: string, profile: string, now: int): Record {
    Record(item, request, principal, worker, authority, profile,
           Queued, NotStarted, None, None, None, None, None, None, None,
           false, None, NotRequested, None, None, true, [], 0, PENDING_ACCEPTANCE, now, now)
  }

  /** Python truth of an optional text: present and not empty. */
  predicate Truthy(id: Option<string>) {
    id.Some? && id.value != ""
  }

  function AddDiagnostic(r: Record, code: Code, message: string, now: int): Record {
    var all := r.diagnostics + [Diagnostic(code, message, now)];
    r.(diagnostics := if |all| > KEPT_DIAGNOSTICS then all[|all| - KEPT_DIAGNOSTICS..] else all,
       diagnosticCount := r.diagnosticCount + 1)
  }

  /** What the protocol reads of a record, none of which a diagnostic changes. */
  ghost predicate SameProtocolState(a: Record, b: Record) {
    && a.item == b.item && a.state == b.state && a.dispatch == b.dispatch && a.attempt == b.attempt
    && a.owner == b.owner
    && a.leaseUntil == b.leaseUntil && a.recoveryUntil == b.recoveryUntil
    && a.remoteId == b.remoteId && a.cancelRequested == b.cancelRequested && a.acceptance == b.acceptance
  }

  lemma DiagnosticsAreQuiet(now: int)
    ensures forall r, code, message :: SameProtocolState(r, AddDiagnostic(r, code, message, now))
  {
  }

  // ---------------------------------------------------------------- locked updates

  /** `begin_dispatch` after authorisation: the new record and whether the dispatch was claimed. */
  function BeginDispatch(r: Record, serial: nat, owner: string, lease: nat, now: int): (Record, bool) {
    if Terminal(r.state) || r.dispatch != NotStarted then (r, false)
    else
      (r.(state := Dispatching, dispatch := InFlight, attempt := Some(Random(serial)),
          owner := Some(owner), leaseUntil := Some(now + lease),
          outcome := Some(SubmissionInFlight), updatedAt := now), true)
  }

  predicate OwnsDispatch(r: Record, attempt: Attempt, owner: string) {
    !Terminal(r.state) && r.dispatch == InFlight && r.attempt == Some(attempt) && r.owner == Some(owner)
  }

  /** `renew_dispatch_lease` after authorisation. */
  function RenewLease(r: Record, attempt: Attempt, owner: string, lease: nat, now: int): (Record, bool) {
    if OwnsDispatch(r, attempt, owner) then (r.(leaseUntil := Some(now + lease), updatedAt := now), true)
    else (r, false)
  }

  /** `claim_reconciliation` after authorisation; `observedAt` was read before the lock was taken. */
  function ClaimRecovery(r: Record, owner: string, lease: nat, observedAt: int): Result<(Record, bool), Code> {
    if Terminal(r.state) || Truthy(r.remoteId) then Ok((r, false))
    else match r.dispatch
      case InFlight =>
        if r.leaseUntil.None? then Err(TaskEvidenceInvalid)
        else if r.leaseUntil.value <= observedAt then Ok((Claimed(r, owner, lease, observedAt), true))
        else Ok((r, false))
      case Recovering =>
        if r.recoveryUntil.None? then Err(TaskEvidenceInvalid)
        else if r.recoveryUntil.value <= observedAt then Ok((Claimed(r, owner, lease, observedAt), true))
        else Ok((r, false))
      case Uncertain => Ok((Claimed(r, owner, lease, observedAt), true))
      case _ => Ok((r, false))
  }

  function Claimed(r: Record, owner: string, lease: nat, observedAt: int): Record {
    r.(attempt := if r.attempt.None? then Some(Derived(r.request)) else r.attempt,
       state := if r.cancelRequested then CancellationPending else DispatchUncertain,
       dispatch := Recovering, recoveryOwner := Some(owner), recoveryUntil := Some(observedAt + lease),
       outcome := Some(ReconcilingAttempt), updatedAt := observedAt)
  }

  datatype Rpc = RpcSubmit | RpcReconcile | RpcCancel

  datatype RemoteEvent =
    | Observation(remoteId: string, remoteState: State, result: Option<WorkerResult>, message: string)
    | ProtocolError(remoteId: string, remoteState: State, code: Code, message: string)
    | TransportError(rpc: Rpc, target: Option<string>, code: Code, message: string)

  function EventId(e: RemoteEvent): Option<string> {
    if e.TransportError? then e.target else Some(e.remoteId)
  }

  /** `transition_remote_event` after authorisation: the record returned, and whether it was appended. */
  function ApplyEvent(r: Record, attempt: Attempt, e: RemoteEvent, now: int): (Record, bool) {
    if r.attempt != Some(attempt) then
      (AddDiagnostic(r, StaleDispatchAttempt, "", now).(updatedAt := now), true)
    else if Truthy(EventId(e)) && Truthy(r.remoteId) && EventId(e) != r.remoteId then
      (AddDiagnostic(r, RemoteTaskIdConflict, "", now).(consistent := false, updatedAt := now), true)
    else if Terminal(r.state) then LateEvent(r, e, now)
    else
      (match e
        case ProtocolError(_, _, _, _) => AfterProtocolError(r, e, now)
        case TransportError(_, _, _, _) => AfterTransportError(r, e, now)
        case Observation(_, _, _, _) => AfterObservation(r, e, now),
       true)
  }

  function LateEvent(r: Record, e: RemoteEvent, now: int): (Record, bool) {
    match e
    case Observation(_, remoteState, result, _) =>
      if Some(remoteState) == r.remoteState && result == r.result then (r, false)
      else if Terminal(remoteState) then
        (AddDiagnostic(r, TerminalStateConflict, "", now).(consistent := false, updatedAt := now), true)
      else (AddDiagnostic(r, StaleRemoteObservation, "", now).(updatedAt := now), true)
    case ProtocolError(_, _, _, _) => (AddDiagnostic(r, LateProtocolError, "", now).(updatedAt := now), true)
    case TransportError(_, _, _, _) => (AddDiagnostic(r, LateTransportError, "", now).(updatedAt := now), true)
  }

  function AfterProtocolError(r: Record, e: RemoteEvent, now: int): Record
    requires e.ProtocolError?
  {
    var ended := Terminal(e.remoteState);
    AddDiagnostic(
      r.(state := if ended then Failed else DispatchUncertain, dispatch := Confirmed,
         remoteState := Some(e.remoteState), remoteId := Some(e.remoteId),
         outcome := Some(if ended then OutcomeFailed(e.code, e.message) else ObservationInvalid(e.code, e.message)),
         acceptance := PENDING_ACCEPTANCE),
      e.code, e.message, now).(updatedAt := now)
  }

  function AfterTransportError(r: Record, e: RemoteEvent, now: int): Record
    requires e.TransportError?
  {
    var changed :=
      if e.rpc == RpcCancel then
        r.(state := CancellationPending, cancelStatus := CancelUncertain,
           outcome := Some(CancellationUncertain(e.code, e.message)))
      else
        r.(state := if r.cancelRequested then CancellationPending else DispatchUncertain,
           dispatch := Uncertain,
           outcome := Some(if e.rpc == RpcReconcile then ReconciliationFailed(e.code, e.message)
                           else SubmissionUncertain(e.code, e.message)));
    AddDiagnostic(changed, e.code, e.message, now).(updatedAt := now)
  }

  function AfterObservation(r: Record, e: RemoteEvent, now: int): Record
    requires e.Observation?
  {
    var ended := Terminal(e.remoteState);
    r.(state := if r.cancelRequested && !ended then CancellationPending else e.remoteState,
       dispatch := Confirmed, remoteState := Some(e.remoteState), remoteId := Some(e.remoteId),
       result := e.result, outcome := Some(Observed(e.remoteState, e.message)),
       acceptance := PENDING_ACCEPTANCE,
       cancelStatus := if !r.cancelRequested then r.cancelStatus
                       else if ended then RemoteTerminal else CancelPending,
       updatedAt := now)
  }

  /** `request_cancellation` after authorisation. */
  function RequestCancel(r: Record, now: int): (Record, bool) {
    if Terminal(r.state) then (r, false)
    else
      var marked := r.(cancelRequested := true,
                       cancelRequestedAt := if r.cancelRequestedAt.None? then Some(now) else r.cancelRequestedAt,
                       updatedAt := now);
      (if r.dispatch == NotStarted then
         marked.(state := Cancelled, cancelStatus := ConfirmedLocal, outcome := Some(CancelledBeforeDispatch))
       else
         marked.(state := CancellationPending, cancelStatus := CancelPending,
                 outcome := Some(CancellationNotConfirmed)),
       true)
  }

  /** What an observation reports once its state and result have been checked against the item. */
  datatype RemoteReply = RemoteReply(remoteId: string, state: State, result: Option<WorkerResult>, message: string)

  function Classify(item: WorkItem, reply: RemoteReply): RemoteEvent {
    if !Supported(reply.state) then
      ProtocolError(reply.remoteId, reply.state, WorkerResultInvalid, "unknown worker task state")
    else match ValidateResult(item, reply.result)
      case Err(code) => ProtocolError(reply.remoteId, reply.state, code, "")
      case Ok(result) => Observation(reply.remoteId, reply.state, result, reply.message)
  }

  /** A reply the coordinator understands and whose result fits the item. */
  predicate ValidReply(item: WorkItem, reply: RemoteReply) {
    && (reply.state == Submitted || reply.state == Working || reply.state == InputRequired ||
        reply.state == AuthRequired
        || reply.state == Completed || reply.state == Failed || reply.state == Cancelled || reply.state == Rejected)
    && (reply.result.Some? ==> ResultFits(item, reply.result.value))
  }

  lemma ClassifyExact(item: WorkItem, reply: RemoteReply)
    ensures var e := Classify(item, reply);
            && !e.TransportError? && e.remoteId == reply.remoteId && e.remoteState == reply.state
            && (e.Observation? <==> ValidReply(item, reply))
            && (e.Observation? ==> e.result == reply.result && e.message == reply.message)
  {
    ValidateExact(item, reply.result);
    hide ValidateResult, ResultFits;
  }

  // ---------------------------------------------------------------- what no update undoes

  ghost predicate SameBinding(a: Record, b: Record) {
    && a.item == b.item && a.request == b.request && a.principal == b.principal && a.worker == b.worker
    && a.authority == b.authority && a.profile == b.profile && a.createdAt == b.createdAt
  }

  /** All but the diagnostics of a record. */
  function WithoutDiagnostics(r: Record): Record {
    r.(consistent := true, diagnostics := [], diagnosticCount := 0, updatedAt := 0)
  }

  /** `later` may follow `earlier` in the log of one task. */
  ghost predicate Advances(earlier: Record, later: Record) {
    && SameBinding(earlier, later)
    && (Terminal(earlier.state) ==> WithoutDiagnostics(later) == WithoutDiagnostics(earlier))
    && (earlier.attempt.Some? ==> later.attempt == earlier.attempt)
    && (later.dispatch == NotStarted ==> earlier.dispatch == NotStarted)
    && (later.dispatch == InFlight ==> earlier.dispatch == NotStarted || earlier.dispatch == InFlight)
    && (earlier.cancelRequested ==> later.cancelRequested)
    && (earlier.cancelRequestedAt.Some? ==> later.cancelRequestedAt == earlier.cancelRequestedAt)
    && (!earlier.consistent ==> !later.consistent)
    && earlier.diagnosticCount <= later.diagnosticCount
  }

  lemma AdvancesTransitive(a: Record, b: Record, c: Record)
    requires Advances(a, b) && Advances(b, c)
    ensures Advances(a, c)
  {
    assert Terminal(a.state) ==> b.state == a.state by {
      assert WithoutDiagnostics(a).state == a.state && WithoutDiagnostics(b).state == b.state;
    }
  }

  lemma UpdatesAdvance(r: Record, attempt: Attempt, e: RemoteEvent, serial: nat, owner: string, lease: nat, now: int)
    ensures Advances(r, BeginDispatch(r, serial, owner, lease, now).0) <==>
            (BeginDispatch(r, serial, owner, lease, now).1 ==> r.attempt.None? || r.attempt == Some(Random(serial)))
    ensures Advances(r, RenewLease(r, attempt, owner, lease, now).0)
    ensures ClaimRecovery(r, owner, lease, now).Ok? ==> Advances(r, ClaimRecovery(r, owner, lease, now).value.0)
    ensures Advances(r, RequestCancel(r, now).0)
  {
    BeginAdvances(r, serial, owner, lease, now);
    ClaimAdvances(r, owner, lease, now);
    hide BeginDispatch, ClaimRecovery;
  }

  lemma BeginAdvances(r: Record, serial: nat, owner: string, lease: nat, now: int)
    ensures Advances(r, BeginDispatch(r, serial, owner, lease, now).0) <==>
            (BeginDispatch(r, serial, owner, lease, now).1 ==> r.attempt.None? || r.attempt == Some(Random(serial)))
  {
  }

  lemma ClaimAdvances(r: Record, owner: string, lease: nat, now: int)
    ensures ClaimRecovery(r, owner, lease, now).Ok? ==> Advances(r, ClaimRecovery(r, owner, lease, now).value.0)
  {
  }

  /** Adding a diagnostic changes nothing else, and an event on a finished record does no more. */
  lemma DiagnosticOnly(r: Record, code: Code, message: string, consistent: bool, now: int)
    requires !r.consistent ==> !consistent
    ensures Advances(r, AddDiagnostic(r, code, message, now).(consistent := consistent, updatedAt := now))
    ensures DiagnosticsOk(r) ==> DiagnosticsOk(AddDiagnostic(r, code, message, now))
  {
  }

  lemma LateEventsAdvance(r: Record, e: RemoteEvent, now: int)
    ensures Advances(r, LateEvent(r, e, now).0)
    ensures DiagnosticsOk(r) ==> DiagnosticsOk(LateEvent(r, e, now).0)
  {
    forall code, consistent | !r.consistent ==> !consistent
      ensures Advances(r, AddDiagnostic(r, code, "", now).(consistent := consistent, updatedAt := now))
      ensures DiagnosticsOk(r) ==> DiagnosticsOk(AddDiagnostic(r, code, "", now))
    {
      DiagnosticOnly(r, code, "", consistent, now);
    }
  }

  lemma LiveEventsAdvance(r: Record, e: RemoteEvent, now: int)
    requires !Terminal(r.state)
    ensures e.ProtocolError? ==> Advances(r, AfterProtocolError(r, e, now))
    ensures e.TransportError? ==> Advances(r, AfterTransportError(r, e, now))
    ensures e.Observation? ==> Advances(r, AfterObservation(r, e, now))
  {
  }

  lemma EventsAdvance(r: Record, attempt: Attempt, e: RemoteEvent, now: int)
    ensures Advances(r, ApplyEvent(r, attempt, e, now).0)
  {
    if r.attempt != Some(attempt) {
      DiagnosticOnly(r, StaleDispatchAttempt, "", r.consistent, now);
    } else if Truthy(EventId(e)) && Truthy(r.remoteId) && EventId(e) != r.remoteId {
      DiagnosticOnly(r, RemoteTaskIdConflict, "", false, now);
    } else if Terminal(r.state) {
      LateEventsAdvance(r, e, now);
    } else {
      LiveEventsAdvance(r, e, now);
    }
  }

  /**
   A bound remote id survives an event exactly unless a well-attributed observation or protocol
   error with an empty id reaches a live record.
   */
  lemma RemoteIdKept(r: Record, attempt: Attempt, e: RemoteEvent, now: int)
    requires Truthy(r.remoteId)
    ensures ApplyEvent(r, attempt, e, now).0.remoteId == r.remoteId <==>
            !(r.attempt == Some(attempt) && !Terminal(r.state) && !e.TransportError? && e.remoteId == "")
  {
  }

  /** The event belongs to the record's attempt. */
  predicate Attributed(r: Record, attempt: Attempt) { r.attempt == Some(attempt) }

  /** The event names another worker task than the one the record is bound to. */
  predicate OtherTask(r: Record, e: RemoteEvent) {
    Truthy(r.remoteId) && Truthy(EventId(e)) && EventId(e) != r.remoteId
  }

  /** The outcome on record, observed once more. */
  predicate SameOutcome(r: Record, e: RemoteEvent) {
    e.Observation? && r.remoteState == Some(e.remoteState) && r.result == e.result
  }

  /**
   Exactly one kind of event leaves no trace: the repetition of a finished task's outcome. Every other one
   is appended with the time it was settled.
   */
  lemma EventLeavesTraceIff(r: Record, attempt: Attempt, e: RemoteEvent, now: int)
    ensures var (after, appended) := ApplyEvent(r, attempt, e, now);
            && (!appended <==> Attributed(r, attempt) && !OtherTask(r, e) && Terminal(r.state) && SameOutcome(r, e))
            && (appended ==> after.updatedAt == now)
            && (!appended ==> after == r)
  {
    hide AddDiagnostic;
  }

  /**
   The record is flagged inconsistent exactly by evidence that two worker tasks, or two outcomes, claim to be
   the same attempt.
   */
  lemma InconsistentIff(r: Record, attempt: Attempt, e: RemoteEvent, now: int)
    ensures ApplyEvent(r, attempt, e, now).0.consistent <==>
            r.consistent
            && !(Attributed(r, attempt) && OtherTask(r, e))
            && !(Attributed(r, attempt) && Terminal(r.state) && e.Observation? && Terminal(e.remoteState)
                 && !SameOutcome(r, e))
  {
  }

  /** The observation that finishes a task can be delivered again, at any later time, without any effect. */
  lemma RedeliveryIsSilent(r: Record, attempt: Attempt, e: RemoteEvent, now: int, later: int)
    requires Attributed(r, attempt) && !OtherTask(r, e) && !Terminal(r.state)
    requires e.Observation? && Terminal(e.remoteState)
    ensures var once := ApplyEvent(r, attempt, e, now).0;
            Terminal(once.state) && ApplyEvent(once, attempt, e, later) == (once, false)
  {
  }

  /** What the other updates leave alone. */
  ghost predicate SameFindings(a: Record, b: Record) {
    && a.remoteId == b.remoteId && a.remoteState == b.remoteState && a.result == b.result
    && a.consistent == b.consistent && a.diagnostics == b.diagnostics && a.diagnosticCount == b.diagnosticCount
    && a.acceptance == b.acceptance
  }

  /** Every other update stamps the record exactly when it is appended, and never touches what the worker reported. */
  lemma UpdatesStamp(r: Record, attempt: Attempt, serial: nat, owner: string, lease: nat, now: int)
    ensures var (after, appended) := BeginDispatch(r, serial, owner, lease, now);
            SameFindings(r, after) && if appended then after.updatedAt == now else after == r
    ensures var (after, appended) := RenewLease(r, attempt, owner, lease, now);
            SameFindings(r, after) && if appended then after.updatedAt == now else after == r
    ensures var (after, appended) := RequestCancel(r, now);
            SameFindings(r, after) && if appended then after.updatedAt == now else after == r
    ensures var claim := ClaimRecovery(r, owner, lease, now);
            claim.Ok? ==>
              var (after, appended) := claim.value;
              SameFindings(r, after) && if appended then after.updatedAt == now else after == r
  {
    ClaimStamps(r, owner, lease, now);
    hide ClaimRecovery;
  }

  lemma ClaimStamps(r: Record, owner: string, lease: nat, observedAt: int)
    ensures var claim := ClaimRecovery(r, owner, lease, observedAt);
            claim.Ok? ==>
              var (after, appended) := claim.value;
              SameFindings(r, after) && if appended then after.updatedAt == observedAt else after == r
  {
  }

  /** What an event may change of the protocol state of a live record. */
  ghost predicate EventChange(r: Record, after: Record, e: RemoteEvent) {
    && after.item == r.item && after.cancelRequested == r.cancelRequested && after.attempt == r.attempt
    && after.owner == r.owner
    && after.leaseUntil == r.leaseUntil && after.recoveryUntil == r.recoveryUntil
    && (after.acceptance == r.acceptance || after.acceptance == PENDING_ACCEPTANCE)
    && (after.dispatch == r.dispatch || after.dispatch == Confirmed ||
        (after.dispatch == Uncertain && e.TransportError? && e.rpc != RpcCancel))
    && (after.remoteId == r.remoteId || e.Observation? || e.ProtocolError?)
  }

  lemma LiveEventChange(r: Record, e: RemoteEvent, now: int)
    ensures e.ProtocolError? ==> EventChange(r, AfterProtocolError(r, e, now), e)
    ensures e.TransportError? ==> EventChange(r, AfterTransportError(r, e, now), e)
    ensures e.Observation? ==> EventChange(r, AfterObservation(r, e, now), e)
  {
    DiagnosticsAreQuiet(now);
    hide AddDiagnostic;
  }

  lemma LateEventQuiet(r: Record, e: RemoteEvent, now: int)
    ensures SameProtocolState(r, LateEvent(r, e, now).0)
  {
    DiagnosticsAreQuiet(now);
    hide AddDiagnostic;
  }

  /** A misattributed, conflicting or late event only adds a diagnostic; any other changes this much. */
  lemma EventShape(r: Record, attempt: Attempt, e: RemoteEvent, now: int)
    ensures var after := ApplyEvent(r, attempt, e, now).0;
            && EventChange(r, after, e)
            && (r.attempt != Some(attempt) || Terminal(r.state) ==> SameProtocolState(r, after))
  {
    DiagnosticsAreQuiet(now);
    LateEventQuiet(r, e, now);
    LiveEventChange(r, e, now);
    hide AddDiagnostic, LateEvent, AfterProtocolError, AfterTransportError, AfterObservation;
  }

  /** The diagnostics are the newest 64 and none is uncounted. */
  ghost predicate DiagnosticsOk(r: Record) {
    |r.diagnostics| == Min(r.diagnosticCount, KEPT_DIAGNOSTICS)
  }

  lemma AddedIsCounted(now: int)
    ensures forall r, code, message | DiagnosticsOk(r) :: DiagnosticsOk(AddDiagnostic(r, code, message, now))
  {
  }

  lemma DiagnosticsStayCounted(r: Record, attempt: Attempt, e: RemoteEvent, now: int)
    requires DiagnosticsOk(r)
    ensures DiagnosticsOk(ApplyEvent(r, attempt, e, now).0)
  {
    AddedIsCounted(now);
    hide AddDiagnostic, Min;
  }

  /** The record keeps the newest of all diagnostics it was ever given, oldest first, and counts them all. */
  ghost predicate KeepsNewest(r: Record, all: seq<Diagnostic>) {
    && r.diagnosticCount == |all|
    && r.diagnostics == if |all| > 64 then all[|all| - 64..] else all
  }

  lemma NewestAfterOne(r: Record, all: seq<Diagnostic>, code: Code, message: string, now: int)
    requires KeepsNewest(r, all)
    ensures KeepsNewest(AddDiagnostic(r, code, message, now), all + [Diagnostic(code, message, now)])
  {
    var more := all + [Diagnostic(code, message, now)];
    if |all| > KEPT_DIAGNOSTICS {
      assert (r.diagnostics + [Diagnostic(code, message, now)])[1..] == more[|more| - KEPT_DIAGNOSTICS..];
    }
  }

  /** The diagnostic an event leaves on a record, if any. */
  function DiagnosticOf(r: Record, attempt: Attempt, e: RemoteEvent): Option<(Code, string)> {
    if r.attempt != Some(attempt) then Some((StaleDispatchAttempt, ""))
    else if Truthy(EventId(e)) && Truthy(r.remoteId) && EventId(e) != r.remoteId then Some((RemoteTaskIdConflict, ""))
    else if Terminal(r.state) then
      match e
      case Observation(_, remoteState, result, _) =>
        if Some(remoteState) == r.remoteState && result == r.result then None
        else Some((if Terminal(remoteState) then TerminalStateConflict else StaleRemoteObservation, ""))
      case ProtocolError(_, _, _, _) => Some((LateProtocolError, ""))
      case TransportError(_, _, _, _) => Some((LateTransportError, ""))
    else
      match e
      case Observation(_, _, _, _) => None
      case ProtocolError(_, _, code, message) => Some((code, message))
      case TransportError(_, _, code, message) => Some((code, message))
  }

  ghost predicate SameDiagnostics(a: Record, b: Record) {
    a.diagnostics == b.diagnostics && a.diagnosticCount == b.diagnosticCount
  }

  lemma LiveEventDiagnostics(r: Record, e: RemoteEvent, now: int)
    ensures e.ProtocolError? ==>
        SameDiagnostics(AfterProtocolError(r, e, now), AddDiagnostic(r, e.code, e.message, now))
    ensures e.TransportError? ==>
        SameDiagnostics(AfterTransportError(r, e, now), AddDiagnostic(r, e.code, e.message, now))
    ensures e.Observation? ==> SameDiagnostics(AfterObservation(r, e, now), r)
  {
  }

  lemma EventDiagnostics(r: Record, attempt: Attempt, e: RemoteEvent, now: int)
    ensures SameDiagnostics(
              ApplyEvent(r, attempt, e, now).0,
              match DiagnosticOf(r, attempt, e)
              case None => r
              case Some((code, message)) => AddDiagnostic(r, code, message, now))
  {
    LiveEventDiagnostics(r, e, now);
    hide AddDiagnostic, AfterProtocolError, AfterTransportError, AfterObservation;
  }

  /** Any event adds at most its own diagnostic, as the newest, and the oldest one kept gives way. */
  lemma DiagnosticsAreNewest(r: Record, attempt: Attempt, e: RemoteEvent, now: int, all: seq<Diagnostic>)
    requires KeepsNewest(r, all)
    ensures KeepsNewest(
              ApplyEvent(r, attempt, e, now).0,
              match DiagnosticOf(r, attempt, e)
              case None => all
              case Some((code, message)) => all + [Diagnostic(code, message, now)])
  {
    EventDiagnostics(r, attempt, e, now);
    hide AddDiagnostic, ApplyEvent, DiagnosticOf;
    match DiagnosticOf(r, attempt, e)
    case None =>
    case Some((code, message)) => NewestAfterOne(r, all, code, message, now);
  }
}
