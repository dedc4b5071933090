/**
 The durable task store (`TaskStore` in pipeline/a2a_coordination.py): one directory of chained
 events per task, and the locked sections that read and append to it.

 Each method is one locked section. What it does to the directories is stated exactly, for intact and
 for damaged stores alike; for intact stores it is also stated on the latest records, which is the
 step the protocol model takes.
 */
module TaskStoreModel {
  import opened Common
  import opened Records
  import opened Budgets
  import opened EventLog
  import Coordinator

  type Directories = map<string, Directory>

  function Lookup(h: Hash, dirs: Directories, id: string): Result<Record, Code> {
    if !IsIdentifier(id) then Err(InvalidWorkItem)
    else if id !in dirs then Err(TaskNotFound)
    else EventLog.Load(h, dirs[id].events)
  }

  /** Load and authorise: another principal's task looks like a missing one. */
  function Authorized(h: Hash, dirs: Directories, id: string, principal: string): Result<Record, Code> {
    match Lookup(h, dirs, id)
    case Err(code) => Err(code)
    case Ok(r) => if r.principal == principal then Ok(r) else Err(TaskNotFound)
  }

  /** Append the record to its task's log, making the directory if need be. */
  function Store(h: Hash, dirs: Directories, r: Record, now: int): (Directories, Result<Record, Code>) {
    var d := if r.item.id in dirs then dirs[r.item.id] else EMPTY_DIRECTORY;
    var (after, outcome) := Append(h, d, r, now);
    (dirs[r.item.id := after], outcome)
  }

  function Commit(h: Hash, dirs: Directories, r: Record, append: bool, now: int): (Directories, Result<Record, Code>) {
    if append then Store(h, dirs, r, now) else (dirs, Ok(r))
  }

  // ---------------------------------------------------------------- the latest records

  predicate Loads(h: Hash, dirs: Directories, id: string)
    requires id in dirs
  {
    EventLog.Load(h, dirs[id].events).Ok?
  }

  /** Every task directory loads: none was altered, and none is empty. */
  predicate AllLoad(h: Hash, dirs: Directories) {
    forall id | id in dirs && IsIdentifier(id) :: Loads(h, dirs, id)
  }

  function View(h: Hash, dirs: Directories): Tasks {
    map id | id in dirs && IsIdentifier(id) && Loads(h, dirs, id) :: EventLog.Load(h, dirs[id].events).value
  }

  /** An intact store also has room for the next event of each task. */
  ghost predicate Intact(h: Hash, dirs: Directories) {
    forall id | id in dirs ::
      && IsIdentifier(id) && Loads(h, dirs, id) && EventLog.Load(h, dirs[id].events).value.item.id == id
      && |dirs[id].events| < MAX_EVENTS
  }

  /** On an intact store, loading and authorising is the protocol model's read. */
  lemma AuthorizedIsRead(h: Hash, dirs: Directories, id: string, principal: string)
    requires Intact(h, dirs) && IsIdentifier(id)
    ensures Authorized(h, dirs, id, principal) == Coordinator.Read(View(h, dirs), id, principal)
  {
  }

  /** Appending to an intact store adds one event to one log, and that event is what loads. */
  lemma StoreAppends(h: Hash, dirs: Directories, r: Record, now: int)
    requires Intact(h, dirs) && IsIdentifier(r.item.id)
    ensures var (after, outcome) := Store(h, dirs, r, now);
            var d := if r.item.id in dirs then dirs[r.item.id] else EMPTY_DIRECTORY;
            && outcome == Ok(r) && r.item.id in after && after == dirs[r.item.id := after[r.item.id]]
            && d.events <= after[r.item.id].events && |after[r.item.id].events| == |d.events| + 1
            && EventLog.Load(h, after[r.item.id].events) == Ok(r)
  {
    var d := if r.item.id in dirs then dirs[r.item.id] else EMPTY_DIRECTORY;
    assert r.item.id in dirs ==> Loads(h, dirs, r.item.id);
    AppendThenLoad(h, d, r, now);
  }

  lemma ViewOfUpdate(h: Hash, dirs: Directories, id: string, d: Directory, r: Record)
    requires IsIdentifier(id) && EventLog.Load(h, d.events) == Ok(r)
    ensures View(h, dirs[id := d]) == View(h, dirs)[id := r]
  {
    hide EventLog.Load, IsIdentifier;
    forall other | other in dirs && other != id
      ensures Loads(h, dirs[id := d], other) == Loads(h, dirs, other)
    {
    }
  }

  /** On an intact store, a commit replaces one latest record, reports it, and keeps every earlier event. */
  lemma CommitIsUpdate(h: Hash, dirs: Directories, r: Record, append: bool, now: int)
    requires Intact(h, dirs) && IsIdentifier(r.item.id)
    requires append || (r.item.id in dirs && View(h, dirs)[r.item.id] == r)
    ensures var (after, outcome) := Commit(h, dirs, r, append, now);
            && outcome == Ok(r)
            && View(h, after) == View(h, dirs)[r.item.id := r]
            && forall id | id in dirs :: id in after && dirs[id].events <= after[id].events
  {
    if append {
      StoreAppends(h, dirs, r, now);
      hide Store, View;
      ViewOfUpdate(h, dirs, r.item.id, Store(h, dirs, r, now).0[r.item.id], r);
    } else {
      assert View(h, dirs)[r.item.id := r] == View(h, dirs);
    }
  }

  /** The task's log can take one more event and still leave room for another. */
  predicate HasRoom(dirs: Directories, id: string) {
    id in dirs ==> |dirs[id].events| + 1 < MAX_EVENTS
  }

  lemma CommitKeepsIntact(h: Hash, dirs: Directories, r: Record, append: bool, now: int)
    requires Intact(h, dirs) && IsIdentifier(r.item.id) && HasRoom(dirs, r.item.id)
    ensures Intact(h, Commit(h, dirs, r, append, now).0)
  {
    if append {
      StoreAppends(h, dirs, r, now);
      hide Store, EventLog.Load, IsIdentifier;
      var after := Store(h, dirs, r, now).0;
      forall id | id in after
        ensures IsIdentifier(id) && Loads(h, after, id) && EventLog.Load(h, after[id].events).value.item.id == id
                && |after[id].events| < MAX_EVENTS
      {
        if id != r.item.id { assert after[id] == dirs[id] && Loads(h, dirs, id); }
      }
    }
  }

  // ---------------------------------------------------------------- sequences of calls

  /** One locked call of the store. */
  datatype Call =
    | CallBegin(id: string, principal: string, serial: nat, owner: string, lease: nat, now: int)
    | CallRenew(id: string, principal: string, attempt: Attempt, owner: string, lease: nat, now: int)
    | CallClaim(id: string, principal: string, owner: string, lease: nat, observedAt: int, now: int)
    | CallEvent(id: string, principal: string, attempt: Attempt, event: RemoteEvent, now: int)
    | CallCancel(id: string, principal: string, now: int)
    | CallCreate(record: Record, ceiling: map<string, int>, now: int)

  /** The update a call makes to the record it loads, and whether it appends. */
  function Update(call: Call, r: Record): (Record, bool)
    requires !call.CallCreate?
  {
    match call
    case CallBegin(_, _, serial, owner, lease, now) => Records.BeginDispatch(r, serial, owner, lease, now)
    case CallRenew(_, _, attempt, owner, lease, now) => RenewLease(r, attempt, owner, lease, now)
    case CallClaim(_, _, owner, lease, observedAt, _) =>
      var claim := ClaimRecovery(r, owner, lease, observedAt);
      if claim.Ok? then claim.value else (r, false)
    case CallEvent(_, _, attempt, e, now) => ApplyEvent(r, attempt, e, now)
    case CallCancel(_, _, now) => RequestCancel(r, now)
  }

  /** The directories after a call, on any store. */
  ghost function After(h: Hash, dirs: Directories, call: Call): Directories {
    if call.CallCreate? then CreateEffect(h, dirs, call.record, call.ceiling, call.now).0
    else match Authorized(h, dirs, call.id, call.principal)
      case Err(_) => dirs
      case Ok(r) => Commit(h, dirs, Update(call, r).0, Update(call, r).1, call.now).0
  }

  /** The latest records after the same call, as the protocol has it. */
  ghost function TableAfter(tasks: Tasks, call: Call): Tasks {
    if call.CallCreate? then
      (if call.record.item.id !in tasks && CheckCreate(tasks, call.record, call.ceiling).Ok?
       then tasks[call.record.item.id := call.record] else tasks)
    else match Coordinator.Read(tasks, call.id, call.principal)
      case Err(_) => tasks
      case Ok(r) => tasks[call.id := Update(call, r).0]
  }

  function Subject(call: Call): string { if call.CallCreate? then call.record.item.id else call.id }

  lemma UpdateKeepsItem(call: Call, r: Record)
    requires !call.CallCreate?
    ensures Update(call, r).0.item == r.item && (!Update(call, r).1 ==> Update(call, r).0 == r)
  {
    if call.CallEvent? { UnappendedEvent(r, call.attempt, call.event, call.now); }
    hide ApplyEvent;
  }

  lemma NothingLoads(h: Hash)
    ensures EventLog.Load(h, EMPTY_DIRECTORY.events) == Err(TaskNotFound)
  {
  }

  lemma CreateRefines(h: Hash, dirs: Directories, r: Record, ceiling: map<string, int>, now: int)
    requires Intact(h, dirs) && IsIdentifier(r.item.id) && HasRoom(dirs, r.item.id)
    ensures var after := CreateEffect(h, dirs, r, ceiling, now).0;
            Intact(h, after) && View(h, after) == TableAfter(View(h, dirs), CallCreate(r, ceiling, now))
  {
    hide CheckCreate, Store, LoadFailure, EventLog.Load, IsIdentifier;
    if r.item.id in dirs {
      assert Loads(h, dirs, r.item.id);
    } else {
      assert EventLog.Load(h, EMPTY_DIRECTORY.events) == Err(TaskNotFound) by { NothingLoads(h); }
      assert AllLoad(h, dirs);
      CommitKeepsIntact(h, dirs, r, true, now);
      CommitIsUpdate(h, dirs, r, true, now);
    }
  }

  lemma CallRefines(h: Hash, dirs: Directories, call: Call)
    requires Intact(h, dirs) && IsIdentifier(Subject(call)) && HasRoom(dirs, Subject(call))
    ensures Intact(h, After(h, dirs, call)) && View(h, After(h, dirs, call)) == TableAfter(View(h, dirs), call)
  {
    if call.CallCreate? {
      CreateRefines(h, dirs, call.record, call.ceiling, call.now);
    } else {
      hide Update, Commit, View, Coordinator.Read, Authorized;
      AuthorizedIsRead(h, dirs, call.id, call.principal);
      var loaded := Authorized(h, dirs, call.id, call.principal);
      if loaded.Ok? {
        StoredUnderId(h, dirs, call.id, call.principal);
        UpdateKeepsItem(call, loaded.value);
        CommitKeepsIntact(h, dirs, Update(call, loaded.value).0, Update(call, loaded.value).1, call.now);
        CommitIsUpdate(h, dirs, Update(call, loaded.value).0, Update(call, loaded.value).1, call.now);
      }
    }
  }

  lemma StoredUnderId(h: Hash, dirs: Directories, id: string, principal: string)
    requires Intact(h, dirs) && IsIdentifier(id) && Authorized(h, dirs, id, principal).Ok?
    ensures var r := Authorized(h, dirs, id, principal).value;
            r.item.id == id && id in dirs && id in View(h, dirs) && View(h, dirs)[id] == r
  {
  }

  ghost function AfterAll(h: Hash, dirs: Directories, calls: seq<Call>): Directories
    decreases |calls|
  {
    if calls == [] then dirs else After(h, AfterAll(h, dirs, calls[..|calls| - 1]), calls[|calls| - 1])
  }

  ghost function TableAfterAll(tasks: Tasks, calls: seq<Call>): Tasks
    decreases |calls|
  {
    if calls == [] then tasks else TableAfter(TableAfterAll(tasks, calls[..|calls| - 1]), calls[|calls| - 1])
  }

  /** The calls name tasks properly, and no task's log fills up on the way. */
  ghost predicate RoomThroughout(h: Hash, dirs: Directories, calls: seq<Call>) {
    forall k | 0 <= k < |calls| ::
      IsIdentifier(Subject(calls[k])) && HasRoom(AfterAll(h, dirs, calls[..k]), Subject(calls[k]))
  }

  /**
   The store refines the protocol's table of records: for every sequence of calls, in whatever order the
   lock admits them, the latest records in the chained logs are what the protocol computes, and the logs
   stay intact.
   */
  lemma {:induction false} LogsRefineTable(h: Hash, dirs: Directories, calls: seq<Call>)
    requires Intact(h, dirs) && RoomThroughout(h, dirs, calls)
    ensures Intact(h, AfterAll(h, dirs, calls))
    ensures View(h, AfterAll(h, dirs, calls)) == TableAfterAll(View(h, dirs), calls)
    decreases |calls|
  {
    hide Intact, View, After, TableAfter, HasRoom;
    if calls != [] {
      var n := |calls| - 1;
      assert RoomThroughout(h, dirs, calls[..n]) by {
        forall k | 0 <= k < n
          ensures IsIdentifier(Subject(calls[..n][k]))
          ensures HasRoom(AfterAll(h, dirs, calls[..n][..k]), Subject(calls[..n][k]))
        {
          assert calls[..n][..k] == calls[..k] && calls[..n][k] == calls[k];
        }
      }
      LogsRefineTable(h, dirs, calls[..n]);
      CallRefines(h, AfterAll(h, dirs, calls[..n]), calls[n]);
    }
  }

  /** The locked steps of the protocol are exactly these calls on its table. */
  lemma StepsAreCalls(s: Coordinator.Sys, c: nat)
    requires c in s.calls
    requires forall id | id in s.tasks :: s.tasks[id].item.id == id
    ensures var call := s.calls[c];
            var after := Coordinator.StepAdvance(s, c).tasks;
            match call.pc
            case SubmitCreate(r, ceiling) => after == TableAfter(s.tasks, CallCreate(r, ceiling, s.clock))
            case SubmitBegin(item, principal) =>
              after == TableAfter(s.tasks, CallBegin(item.id, principal, s.serial, call.owner, call.lease, s.clock))
            case GetClaim(id, principal, observedAt) =>
              after == TableAfter(s.tasks, CallClaim(id, principal, call.owner, call.lease, observedAt, s.clock))
            case Settle(id, principal, attempt, e, _, _) =>
              after == TableAfter(s.tasks, CallEvent(id, principal, attempt, e, s.clock))
            case CancelRead(id, principal) => after == TableAfter(s.tasks, CallCancel(id, principal, s.clock))
            case _ => after == s.tasks
  {
    hide ApplyEvent, RequestCancel, CheckCreate, Coordinator.ForwardCancel;
    SameTable(s.tasks);
  }

  lemma SameTable(tasks: Tasks)
    ensures forall id | id in tasks :: tasks[id := tasks[id]] == tasks
  {
  }

  // ---------------------------------------------------------------- creation

  /** What `create` does, on any store. */
  ghost function CreateEffect(h: Hash, dirs: Directories, r: Record, ceiling: map<string, int>, now: int)
    : (Directories, Result<(Record, bool), Code>)
  {
    match Lookup(h, dirs, r.item.id)
    case Ok(existing) =>
      (dirs, if existing.request == r.request then Ok((existing, false)) else Err(IdempotencyConflict))
    case Err(TaskNotFound) =>
      if !AllLoad(h, dirs) then (dirs, Err(LoadFailure(h, dirs)))
      else
        (match CheckCreate(View(h, dirs), r, ceiling)
         case Err(code) => (dirs, Err(code))
         case Ok(_) =>
           var (after, outcome) := Store(h, dirs, r, now);
           (after, match outcome case Ok(stored) => Ok((stored, true)) case Err(code) => Err(code)))
    case Err(code) => (dirs, Err(code))
  }

  /** The listing order of directory names: by code points. */
  predicate Earlier(a: string, b: string) {
    a == "" || (b != "" && (a[0] < b[0] || (a[0] == b[0] && Earlier(a[1..], b[1..]))))
  }

  lemma {:induction false} EarlierIsTotal(a: string, b: string)
    ensures Earlier(a, b) || Earlier(b, a)
    ensures Earlier(a, b) && Earlier(b, a) ==> a == b
  {
    if a != "" && b != "" && a[0] == b[0] {
      EarlierIsTotal(a[1..], b[1..]);
      assert a == [a[0]] + a[1..] && b == [b[0]] + b[1..];
    }
  }

  lemma {:induction false} EarlierTransitive(a: string, b: string, c: string)
    requires Earlier(a, b) && Earlier(b, c)
    ensures Earlier(a, c)
  {
    if a != "" && a[0] == b[0] && b[0] == c[0] { EarlierTransitive(a[1..], b[1..], c[1..]); }
  }

  ghost predicate First(ids: set<string>, id: string) {
    id in ids && forall other | other in ids :: Earlier(id, other)
  }

  lemma {:induction false} FirstExists(ids: set<string>) returns (id: string)
    requires ids != {}
    ensures First(ids, id)
    decreases |ids|
  {
    var some :| some in ids;
    var rest := ids - {some};
    EarlierIsTotal(some, some);
    if rest == {} {
      assert ids == {some};
      return some;
    }
    var least := FirstExists(rest);
    EarlierIsTotal(some, least);
    id := if Earlier(some, least) then some else least;
    forall other | other in ids ensures Earlier(id, other) {
      if other != some && id == some { EarlierTransitive(some, least, other); }
    }
  }

  function Unreadable(h: Hash, dirs: Directories): set<string> {
    set id | id in dirs && IsIdentifier(id) && !Loads(h, dirs, id)
  }

  lemma SomeIsFirst(h: Hash, dirs: Directories)
    requires !AllLoad(h, dirs)
    ensures exists id :: First(Unreadable(h, dirs), id)
  {
    var bad :| bad in dirs && IsIdentifier(bad) && !Loads(h, dirs, bad);
    assert bad in Unreadable(h, dirs);
    var first := FirstExists(Unreadable(h, dirs));
  }

  /** The load error of the first unreadable directory in listing order. */
  ghost function LoadFailure(h: Hash, dirs: Directories): Code
    requires !AllLoad(h, dirs)
  {
    SomeIsFirst(h, dirs);
    var first :| First(Unreadable(h, dirs), first);
    EventLog.Load(h, dirs[first].events).error
  }

  lemma FailureIsFirst(h: Hash, dirs: Directories, id: string)
    requires First(Unreadable(h, dirs), id)
    ensures !AllLoad(h, dirs) && LoadFailure(h, dirs) == EventLog.Load(h, dirs[id].events).error
  {
    forall other | First(Unreadable(h, dirs), other) ensures other == id { EarlierIsTotal(id, other); }
  }

  /** A new task is created exactly when no stored directory is unreadable and admission succeeds. */
  lemma CreatedExactlyWhen(h: Hash, dirs: Directories, r: Record, ceiling: map<string, int>, now: int)
    requires IsIdentifier(r.item.id) && r.item.id !in dirs
    ensures CreateEffect(h, dirs, r, ceiling, now).1 == Ok((r, true)) <==>
            AllLoad(h, dirs) && CheckCreate(View(h, dirs), r, ceiling).Ok?
  {
    assert EMPTY_DIRECTORY.events == [];
  }

  /** On an intact store, what `create` answers decides where the submission goes next, as the protocol has it. */
  lemma CreateAnswersAgree(h: Hash, dirs: Directories, s: Coordinator.Sys, c: nat, now: int)
    requires Intact(h, dirs) && s.tasks == View(h, dirs) && c in s.calls && s.calls[c].pc.SubmitCreate?
    requires IsIdentifier(s.calls[c].pc.record.item.id)
    ensures var pc := s.calls[c].pc;
            c in Coordinator.StepAdvance(s, c).calls
            && (match CreateEffect(h, dirs, pc.record, pc.ceiling, now).1
                case Ok((stored, true)) =>
                  stored == pc.record
                  && Coordinator.StepAdvance(s, c).calls[c].pc
                     == Coordinator.SubmitBegin(pc.record.item, pc.record.principal)
                case Ok((stored, false)) =>
                  Coordinator.StepAdvance(s, c).calls[c].pc == Coordinator.Finished(Ok(stored))
                case Err(code) => Coordinator.StepAdvance(s, c).calls[c].pc == Coordinator.Finished(Err(code)))
  {
    var r := s.calls[c].pc.record;
    assert AllLoad(h, dirs);
    if r.item.id in dirs {
      assert Loads(h, dirs, r.item.id);
    } else {
      NothingLoads(h);
      StoreAppends(h, dirs, r, now);
    }
    hide CheckCreate, Store, LoadFailure, EventLog.Load, IsIdentifier;
  }

  /**
   A crash between making a task's directory and linking its first event leaves an empty directory.
   From then on no task can be created at all, not even the interrupted one.
   */
  lemma EmptyDirectoryBlocksCreation(h: Hash, dirs: Directories, lost: string, r: Record, ceiling: map<string, int>,
          now: int)
    requires Intact(h, dirs) && IsIdentifier(lost) && lost !in dirs
    requires IsIdentifier(r.item.id) && r.item.id !in dirs
    ensures CreateEffect(h, dirs[lost := EMPTY_DIRECTORY], r, ceiling, now)
            == (dirs[lost := EMPTY_DIRECTORY], Err(TaskNotFound))
  {
    var after := dirs[lost := EMPTY_DIRECTORY];
    assert !Loads(h, after, lost);
    forall id | id in after && id != lost ensures Loads(h, after, id) {
      assert Loads(h, dirs, id);
    }
  }

  // ---------------------------------------------------------------- the store

  class TaskStore {
    var directories: Directories
    const digest: Hash

    constructor (digest: Hash)
      ensures directories == map[] && this.digest == digest
    {
      this.directories := map[];
      this.digest := digest;
    }

    method LoadUnlocked(id: string) returns (r: Result<Record, Code>)
      ensures r == Lookup(digest, directories, id)
    {
      if !IsIdentifier(id) {
        return Err(InvalidWorkItem);
      }
      if id !in directories || |directories[id].events| == 0 {
        return Err(TaskNotFound);
      }
      var events := directories[id].events;
      var previous: Option<string> := None;
      var latest: Option<Record> := None;
      for i := 0 to |events|
        invariant forall k | 0 <= k < i :: LinkedAt(digest, events, k)
        invariant previous == PreviousSha(events, i)
        invariant i > 0 ==> latest == events[i - 1].body.record
      {
        var e := events[i];
        if e.body.schema != AUDIT_SCHEMA || e.body.sequence != i + 1 || e.body.previous != previous {
          assert !LinkedAt(digest, events, i);
          return Err(TaskEvidenceInvalid);
        }
        if e.sha != Some(digest(e.body)) {
          assert !LinkedAt(digest, events, i);
          return Err(TaskEvidenceInvalid);
        }
        previous := e.sha;
        latest := e.body.record;
      }
      if latest.None? {
        return Err(TaskEvidenceInvalid);
      }
      return Ok(latest.value);
    }

    method AppendUnlocked(r: Record, now: int) returns (outcome: Result<Record, Code>)
      modifies this
      ensures (directories, outcome) == Store(digest, old(directories), r, now)
    {
      var id := r.item.id;
      if id !in directories {
        directories := directories[id := EMPTY_DIRECTORY];
      }
      var (after, result) := Append(digest, directories[id], r, now);
      assert directories[id := after] == old(directories)[id := after];
      directories := directories[id := after];
      outcome := result;
    }

    /** Load and authorise, as every section below starts. */
    method Enter(id: string, principal: string) returns (r: Result<Record, Code>)
      ensures r == Authorized(digest, directories, id, principal)
    {
      r := LoadUnlocked(id);
      if r.Ok? && r.value.principal != principal {
        r := Err(TaskNotFound);
      }
    }

    method BeginDispatch(id: string, principal: string, serial: nat, owner: string, lease: nat, now: int)
      returns (result: Result<(Record, bool), Code>)
      modifies this
      ensures directories == After(digest, old(directories), CallBegin(id, principal, serial, owner, lease, now))
      ensures match Authorized(digest, old(directories), id, principal)
              case Err(code) => directories == old(directories) && result == Err(code)
              case Ok(r) =>
                var (updated, claimed) := Records.BeginDispatch(r, serial, owner, lease, now);
                var (after, outcome) := Commit(digest, old(directories), updated, claimed, now);
                directories == after && (outcome.Ok? ==> result == Ok((updated, claimed))) &&
                    (outcome.Err? ==> result == Err(outcome.error))
      ensures Intact(digest, old(directories)) && IsIdentifier(id) ==>
                match Coordinator.Read(View(digest, old(directories)), id, principal)
                case Err(_) => directories == old(directories)
                case Ok(r) =>
                  View(digest, directories)
                  == View(digest, old(directories))[id := Records.BeginDispatch(r, serial, owner, lease, now).0]
    {
      ghost var before := directories;
      var loaded := Enter(id, principal);
      if loaded.Err? {
        CorrectRead(digest, before, id, principal);
        return Err(loaded.error);
      }
      var (updated, claimed) := Records.BeginDispatch(loaded.value, serial, owner, lease, now);
      CorrectCommit(digest, before, id, principal, updated, claimed, now);
      if !claimed {
        return Ok((updated, false));
      }
      var outcome := AppendUnlocked(updated, now);
      result := match outcome case Ok(stored) => Ok((stored, true)) case Err(code) => Err(code);
    }

    method RenewDispatchLease(id: string, principal: string, attempt: Attempt, owner: string, lease: nat, now: int)
      returns (result: Result<bool, Code>)
      modifies this
      ensures directories == After(digest, old(directories), CallRenew(id, principal, attempt, owner, lease, now))
      ensures match Authorized(digest, old(directories), id, principal)
              case Err(code) => directories == old(directories) && result == Err(code)
              case Ok(r) =>
                var (updated, renewed) := RenewLease(r, attempt, owner, lease, now);
                var (after, outcome) := Commit(digest, old(directories), updated, renewed, now);
                directories == after && (outcome.Ok? ==> result == Ok(renewed)) &&
                    (outcome.Err? ==> result == Err(outcome.error))
      ensures Intact(digest, old(directories)) && IsIdentifier(id) ==>
                match Coordinator.Read(View(digest, old(directories)), id, principal)
                case Err(_) => directories == old(directories)
                case Ok(r) =>
                  View(digest, directories)
                  == View(digest, old(directories))[id := RenewLease(r, attempt, owner, lease, now).0]
    {
      ghost var before := directories;
      var loaded := Enter(id, principal);
      if loaded.Err? {
        CorrectRead(digest, before, id, principal);
        return Err(loaded.error);
      }
      var (updated, renewed) := RenewLease(loaded.value, attempt, owner, lease, now);
      CorrectCommit(digest, before, id, principal, updated, renewed, now);
      if renewed {
        var outcome := AppendUnlocked(updated, now);
        if outcome.Err? {
          return Err(outcome.error);
        }
      }
      return Ok(renewed);
    }

    method ClaimReconciliation(id: string, principal: string, owner: string, lease: nat, observedAt: int, now: int)
      returns (result: Result<(Record, bool), Code>)
      modifies this
      ensures directories == After(digest, old(directories), CallClaim(id, principal, owner, lease, observedAt, now))
      ensures match Authorized(digest, old(directories), id, principal)
              case Err(code) => directories == old(directories) && result == Err(code)
              case Ok(r) =>
                match ClaimRecovery(r, owner, lease, observedAt)
                case Err(code) => directories == old(directories) && result == Err(code)
                case Ok((updated, claimed)) =>
                  var (after, outcome) := Commit(digest, old(directories), updated, claimed, now);
                  directories == after && (outcome.Ok? ==> result == Ok((updated, claimed))) &&
                      (outcome.Err? ==> result == Err(outcome.error))
      ensures Intact(digest, old(directories)) && IsIdentifier(id) ==>
                match Coordinator.Read(View(digest, old(directories)), id, principal)
                case Err(_) => directories == old(directories)
                case Ok(r) =>
                  var claim := ClaimRecovery(r, owner, lease, observedAt);
                  if claim.Err? then directories == old(directories)
                  else View(digest, directories) == View(digest, old(directories))[id := claim.value.0]
    {
      ghost var before := directories;
      var loaded := Enter(id, principal);
      if loaded.Err? {
        CorrectRead(digest, before, id, principal);
        return Err(loaded.error);
      }
      var claim := ClaimRecovery(loaded.value, owner, lease, observedAt);
      if claim.Err? {
        CorrectRead(digest, before, id, principal);
        return Err(claim.error);
      }
      var (updated, claimed) := claim.value;
      CorrectCommit(digest, before, id, principal, updated, claimed, now);
      if !claimed {
        return Ok((updated, false));
      }
      var outcome := AppendUnlocked(updated, now);
      result := match outcome case Ok(stored) => Ok((stored, true)) case Err(code) => Err(code);
    }

    method TransitionRemoteEvent(id: string, principal: string, attempt: Attempt, e: RemoteEvent, now: int)
      returns (result: Result<Record, Code>)
      modifies this
      ensures directories == After(digest, old(directories), CallEvent(id, principal, attempt, e, now))
      ensures match Authorized(digest, old(directories), id, principal)
              case Err(code) => directories == old(directories) && result == Err(code)
              case Ok(r) =>
                var (updated, append) := ApplyEvent(r, attempt, e, now);
                (directories, result) == Commit(digest, old(directories), updated, append, now)
      ensures Intact(digest, old(directories)) && IsIdentifier(id) ==>
                match Coordinator.Read(View(digest, old(directories)), id, principal)
                case Err(_) => directories == old(directories)
                case Ok(r) =>
                  View(digest, directories) == View(digest, old(directories))[id := ApplyEvent(r, attempt, e, now).0]
    {
      ghost var before := directories;
      var loaded := Enter(id, principal);
      if loaded.Err? {
        CorrectRead(digest, before, id, principal);
        return Err(loaded.error);
      }
      EventsAdvance(loaded.value, attempt, e, now);
      var (updated, append) := ApplyEvent(loaded.value, attempt, e, now);
      UnappendedEvent(loaded.value, attempt, e, now);
      CorrectCommit(digest, before, id, principal, updated, append, now);
      if append {
        result := AppendUnlocked(updated, now);
      } else {
        result := Ok(updated);
      }
    }

    method RequestCancellation(id: string, principal: string, now: int) returns (result: Result<Record, Code>)
      modifies this
      ensures directories == After(digest, old(directories), CallCancel(id, principal, now))
      ensures match Authorized(digest, old(directories), id, principal)
              case Err(code) => directories == old(directories) && result == Err(code)
              case Ok(r) =>
                var (updated, append) := RequestCancel(r, now);
                (directories, result) == Commit(digest, old(directories), updated, append, now)
      ensures Intact(digest, old(directories)) && IsIdentifier(id) ==>
                match Coordinator.Read(View(digest, old(directories)), id, principal)
                case Err(_) => directories == old(directories)
                case Ok(r) => View(digest, directories) == View(digest, old(directories))[id := RequestCancel(r, now).0]
    {
      ghost var before := directories;
      var loaded := Enter(id, principal);
      if loaded.Err? {
        CorrectRead(digest, before, id, principal);
        return Err(loaded.error);
      }
      var (updated, append) := RequestCancel(loaded.value, now);
      CorrectCommit(digest, before, id, principal, updated, append, now);
      if append {
        result := AppendUnlocked(updated, now);
      } else {
        result := Ok(updated);
      }
    }

    /** Latest records of some task directories. */
    ghost function Collected(ids: set<string>): Tasks
      requires ids <= directories.Keys
      reads this
    {
      map id | id in ids && IsIdentifier(id) && Loads(digest, directories, id)
        :: EventLog.Load(digest, directories[id].events).value
    }

    /** Latest records of all task directories, or the error of one that does not load. */
    method AllLatestUnlocked() returns (r: Result<Tasks, Code>)
      ensures r.Ok? <==> AllLoad(digest, directories)
      ensures r.Ok? ==> r.value == View(digest, directories)
      ensures r.Err? ==> r.error == LoadFailure(digest, directories)
    {
      var rest := directories.Keys;
      var records: Tasks := map[];
      while rest != {}
        invariant rest <= directories.Keys
        invariant forall id | id in directories.Keys - rest && IsIdentifier(id) :: Loads(digest, directories, id)
        invariant records == Collected(directories.Keys - rest)
        decreases rest
      {
        var least := FirstExists(rest);
        var id :| id in rest && forall other | other in rest :: Earlier(id, other);
        rest := rest - {id};
        if IsIdentifier(id) {
          var loaded := LoadUnlocked(id);
          if loaded.Err? {
            assert First(Unreadable(digest, directories), id);
            FailureIsFirst(digest, directories, id);
            return Err(loaded.error);
          }
          records := records[id := loaded.value];
        }
      }
      return Ok(records);
    }

    /** Sum the shares of a group, one record at a time. */
    method GroupTotal(current: Tasks, group: Group, key: string) returns (total: nat)
      ensures total == Budgets.Load(current, group, key)
    {
      total := 0;
      var rest := current.Keys;
      ghost var shares := Shares(current, group, key);
      assert shares - (current.Keys - rest) == shares;
      while rest != {}
        invariant rest <= current.Keys
        invariant total + Sum(shares - (current.Keys - rest)) == Sum(shares)
        decreases rest
      {
        var id :| id in rest;
        ghost var open := shares - (current.Keys - rest);
        SumRemove(open, id);
        rest := rest - {id};
        assert open - {id} == shares - (current.Keys - rest);
        total := total + Share(group, current[id], key);
      }
      assert shares - (current.Keys - rest) == map[];
    }

    /** Whether a budget and a group's load together exceed a ceiling for some listed key. */
    method ExceedsCeiling(current: Tasks, group: Group, item: WorkItem, ceiling: map<string, int>) returns (over: bool)
      ensures over == Exceeds(current, group, item, ceiling)
    {
      var rest := ceiling.Keys;
      while rest != {}
        invariant rest <= ceiling.Keys
        invariant forall key | key in ceiling.Keys - rest ::
                    Budget(item, key) + Budgets.Load(current, group, key) <= ceiling[key]
        decreases rest
      {
        var key :| key in rest;
        rest := rest - {key};
        var total := GroupTotal(current, group, key);
        if Budget(item, key) + total > ceiling[key] {
          return true;
        }
      }
      return false;
    }

    method CheckAggregateBudgetUnlocked(r: Record, ceiling: map<string, int>) returns (verdict: Result<(), Code>)
      requires GoodIds(r.item)
      ensures AllLoad(digest, directories) ==> verdict == CheckCreate(View(digest, directories), r, ceiling)
      ensures !AllLoad(digest, directories) ==> verdict == Err(LoadFailure(digest, directories))
    {
      var latest := AllLatestUnlocked();
      if latest.Err? {
        return Err(latest.error);
      }
      var current := latest.value;
      var over := ExceedsCeiling(current, Account(r.authority, r.principal), r.item, ceiling);
      if over {
        return Err(AggregateBudgetDenied);
      }
      if r.item.parent.None? {
        return Ok(());
      }
      var parentId := r.item.parent.value;
      var loaded := LoadUnlocked(parentId);
      if loaded.Err? || loaded.value.principal != r.principal {
        return Err(TaskNotFound);
      }
      if !WithinParent(r.item, loaded.value.item) {
        return Err(ParentAuthorityDenied);
      }
      over := ExceedsCeiling(current, ChildrenOf(parentId), r.item, loaded.value.item.budget);
      if over {
        return Err(ParentBudgetDenied);
      }
      return Ok(());
    }

    method Create(r: Record, ceiling: map<string, int>, now: int) returns (result: Result<(Record, bool), Code>)
      requires GoodIds(r.item)
      modifies this
      ensures directories == After(digest, old(directories), CallCreate(r, ceiling, now))
      ensures directories == CreateEffect(digest, old(directories), r, ceiling, now).0
      ensures result == CreateEffect(digest, old(directories), r, ceiling, now).1
      ensures Intact(digest, old(directories)) && result.Ok? && result.value.1 ==>
                View(digest, directories) == View(digest, old(directories))[r.item.id := r]
    {
      ghost var before := directories;
      var existing := LoadUnlocked(r.item.id);
      if existing.Ok? {
        if existing.value.request != r.request {
          return Err(IdempotencyConflict);
        }
        return Ok((existing.value, false));
      }
      if existing.error != TaskNotFound {
        return Err(existing.error);
      }
      var verdict := CheckAggregateBudgetUnlocked(r, ceiling);
      if verdict.Err? {
        return Err(verdict.error);
      }
      if Intact(digest, before) {
        CommitIsUpdate(digest, before, r, true, now);
      }
      var outcome := AppendUnlocked(r, now);
      result := match outcome case Ok(stored) => Ok((stored, true)) case Err(code) => Err(code);
    }
  }

  // ---------------------------------------------------------------- glue for the sections

  lemma CorrectRead(h: Hash, dirs: Directories, id: string, principal: string)
    ensures Intact(h, dirs) && IsIdentifier(id) ==>
              Authorized(h, dirs, id, principal) == Coordinator.Read(View(h, dirs), id, principal)
  {
    if Intact(h, dirs) && IsIdentifier(id) {
      AuthorizedIsRead(h, dirs, id, principal);
    }
  }

  lemma CorrectCommit(h: Hash, dirs: Directories, id: string, principal: string, updated: Record, append: bool,
          now: int)
    requires Authorized(h, dirs, id, principal).Ok?
    requires updated.item == Authorized(h, dirs, id, principal).value.item
    requires !append ==> updated == Authorized(h, dirs, id, principal).value
    ensures Intact(h, dirs) && IsIdentifier(id) ==>
              && Coordinator.Read(View(h, dirs), id, principal) == Authorized(h, dirs, id, principal)
              && View(h, Commit(h, dirs, updated, append, now).0) == View(h, dirs)[id := updated]
  {
    if Intact(h, dirs) && IsIdentifier(id) {
      AuthorizedIsRead(h, dirs, id, principal);
      CommitIsUpdate(h, dirs, updated, append, now);
    }
  }

  lemma UnappendedEvent(r: Record, attempt: Attempt, e: RemoteEvent, now: int)
    ensures ApplyEvent(r, attempt, e, now).0.item == r.item
    ensures !ApplyEvent(r, attempt, e, now).1 ==> ApplyEvent(r, attempt, e, now).0 == r
  {
    EventShape(r, attempt, e, now);
    hide AddDiagnostic, AfterProtocolError, AfterTransportError, AfterObservation;
  }
}
