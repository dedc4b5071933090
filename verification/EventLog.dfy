/**
 The append-only, hash-chained event log of one task (`_events`, `_load_unlocked` and
 `_append_unlocked` in pipeline/a2a_coordination.py).

 The digest is an arbitrary function of the event without its own digest.
 */
module EventLog {
  import opened Common
  import opened Records

  const AUDIT_SCHEMA := "formalspecgen-a2a-task-event-v1"

  /** Event files are listed by six digits; a file with a seventh digit is never listed. */
  const MAX_EVENTS: nat := 999999

  datatype Body = Body(schema: string, sequence: int, previous: Option<string>, record: Option<Record>, recordedAt: int)

  datatype Event = Event(body: Body, sha: Option<string>)

  /** The listed event files in name order, and the one file a seventh digit hides. */
  datatype Directory = Directory(events: seq<Event>, hidden: Option<Event>)

  const EMPTY_DIRECTORY := Directory([], None)

  type Hash = Body -> string

  function PreviousSha(events: seq<Event>, i: nat): Option<string>
    requires i <= |events|
  {
    if i == 0 then None else events[i - 1].sha
  }

  predicate LinkedAt(h: Hash, events: seq<Event>, i: nat)
    requires i < |events|
  {
    var e := events[i];
    && e.body.schema == AUDIT_SCHEMA && e.body.sequence == i + 1 && e.body.previous == PreviousSha(events, i)
    && e.sha == Some(h(e.body))
  }

  predicate Chained(h: Hash, events: seq<Event>) {
    forall i | 0 <= i < |events| :: LinkedAt(h, events, i)
  }

  function Load(h: Hash, events: seq<Event>): Result<Record, Code> {
    if |events| == 0 then Err(TaskNotFound)
    else if !Chained(h, events) || events[|events| - 1].body.record.None? then Err(TaskEvidenceInvalid)
    else Ok(events[|events| - 1].body.record.value)
  }

  function NextEvent(h: Hash, events: seq<Event>, r: Record, now: int): Event {
    var body := Body(AUDIT_SCHEMA, |events| + 1, PreviousSha(events, |events|), Some(r), now);
    Event(body, Some(h(body)))
  }

  function Append(h: Hash, d: Directory, r: Record, now: int): (Directory, Result<Record, Code>) {
    var e := NextEvent(h, d.events, r, now);
    if |d.events| < MAX_EVENTS then (d.(events := d.events + [e]), Ok(r))
    else if d.hidden.None? then (d.(hidden := Some(e)), Ok(r))
    else (d, Err(FileExists))
  }

  /** Appending keeps every earlier event, keeps the chain, and makes the record the one loaded. */
  lemma AppendThenLoad(h: Hash, d: Directory, r: Record, now: int)
    requires Chained(h, d.events) && |d.events| < MAX_EVENTS
    ensures d.events <= Append(h, d, r, now).0.events
    ensures Chained(h, Append(h, d, r, now).0.events)
    ensures Load(h, Append(h, d, r, now).0.events) == Ok(r)
  {
    var n := |d.events|;
    var longer := Append(h, d, r, now).0.events;
    forall i | 0 <= i < n + 1
      ensures LinkedAt(h, longer, i)
    {
      if i < n {
        assert LinkedAt(h, d.events, i);
      }
    }
  }

  /**
   Exactly when a reported success can be read back: below the millionth event, or when the record
   to append is the one already stored last.
   */
  lemma AppendReadBack(h: Hash, d: Directory, r: Record, now: int)
    requires Load(h, d.events).Ok? && |d.events| <= MAX_EVENTS
    requires Append(h, d, r, now).1.Ok?
    ensures Load(h, Append(h, d, r, now).0.events) == Ok(r) <==>
            |d.events| < MAX_EVENTS || Load(h, d.events) == Ok(r)
  {
    if |d.events| < MAX_EVENTS {
      AppendThenLoad(h, d, r, now);
    }
  }

  ghost predicate Collision(h: Hash, a: Body, b: Body) {
    a != b && h(a) == h(b)
  }

  /** Two loadable logs that share a last digest are identical, or exhibit a digest collision. */
  lemma {:induction false} TamperEvident(h: Hash, xs: seq<Event>, ys: seq<Event>)
    requires Chained(h, xs) && Chained(h, ys) && |xs| > 0 && |ys| > 0
    requires xs[|xs| - 1].sha == ys[|ys| - 1].sha
    ensures xs == ys || exists i, j | 0 <= i < |xs| && 0 <= j < |ys| :: Collision(h, xs[i].body, ys[j].body)
    decreases |xs|
  {
    var m, n := |xs| - 1, |ys| - 1;
    assert LinkedAt(h, xs, m) && LinkedAt(h, ys, n);
    if xs[m].body != ys[n].body {
      assert Collision(h, xs[m].body, ys[n].body);
    } else if m > 0 {
      assert xs[..m][m - 1] == xs[m - 1] && ys[..n][n - 1] == ys[n - 1];
      PrefixChained(h, xs, m);
      PrefixChained(h, ys, n);
      TamperEvident(h, xs[..m], ys[..n]);
      if xs[..m] == ys[..n] {
        assert xs == xs[..m] + [xs[m]] && ys == ys[..n] + [ys[n]];
      } else {
        var i, j :| 0 <= i < m && 0 <= j < n && Collision(h, xs[..m][i].body, ys[..n][j].body);
        assert Collision(h, xs[i].body, ys[j].body);
      }
    } else {
      assert xs == [xs[0]] && ys == [ys[0]];
    }
  }

  lemma PrefixChained(h: Hash, events: seq<Event>, n: nat)
    requires Chained(h, events) && n <= |events|
    ensures Chained(h, events[..n])
  {
    forall i | 0 <= i < n
      ensures LinkedAt(h, events[..n], i)
    {
      assert LinkedAt(h, events, i);
    }
  }

  /** With an injective digest the last digest pins the whole log. */
  lemma LastDigestPinsLog(h: Hash, xs: seq<Event>, ys: seq<Event>)
    requires forall a, b | h(a) == h(b) :: a == b
    requires Load(h, xs).Ok? && Load(h, ys).Ok?
    requires xs[|xs| - 1].sha == ys[|ys| - 1].sha
    ensures xs == ys
  {
    TamperEvident(h, xs, ys);
  }
}
