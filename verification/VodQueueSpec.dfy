/**
  The VOD download queue as a step system.

  asyncio runs the code between two suspension points without interruption, so
  every await-to-await stretch of the queue's workers, of the download handler
  and of the endpoints is one step.  A state holds what the database, the queue
  object and the worker tasks hold between two steps.
 */
module VodQueueSpec {
  import opened Wrappers

  /** The entry that tells a worker to return. */
  const SENTINEL := -1

  datatype Status = VodQueued | VodDownloading | Complete | VodFailed | VodCancelled

  datatype Recording = Recording(status: Status, error: Option<string>)

  type Rows = map<nat, Recording>

  /** Where a worker task is suspended, and for which recording. */
  datatype Phase =
    | Created                           // scheduled, its loop test not reached yet
    | Waiting                           // in queue.get()
    | Spawning(id: nat)                 // row is vod_downloading, process not registered yet
    | Running(id: nat)                  // process registered, its exit code not read yet
    | Probing(id: nat)                  // download done, ffprobe running
    | Publishing(id: nat, left: nat)    // row is complete, segments being published
    | Stopped                           // returned
    | Abandoned(id: nat)                // cancelled by stop()'s timeout in mid-download
  {
    predicate Carries() {
      Transfers() || Publishing?
    }

    /** The phases in which the carried row reads vod_downloading. */
    predicate Transfers() {
      Spawning? || Running? || Probing? || Abandoned?
    }

    /** The phases in which the worker owes the queue a task_done(). */
    predicate Busy() {
      Spawning? || Running? || Probing? || Publishing?
    }
  }

  /** What went through the FIFO since the process started. */
  datatype Popped = Popped(item: int, cancelled: bool)
  datatype Log = Log(put: seq<int>, popped: seq<Popped>, dispatched: seq<int>)

  datatype State = State(
    db: Rows,
    issued: set<nat>,         // every recording id ever handed out
    pending: set<nat>,        // committed as vod_queued, enqueue call still to come
    fifo: seq<int>,
    unfinished: int,          // asyncio.Queue's count behind join()
    running: bool,
    workers: seq<Phase>,
    procs: map<nat, bool>,    // registered process -> has it been sent SIGTERM
    cancelled: set<nat>,
    log: Log)

  datatype Action =
    | Create(id: nat)                           // a creating call commits a vod_queued row
    | Enqueue(id: nat)                          // ... and later puts it on the FIFO
    | Retry(id: nat)                            // POST /recordings/{id}/retry, up to its commit
    | Delete(id: nat)                           // the row goes away, whatever its status
    | Cancel(id: nat)                           // POST /recordings/{id}/cancel
    | Begin(w: nat)                             // a created task runs for the first time
    | Pop(w: nat, streamMissing: bool)
    | Spawned(w: nat)
    | Exited(w: nat, code: int, output: string) // the process ended and its pipes are drained
    | Probed(w: nat, publishes: nat)            // publishes == 0: nothing to auto-publish
    | Raised(w: nat, message: string)           // any other exception inside the handler
    | PublishReturned(w: nat)                   // one publish() returned or raised
    | Stop
    | TimedOut(w: nat)                          // stop() cancels a worker after its 5 s
    | Restart(cap: int)                         // crash, then recovery, workers, rehydration

  datatype CancelAnswer = RunningAnswer | QueuedAnswer | NotFoundAnswer
  datatype Reply<+T> = Replied(value: T) | Missing404 | Conflict409

  // ---------------------------------------------------------------- helpers

  function SetStatus(db: Rows, id: nat, status: Status): Rows {
    if id in db then db[id := db[id].(status := status)] else db
  }

  function SetOutcome(db: Rows, id: nat, status: Status, error: Option<string>): Rows {
    if id in db then db[id := Recording(status, error)] else db
  }

  function IdsWith(db: Rows, status: Status): set<nat> {
    set id | id in db && db[id].status == status
  }

  lemma {:induction false} FindLeast(s: set<nat>) returns (m: nat)
    requires s != {}
    ensures m in s && forall x :: x in s ==> m <= x
  {
    m :| m in s;
    var rest := s - {m};
    if rest != {} {
      var n := FindLeast(rest);
      forall x | x in s
        ensures (if m < n then m else n) <= x
      {
        assert x == m || x in rest;
      }
      m := if m < n then m else n;
    } else {
      forall x | x in s
        ensures m <= x
      {
        assert x == m || x in rest;
      }
    }
  }

  lemma LeastExists(s: set<nat>)
    requires s != {}
    ensures exists m :: m in s && forall x | x in s :: m <= x
  {
    var m := FindLeast(s);
  }

  function Least(s: set<nat>): (m: nat)
    requires s != {}
    ensures m in s && forall x | x in s :: m <= x
  {
    LeastExists(s);
    var m :| m in s && forall x | x in s :: m <= x;
    m
  }

  /** The order of `ORDER BY id`. */
  function Ascending(s: set<nat>): (ids: seq<nat>)
    ensures forall id :: id in ids <==> id in s
    ensures forall i, j :: 0 <= i < j < |ids| ==> ids[i] < ids[j]
  {
    if s == {} then [] else
      var m := Least(s);
      var rest := Ascending(s - {m});
      assert forall i :: 0 <= i < |rest| ==> rest[i] in rest;
      [m] + rest
  }

  /** What the startup recovery makes of the rows a crash left behind. */
  function Recover(db: Rows): Rows {
    map id | id in db ::
      if db[id].status == VodDownloading then db[id].(status := VodQueued) else db[id]
  }

  function FreshWorkers(n: nat): seq<Phase> {
    seq(n, _ => Created)
  }

  function Sentinels(n: nat): seq<int> {
    seq(n, _ => SENTINEL)
  }

  /** Recovery, then fresh worker tasks, then rehydration: nothing runs in between. */
  function Boot(db: Rows, issued: set<nat>, cap: int): State {
    var rows := Recover(db);
    var ids := Ascending(IdsWith(rows, VodQueued));
    State(rows, issued, {}, ids, |ids|, true, FreshWorkers(if cap < 1 then 1 else cap),
          map[], {}, Log(ids, [], []))
  }

  // ------------------------------------------------------- the worker's steps

  /** task_done(), then the test at the head of the worker's loop. */
  function Leave(s: State, w: nat): State
    requires w < |s.workers|
  {
    s.(unfinished := s.unfinished - 1,
       workers := s.workers[w := if s.running then Waiting else Stopped])
  }

  /** The handler returned or raised: the worker's `finally` block. */
  function Finish(s: State, w: nat, id: nat): State
    requires w < |s.workers|
  {
    Leave(s.(procs := s.procs - {id}), w)
  }

  /** An entry leaves the FIFO: sentinel, cancelled entry, or handler up to its first await. */
  function AfterPop(s: State, w: nat, streamMissing: bool): State
    requires w < |s.workers| && s.fifo != [] && s.fifo[0] >= SENTINEL
  {
    var item := s.fifo[0];
    var skip := item != SENTINEL && item in s.cancelled;
    var log := s.log.(popped := s.log.popped + [Popped(item, skip)]);
    var t := s.(fifo := s.fifo[1..], log := log);
    if item == SENTINEL then
      t.(unfinished := t.unfinished - 1, workers := t.workers[w := Stopped])
    else if skip then
      var rows := if item in t.db && t.db[item].status == VodQueued
                  then SetStatus(t.db, item, VodCancelled) else t.db;
      Leave(t.(cancelled := t.cancelled - {item}, db := rows), w)
    else Dispatched(t.(log := log.(dispatched := log.dispatched + [item])), w, item, streamMissing)
  }

  /** The handler up to its first await, or to its return. */
  function Dispatched(s: State, w: nat, id: nat, streamMissing: bool): State
    requires w < |s.workers|
  {
    if id !in s.db then Finish(s, w, id)
    else if streamMissing then
      Finish(s.(db := SetOutcome(s.db, id, VodFailed, Some("stream missing"))), w, id)
    else
      s.(db := SetStatus(s.db, id, VodDownloading), workers := s.workers[w := Spawning(id)])
  }

  /** How the downloader classifies the exit code, and what the handler makes of it. */
  function AfterExit(s: State, w: nat, code: int, output: string): State
    requires w < |s.workers| && s.workers[w].Running?
  {
    var id := s.workers[w].id;
    if code < 0 then
      Finish(s.(db := SetOutcome(s.db, id, VodCancelled, None)), w, id)
    else if code != 0 then
      Finish(s.(db := SetOutcome(s.db, id, VodFailed, Some(Clip(output)))), w, id)
    else
      s.(procs := s.procs - {id}, workers := s.workers[w := Probing(id)])
  }

  function AfterProbe(s: State, w: nat, publishes: nat): State
    requires w < |s.workers| && s.workers[w].Probing?
  {
    var id := s.workers[w].id;
    var t := s.(db := SetStatus(s.db, id, Complete));
    if id !in s.db || publishes == 0 then Finish(t, w, id)
    else t.(workers := t.workers[w := Publishing(id, publishes)])
  }

  function AfterPublish(s: State, w: nat): State
    requires w < |s.workers| && s.workers[w].Publishing?
  {
    var p := s.workers[w];
    if p.left <= 1 then Finish(s, w, p.id)
    else s.(workers := s.workers[w := Publishing(p.id, p.left - 1)])
  }

  /** A cancelled task still runs its `finally` block, then ends. */
  function AfterTimeout(s: State, w: nat): State
    requires w < |s.workers|
  {
    var p := s.workers[w];
    if p.Busy() then
      s.(procs := s.procs - {p.id}, unfinished := s.unfinished - 1,
         workers := s.workers[w := if p.Publishing? then Stopped else Abandoned(p.id)])
    else
      s.(workers := s.workers[w := Stopped])
  }

  // ------------------------------------------------------ the callers' steps

  function Put(s: State, item: int): State {
    s.(fifo := s.fifo + [item], unfinished := s.unfinished + 1,
       log := s.log.(put := s.log.put + [item]))
  }

  function PutAll(s: State, items: seq<int>): State {
    s.(fifo := s.fifo + items, unfinished := s.unfinished + |items|,
       log := s.log.(put := s.log.put + items))
  }

  /** VodQueue.cancel(): the registry first, then the row. */
  function CancelAnswerOf(s: State, id: nat): CancelAnswer {
    if id in s.procs then RunningAnswer
    else if id in s.db && s.db[id].status == VodQueued then QueuedAnswer
    else NotFoundAnswer
  }

  function CancelInQueue(s: State, id: nat): State {
    match CancelAnswerOf(s, id)
    case RunningAnswer => s.(procs := s.procs[id := true])
    case QueuedAnswer => s.(cancelled := s.cancelled + {id})
    case NotFoundAnswer => s
  }

  /** The cancel endpoint's reply; only a Replied answer reaches the queue. */
  function CancelReply(s: State, id: nat): Reply<CancelAnswer> {
    if id !in s.db then Missing404
    else if s.db[id].status !in {VodQueued, VodDownloading} then Conflict409
    else Replied(CancelAnswerOf(s, id))
  }

  function RetryReply(s: State, id: nat): Reply<()> {
    if id !in s.db then Missing404
    else if s.db[id].status != VodFailed then Conflict409
    else Replied(())
  }

  // ---------------------------------------------------------- the step system

  predicate Enabled(s: State, a: Action) {
    match a
    case Create(id) => id !in s.issued
    case Enqueue(id) => id in s.pending
    case Retry(_) => true
    case Delete(_) => true
    case Cancel(_) => true
    case Begin(w) => w < |s.workers| && s.workers[w].Created?
    case Pop(w, _) => w < |s.workers| && s.workers[w].Waiting? && s.fifo != [] && s.fifo[0] >= SENTINEL
    case Spawned(w) => w < |s.workers| && s.workers[w].Spawning?
    case Exited(w, _, _) => w < |s.workers| && s.workers[w].Running?
    case Probed(w, _) => w < |s.workers| && s.workers[w].Probing?
    case Raised(w, _) => w < |s.workers| && (s.workers[w].Spawning? || s.workers[w].Running? || s.workers[w].Probing?)
    case PublishReturned(w) => w < |s.workers| && s.workers[w].Publishing?
    case Stop => true
    case TimedOut(w) => w < |s.workers| && !s.running && !s.workers[w].Stopped? && !s.workers[w].Abandoned?
    case Restart(_) => true
  }

  function Step(s: State, a: Action): State
    requires Enabled(s, a)
  {
    match a
    case Create(id) =>
      s.(db := s.db[id := Recording(VodQueued, None)], issued := s.issued + {id}, pending := s.pending + {id})
    case Enqueue(id) => Put(s.(pending := s.pending - {id}), id)
    case Retry(id) =>
      if RetryReply(s, id).Replied?
      then s.(db := SetOutcome(s.db, id, VodQueued, None), pending := s.pending + {id})
      else s
    case Delete(id) => s.(db := s.db - {id})
    case Cancel(id) => if CancelReply(s, id).Replied? then CancelInQueue(s, id) else s
    case Begin(w) => s.(workers := s.workers[w := if s.running then Waiting else Stopped])
    case Pop(w, missing) => AfterPop(s, w, missing)
    case Spawned(w) =>
      var id := s.workers[w].id;
      s.(procs := s.procs[id := false], workers := s.workers[w := Running(id)])
    case Exited(w, code, output) => AfterExit(s, w, code, output)
    case Probed(w, publishes) => AfterProbe(s, w, publishes)
    case Raised(w, message) =>
      var id := s.workers[w].id;
      Finish(s.(db := SetOutcome(s.db, id, VodFailed, Some(Clip(message)))), w, id)
    case PublishReturned(w) => AfterPublish(s, w)
    case Stop => PutAll(s.(running := false), Sentinels(|s.workers|))
    case TimedOut(w) => AfterTimeout(s, w)
    case Restart(cap) => Boot(s.db, s.issued, cap)
  }

  /** A run is a sequence of actions, each enabled where it happens. */
  ghost predicate Legal(s: State, run: seq<Action>)
    decreases run
  {
    run == [] || (Enabled(s, run[0]) && Legal(Step(s, run[0]), run[1..]))
  }

  ghost function After(s: State, run: seq<Action>): State
    requires Legal(s, run)
    decreases run
  {
    if run == [] then s else After(Step(s, run[0]), run[1..])
  }
}
