/**
  The VOD queue in its own form: an object whose methods update its fields, one
  method per await-to-await stretch.  Each is proved to do exactly what the step
  system does, so everything proved about runs holds of this object.
 */
module VodQueue {
  import opened Wrappers
  import opened VodQueueSpec
  import opened VodQueueInvariant

  class Queue {
    var db: Rows
    var queue: seq<int>
    var unfinished: int
    var running: bool
    var workers: seq<Phase>
    var runningProcs: map<nat, bool>
    var cancelledQueued: set<nat>
    const maxConcurrent: nat

    ghost var issued: set<nat>
    ghost var pending: set<nat>  // locals of creating calls that have not reached enqueue()
    ghost var log: Log

    ghost function Abs(): State
      reads this
    {
      State(db, issued, pending, queue, unfinished, running, workers, runningProcs, cancelledQueued, log)
    }

    /** The part of the app's startup that concerns the queue. */
    constructor Startup(rows: Rows, ghost ids: set<nat>, cap: int)
      ensures Abs() == Boot(rows, ids, cap)
    {
      db, queue, unfinished, running, workers := rows, [], 0, false, [];
      runningProcs, cancelledQueued := map[], {};
      maxConcurrent := if cap < 1 then 1 else cap;
      issued, pending, log := ids, {}, Log([], [], []);
      new;
      hide *;
      var _ := MarkInterrupted();
      StartWorkers();
      Rehydrate();
      BootFromParts(rows, ids, cap);
    }

    /** Rewrites every row a crash left in vod_downloading and counts them. */
    method MarkInterrupted() returns (count: nat)
      modifies this`db
      ensures db == Recover(old(db))
      ensures count == |IdsWith(old(db), VodDownloading)|
    {
      var rows := IdsWith(db, VodDownloading);
      var todo := rows;
      count := 0;
      while todo != {}
        invariant todo <= rows && count + |todo| == |rows|
        invariant db.Keys == old(db).Keys
        invariant forall id :: id in db ==>
                    db[id] == if id in rows - todo then old(db)[id].(status := VodQueued) else old(db)[id]
        decreases todo
      {
        var id :| id in todo;
        db := db[id := db[id].(status := VodQueued)];
        todo := todo - {id};
        count := count + 1;
      }
    }

    method StartWorkers()
      modifies this`running, this`workers
      ensures old(running) ==> running && workers == old(workers)
      ensures !old(running) ==>
                running && workers == old(workers) + FreshWorkers(maxConcurrent)
    {
      if running {
        return;
      }
      running := true;
      var i := 0;
      while i < maxConcurrent
        invariant i <= maxConcurrent && running
        invariant workers == old(workers) + FreshWorkers(i)
      {
        workers := workers + [Created];
        i := i + 1;
      }
    }

    method Put(item: int)
      modifies this`queue, this`unfinished, this`log
      ensures Abs() == PutAll(old(Abs()), [item])
    {
      queue := queue + [item];
      unfinished := unfinished + 1;
      log := log.(put := log.put + [item]);
    }

    method Rehydrate()
      modifies this`queue, this`unfinished, this`log
      ensures Abs() == PutAll(old(Abs()), Ascending(IdsWith(db, VodQueued)))
    {
      var ids: seq<int> := Ascending(IdsWith(db, VodQueued));
      hide *;
      PutNothing(Abs());
      var i := 0;
      while i < |ids|
        invariant i <= |ids| && Abs() == PutAll(old(Abs()), ids[..i])
      {
        Put(ids[i]);
        PutOneMore(old(Abs()), ids[..i], ids[i]);
        assert ids[..i + 1] == ids[..i] + [ids[i]];
        i := i + 1;
      }
      assert ids[..i] == ids;
    }

    /** A creating call commits its row; its enqueue() comes after the commit. */
    method CommitRow(id: nat)
      requires Enabled(Abs(), Create(id))
      modifies this
      ensures Abs() == Step(old(Abs()), Create(id))
      ensures old(Inv(Abs())) ==> Inv(Abs())
    {
      hide Inv;
      if Inv(Abs()) {
        StepKeepsInv(Abs(), Create(id));
      }
      db := db[id := Recording(VodQueued, None)];
      issued, pending := issued + {id}, pending + {id};
    }

    method Enqueue(id: nat)
      requires id in pending
      modifies this
      ensures Abs() == Step(old(Abs()), Action.Enqueue(id))
      ensures old(Inv(Abs())) ==> Inv(Abs())
    {
      hide Inv;
      if Inv(Abs()) {
        StepKeepsInv(Abs(), Action.Enqueue(id));
      }
      pending := pending - {id};
      Put(id);
    }

    /** POST /recordings/{id}/retry up to its commit. */
    method RetryVod(id: nat) returns (reply: Reply<()>)
      modifies this
      ensures reply == RetryReply(old(Abs()), id)
      ensures Abs() == Step(old(Abs()), Retry(id))
      ensures old(Inv(Abs())) ==> Inv(Abs())
    {
      hide Inv;
      if Inv(Abs()) {
        StepKeepsInv(Abs(), Retry(id));
      }
      if id !in db {
        return Missing404;
      }
      if db[id].status != VodFailed {
        return Conflict409;
      }
      db := db[id := Recording(VodQueued, None)];
      pending := pending + {id};
      return Replied(());
    }

    method Cancel(id: nat) returns (answer: CancelAnswer)
      modifies this
      ensures answer == CancelAnswerOf(old(Abs()), id)
      ensures Abs() == CancelInQueue(old(Abs()), id)
    {
      if id in runningProcs {
        runningProcs := runningProcs[id := true];
        return RunningAnswer;
      }
      if id in db && db[id].status == VodQueued {
        cancelledQueued := cancelledQueued + {id};
        return QueuedAnswer;
      }
      return NotFoundAnswer;
    }

    /** POST /recordings/{id}/cancel. */
    method CancelVodDownload(id: nat) returns (reply: Reply<CancelAnswer>)
      modifies this
      ensures reply == CancelReply(old(Abs()), id)
      ensures Abs() == Step(old(Abs()), Action.Cancel(id))
      ensures old(Inv(Abs())) ==> Inv(Abs())
    {
      hide Inv;
      if Inv(Abs()) {
        StepKeepsInv(Abs(), Action.Cancel(id));
      }
      if id !in db {
        return Missing404;
      }
      if db[id].status != VodQueued && db[id].status != VodDownloading {
        return Conflict409;
      }
      var answer := Cancel(id);
      return Replied(answer);
    }

    method ConsumeCancelledQueued(id: nat) returns (was: bool)
      modifies this`cancelledQueued
      ensures was <==> id in old(cancelledQueued)
      ensures cancelledQueued == old(cancelledQueued) - {id}
    {
      was := id in cancelledQueued;
      cancelledQueued := cancelledQueued - {id};
    }

    method TaskDone()
      requires unfinished > 0  // asyncio raises ValueError otherwise
      modifies this`unfinished
      ensures unfinished == old(unfinished) - 1
    {
      unfinished := unfinished - 1;
    }

    /** The worker's `finally` block and the test at the head of its loop. */
    method HandlerEnded(w: nat, id: nat)
      requires w < |workers| && unfinished > 0
      modifies this`runningProcs, this`unfinished, this`workers
      ensures Abs() == Finish(old(Abs()), w, id)
    {
      runningProcs := runningProcs - {id};
      TaskDone();
      workers := workers[w := if running then Waiting else Stopped];
    }

    /** The handler up to its first await; false if it returned already. */
    method HandlerStarts(id: nat, streamMissing: bool) returns (downloading: bool)
      modifies this`db
      ensures downloading <==> id in db && !streamMissing
      ensures db == if id !in old(db) then old(db)
                    else if streamMissing then SetOutcome(old(db), id, VodFailed, Some("stream missing"))
                    else SetStatus(old(db), id, VodDownloading)
    {
      if id !in db {
        return false;
      }
      if streamMissing {
        db := db[id := Recording(VodFailed, Some("stream missing"))];
        return false;
      }
      db := db[id := db[id].(status := VodDownloading)];
      return true;
    }

    /** The entry goes to the handler, which may return at once. */
    method Dispatch(w: nat, id: nat, streamMissing: bool)
      requires w < |workers| && unfinished > 0
      modifies this`db, this`runningProcs, this`unfinished, this`workers
      ensures Abs() == Dispatched(old(Abs()), w, id, streamMissing)
    {
      var downloading := HandlerStarts(id, streamMissing);
      if downloading {
        workers := workers[w := Spawning(id)];
      } else {
        HandlerEnded(w, id);
      }
    }

    /** One turn of the worker loop, from queue.get() to the next await. */
    method WorkerTakes(w: nat, streamMissing: bool)
      requires Inv(Abs()) && Enabled(Abs(), Pop(w, streamMissing))
      modifies this
      ensures Abs() == Step(old(Abs()), Pop(w, streamMissing))
      ensures Inv(Abs())
    {
      hide Inv, Dispatched, Leave;
      StepKeepsInv(Abs(), Pop(w, streamMissing));
      EntryIsCounted();
      var item := queue[0];
      queue := queue[1..];
      log := log.(popped := log.popped + [Popped(item, item != SENTINEL && item in cancelledQueued)]);
      if item == SENTINEL {
        TaskDone();
        workers := workers[w := Stopped];
        return;
      }
      var id: nat := item;
      var cancelled := ConsumeCancelledQueued(id);
      if cancelled {
        SkipCancelled(w, id);
      } else {
        assert cancelledQueued == old(cancelledQueued);
        log := log.(dispatched := log.dispatched + [id]);
        Dispatch(w, id, streamMissing);
      }
    }

    /** The entry was cancelled while it waited: its row, if still queued, becomes vod_cancelled. */
    method SkipCancelled(w: nat, id: nat)
      requires w < |workers| && unfinished > 0
      modifies this`db, this`unfinished, this`workers
      ensures Abs() == Leave(old(Abs()).(db :=
                         if id in old(db) && old(db)[id].status == VodQueued
                         then SetStatus(old(db), id, VodCancelled) else old(db)), w)
    {
      if id in db && db[id].status == VodQueued {
        db := db[id := db[id].(status := VodCancelled)];
      }
      TaskDone();
      workers := workers[w := if running then Waiting else Stopped];
    }

    method ProcessSpawned(w: nat)
      requires Enabled(Abs(), Spawned(w))
      modifies this
      ensures Abs() == Step(old(Abs()), Spawned(w))
      ensures old(Inv(Abs())) ==> Inv(Abs())
    {
      hide Inv;
      if Inv(Abs()) {
        StepKeepsInv(Abs(), Spawned(w));
      }
      var id := workers[w].id;
      runningProcs := runningProcs[id := false];
      workers := workers[w := Running(id)];
    }

    /** download() returns or raises by the exit code; the handler and the loop react. */
    method ProcessExited(w: nat, code: int, output: string)
      requires Inv(Abs()) && Enabled(Abs(), Exited(w, code, output))
      modifies this
      ensures Abs() == Step(old(Abs()), Exited(w, code, output))
      ensures Inv(Abs())
    {
      hide Inv;
      StepKeepsInv(Abs(), Exited(w, code, output));
      BusyIsCounted(w);
      var id := workers[w].id;
      runningProcs := runningProcs - {id};
      if code < 0 {
        if id in db {
          db := db[id := Recording(VodCancelled, None)];
        }
        HandlerEnded(w, id);
      } else if code != 0 {
        if id in db {
          db := db[id := Recording(VodFailed, Some(Clip(output)))];
        }
        HandlerEnded(w, id);
      } else {
        workers := workers[w := Probing(id)];
      }
    }

    method ProbeReturned(w: nat, publishes: nat)
      requires Inv(Abs()) && Enabled(Abs(), Probed(w, publishes))
      modifies this
      ensures Abs() == Step(old(Abs()), Probed(w, publishes))
      ensures Inv(Abs())
    {
      hide Inv;
      StepKeepsInv(Abs(), Probed(w, publishes));
      BusyIsCounted(w);
      var id := workers[w].id;
      if id !in db {
        HandlerEnded(w, id);
        return;
      }
      db := db[id := db[id].(status := Complete)];
      if publishes == 0 {
        HandlerEnded(w, id);
      } else {
        workers := workers[w := Publishing(id, publishes)];
      }
    }

    method HandlerRaised(w: nat, message: string)
      requires Inv(Abs()) && Enabled(Abs(), Raised(w, message))
      modifies this
      ensures Abs() == Step(old(Abs()), Raised(w, message))
      ensures Inv(Abs())
    {
      hide Inv;
      StepKeepsInv(Abs(), Raised(w, message));
      BusyIsCounted(w);
      var id := workers[w].id;
      if id in db {
        db := db[id := Recording(VodFailed, Some(Clip(message)))];
      }
      HandlerEnded(w, id);
    }

    method PublishEnded(w: nat)
      requires Inv(Abs()) && Enabled(Abs(), PublishReturned(w))
      modifies this
      ensures Abs() == Step(old(Abs()), PublishReturned(w))
      ensures Inv(Abs())
    {
      hide Inv;
      StepKeepsInv(Abs(), PublishReturned(w));
      BusyIsCounted(w);
      var p := workers[w];
      if p.left <= 1 {
        HandlerEnded(w, p.id);
      } else {
        workers := workers[w := Publishing(p.id, p.left - 1)];
      }
    }

    /** stop() up to its first await: one sentinel for each worker. */
    method Stop()
      modifies this
      ensures Abs() == Step(old(Abs()), Action.Stop)
      ensures old(Inv(Abs())) ==> Inv(Abs())
    {
      hide Inv;
      if Inv(Abs()) {
        StepKeepsInv(Abs(), Action.Stop);
      }
      running := false;
      ghost var start := Abs();
      PutNothing(start);
      hide PutAll, Sentinels;
      NoSentinels();
      var i := 0;
      while i < |workers|
        invariant i <= |workers| && workers == start.workers && Abs() == PutAll(start, Sentinels(i))
      {
        Put(SENTINEL);
        PutOneMore(start, Sentinels(i), SENTINEL);
        OneMoreSentinel(i);
        i := i + 1;
      }
    }

    /** A worker task runs for the first time: the test at the head of its loop. */
    method TaskBegins(w: nat)
      requires Enabled(Abs(), Begin(w))
      modifies this
      ensures Abs() == Step(old(Abs()), Begin(w))
      ensures old(Inv(Abs())) ==> Inv(Abs())
    {
      hide Inv;
      if Inv(Abs()) {
        StepKeepsInv(Abs(), Begin(w));
      }
      workers := workers[w := if running then Waiting else Stopped];
    }

    /** stop() cancels a worker after five seconds; its `finally` block still runs. */
    method WorkerTimedOut(w: nat)
      requires Inv(Abs()) && Enabled(Abs(), TimedOut(w))
      modifies this
      ensures Abs() == Step(old(Abs()), TimedOut(w))
      ensures Inv(Abs())
    {
      hide Inv;
      StepKeepsInv(Abs(), TimedOut(w));
      var p := workers[w];
      if p.Busy() {
        BusyIsCounted(w);
        runningProcs := runningProcs - {p.id};
        TaskDone();
        workers := workers[w := if p.Publishing? then Stopped else Abandoned(p.id)];
      } else {
        workers := workers[w := Stopped];
      }
    }

    /** Any code that deletes the row, whatever its status. */
    method DeleteRow(id: nat)
      modifies this
      ensures Abs() == Step(old(Abs()), Delete(id))
      ensures old(Inv(Abs())) ==> Inv(Abs())
    {
      hide Inv;
      if Inv(Abs()) {
        StepKeepsInv(Abs(), Delete(id));
      }
      db := db - {id};
    }

    /** The invariant is what keeps task_done() from raising. */
    lemma BusyIsCounted(w: nat)
      requires Inv(Abs()) && w < |workers| && workers[w].Busy()
      ensures unfinished > 0
    {
      hide Placement, Known, RowsTell, RegistryTells, FlagsLive, Conserved;
      BusyCounts(workers, w);
    }

    lemma EntryIsCounted()
      requires Inv(Abs()) && queue != []
      ensures unfinished > 0
    {
      hide Placement, Known, RowsTell, RegistryTells, FlagsLive, Conserved;
    }
  }

  lemma {:induction false} BusyCounts(ws: seq<Phase>, w: nat)
    requires w < |ws| && ws[w].Busy()
    ensures CountBusy(ws) > 0
  {
    if w == 0 {
    } else {
      BusyCounts(ws[1..], w - 1);
    }
  }

  lemma PutNothing(s: State)
    ensures PutAll(s, []) == s
  {
    assert s.fifo + [] == s.fifo && s.log.put + [] == s.log.put;
  }

  lemma PutOneMore(s: State, items: seq<int>, item: int)
    ensures PutAll(PutAll(s, items), [item]) == PutAll(s, items + [item])
    ensures PutAll(PutAll(s, items), [item]).workers == s.workers
  {
    assert s.fifo + items + [item] == s.fifo + (items + [item]);
    assert s.log.put + items + [item] == s.log.put + (items + [item]);
  }

  lemma NoSentinels()
    ensures Sentinels(0) == []
  {}

  lemma OneMoreSentinel(n: nat)
    ensures Sentinels(n + 1) == Sentinels(n) + [SENTINEL]
  {}

  /** Recovery, workers and rehydration, one after the other. */
  lemma BootFromParts(rows: Rows, ids: set<nat>, cap: int)
    ensures var recovered := Recover(rows);
            var idle := State(recovered, ids, {}, [], 0, true, [] + FreshWorkers(if cap < 1 then 1 else cap), map[], {}, Log([], [], []));
            PutAll(idle, Ascending(IdsWith(recovered, VodQueued))) == Boot(rows, ids, cap)
  {
    hide Recover, Ascending, IdsWith, FreshWorkers;
    var ws := FreshWorkers(if cap < 1 then 1 else cap);
    var queued: seq<int> := Ascending(IdsWith(Recover(rows), VodQueued));
    assert [] + ws == ws && [] + queued == queued;
  }
}
