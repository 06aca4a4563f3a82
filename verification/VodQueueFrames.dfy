/**
  What a step of the VOD queue leaves alone, and what its two endpoints answer.
 */
module VodQueueFrames {
  import opened Wrappers
  import opened VodQueueSpec
  import opened VodQueueInvariant
  import opened VodQueueRuns

  /** The recording a step is about. */
  function Subject(s: State, a: Action): Option<nat>
    requires Enabled(s, a)
  {
    match a
    case Create(id) => Some(id)
    case Enqueue(id) => Some(id)
    case Retry(id) => Some(id)
    case Delete(id) => Some(id)
    case Cancel(id) => Some(id)
    case Pop(_, _) => if s.fifo[0] >= 0 then Some(s.fifo[0]) else None
    case Begin(_) => None
    case Stop => None
    case Restart(_) => None
    case Spawned(w) => Some(s.workers[w].id)
    case Exited(w, _, _) => Some(s.workers[w].id)
    case Probed(w, _) => Some(s.workers[w].id)
    case Raised(w, _) => Some(s.workers[w].id)
    case PublishReturned(w) => Some(s.workers[w].id)
    case TimedOut(w) => if s.workers[w].Carries() then Some(s.workers[w].id) else None
  }

  predicate SameRow(db: Rows, rows: Rows, id: nat) {
    (id in db <==> id in rows) && (id in db ==> rows[id] == db[id])
  }

  predicate SameProcess(procs: map<nat, bool>, after: map<nat, bool>, id: nat) {
    (id in procs <==> id in after) && (id in procs ==> after[id] == procs[id])
  }

  /** Nothing of another recording changes, in the database or in the queue's own sets. */
  predicate SameElsewhere(s: State, t: State, id: nat) {
    && SameRow(s.db, t.db, id) && SameProcess(s.procs, t.procs, id)
    && (id in s.cancelled <==> id in t.cancelled) && (id in s.pending <==> id in t.pending) && (id in s.issued <==> id in t.issued)
  }

  lemma DispatchStaysOut(s: State, w: nat, job: nat, missing: bool, id: nat)
    requires w < |s.workers| && id != job
    ensures SameElsewhere(s, Dispatched(s, w, job, missing), id)
  {}

  lemma PopStaysOut(s: State, w: nat, missing: bool, id: nat)
    requires Enabled(s, Pop(w, missing)) && s.fifo[0] != id
    ensures SameElsewhere(s, AfterPop(s, w, missing), id)
  {
    var item := s.fifo[0];
    if item >= 0 && item !in s.cancelled {
      var log := s.log.(popped := s.log.popped + [Popped(item, false)], dispatched := s.log.dispatched + [item]);
      DispatchStaysOut(s.(fifo := s.fifo[1..], log := log), w, item, missing, id);
    }
    hide Dispatched;
  }

  /** A step is about one recording at most: of every other one it leaves row, process, flags and marks as they are. */
  lemma StepTouchesOneRecording(s: State, a: Action, id: nat)
    requires Enabled(s, a) && !a.Restart? && Subject(s, a) != Some(id)
    ensures SameElsewhere(s, Step(s, a), id)
  {
    if a.Pop? {
      PopStaysOut(s, a.w, a.streamMissing, id);
    }
    hide AfterPop;
  }

  /** A deletion deletes, and a creation creates. */
  lemma RowsComeAndGo(s: State, id: nat)
    ensures id !in Step(s, Delete(id)).db
    ensures Enabled(s, Create(id)) ==>
              && Step(s, Create(id)).db == s.db[id := Recording(VodQueued, None)]
              && Enabled(Step(s, Create(id)), Enqueue(id))
  {}

  /** Only four kinds of step move the FIFO and its log, each in its own way. */
  lemma WhatMovesTheFifo(s: State, a: Action)
    requires Enabled(s, a)
    ensures var t := Step(s, a);
            match a
            case Enqueue(id) => t.fifo == s.fifo + [id] && t.log == s.log.(put := s.log.put + [id])
            case Pop(w, _) =>
              && t.fifo == s.fifo[1..] && t.log.put == s.log.put
              && t.log.popped == s.log.popped + [Popped(s.fifo[0], s.fifo[0] >= 0 && s.fifo[0] in s.cancelled)]
              && t.log.dispatched == s.log.dispatched
                                     + (if s.fifo[0] >= 0 && s.fifo[0] !in s.cancelled then [s.fifo[0]] else [])
            case Stop => true
            case Restart(_) => true
            case _ => t.fifo == s.fifo && t.log == s.log
  {
    assert s.log.dispatched + [] == s.log.dispatched;
  }

  /** What the cancel endpoint replies to a recording in each of its states. */
  lemma CancelTable(s: State, id: nat)
    requires Inv(s)
    ensures CancelReply(s, id)
         == if id !in s.db then Missing404
            else match s.db[id].status
              case VodQueued => Replied(QueuedAnswer)
              case VodDownloading => Replied(if exists w :: 0 <= w < |s.workers| && s.workers[w] == Running(id) then RunningAnswer else NotFoundAnswer)
              case _ => Conflict409
  {
    CancelAnswersTell(s, id);
    if id in s.db {
      QueuedIsPlaced(s, id);
    }
    hide Inv;
    assert HeldRunning(s.workers, id) <==> exists w :: 0 <= w < |s.workers| && s.workers[w] == Running(id);
  }

  lemma QueuedIsPlaced(s: State, id: nat)
    requires Inv(s) && id in s.db
    ensures s.db[id].status == VodQueued <==> id in s.fifo || id in s.pending
  {}

  /** A retry takes up failed recordings and no others, and its enqueue puts them behind everything queued. */
  lemma RetryTable(s: State, id: nat)
    ensures RetryReply(s, id) == if id !in s.db then Missing404 else if s.db[id].status != VodFailed then Conflict409 else Replied(())
    ensures var t := Step(s, Retry(id));
            if id in s.db && s.db[id].status == VodFailed then
              && t.db == s.db[id := Recording(VodQueued, None)] && Enabled(t, Enqueue(id))
              && Step(t, Enqueue(id)).fifo == s.fifo + [id]
            else t == s
  {}

  /** From the spawn on a cancel reaches the process, which has not been told to terminate yet. */
  lemma SpawnRegisters(s: State, w: nat)
    requires Inv(s) && Enabled(s, Spawned(w))
    ensures var id, t := s.workers[w].id, Step(s, Spawned(w));
            && id in t.procs && !t.procs[id] && t.workers[w] == Running(id) && t.db == s.db
            && (id in s.db ==> CancelReply(t, id) == Replied(RunningAnswer) && Step(t, Cancel(id)).procs == t.procs[id := true])
  {
    HeldFacts(s, w);
    hide Inv;
  }

  /** Any other exception fails the row with the first 500 characters of its message, and frees the worker. */
  lemma ExceptionDecides(s: State, w: nat, message: string)
    requires Inv(s) && Enabled(s, Raised(w, message))
    ensures var id, t := s.workers[w].id, Step(s, Raised(w, message));
            && (id in s.db ==> t.db == s.db[id := Recording(VodFailed, Some(if |message| <= 500 then message else message[..500]))])
            && id !in t.procs && t.workers[w] == (if s.running then Waiting else Stopped)
            && t.unfinished == s.unfinished - 1
  {
    HeldFacts(s, w);
    hide Inv;
  }
}
