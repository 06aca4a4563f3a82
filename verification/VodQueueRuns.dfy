/**
  What the ownership invariant gives: the promises of the VOD queue over whole
  runs, from any database a crash can have left behind.
 */
module VodQueueRuns {
  import opened Wrappers
  import opened VodQueueSpec
  import opened VodQueueInvariant

  lemma {:induction false} RunsKeepInv(s: State, run: seq<Action>)
    requires Inv(s) && Legal(s, run)
    ensures Inv(After(s, run))
    decreases run
  {
    hide Inv, Step;
    if run == [] {
    } else {
      StepKeepsInv(s, run[0]);
      RunsKeepInv(Step(s, run[0]), run[1..]);
    }
  }

  /** Every state of every run from startup satisfies the ownership invariant. */
  lemma StartupRunsKeepInv(db: Rows, issued: set<nat>, cap: int, run: seq<Action>)
    requires db.Keys <= issued && Legal(Boot(db, issued, cap), run)
    ensures Inv(After(Boot(db, issued, cap), run))
  {
    BootKeepsInv(db, issued, cap);
    RunsKeepInv(Boot(db, issued, cap), run);
  }

  predicate Holds(p: Phase, id: nat) {
    p == Spawning(id) || p == Running(id) || p == Probing(id) || (p.Publishing? && p.id == id) || p == Abandoned(id)
  }

  /**
    Who owns an id, in every state of every run from startup: it occurs at most
    once in the FIFO, the ids about to be enqueued and the workers' hands; its row
    is vod_queued exactly in one of the first two places, and vod_downloading only
    in one worker's hands; and the registry lists the ids with a live process.
   */
  lemma EveryIdHasOneOwner(db: Rows, issued: set<nat>, cap: int, run: seq<Action>, id: nat)
    requires db.Keys <= issued && Legal(Boot(db, issued, cap), run)
    ensures var s := After(Boot(db, issued, cap), run);
            && !(id in s.fifo && id in s.pending)
            && (forall i :: 0 <= i < |s.workers| && Holds(s.workers[i], id) ==> id !in s.fifo && id !in s.pending)
            && (forall i, j :: 0 <= i < |s.fifo| && 0 <= j < |s.fifo| && s.fifo[i] == id == s.fifo[j] ==> i == j)
            && (forall i, j :: 0 <= i < |s.workers| && 0 <= j < |s.workers| && Holds(s.workers[i], id) && Holds(s.workers[j], id) ==> i == j)
            && (id in s.db ==> (s.db[id].status == VodQueued <==> id in s.fifo || id in s.pending))
            && (id in s.db ==> (s.db[id].status == VodDownloading <==>
                                  exists i :: 0 <= i < |s.workers| && Holds(s.workers[i], id) && !s.workers[i].Publishing?))
            && (id in s.procs <==> exists i :: 0 <= i < |s.workers| && s.workers[i] == Running(id))
  {
    StartupRunsKeepInv(db, issued, cap, run);
    hide Boot, After, Legal, Known, FlagsLive, CountsTell, Conserved;
  }

  /** What was popped, then what is in the FIFO, is what was put; what was dispatched is what was popped and not cancelled. */
  lemma FifoIsConserved(db: Rows, issued: set<nat>, cap: int, run: seq<Action>)
    requires db.Keys <= issued && Legal(Boot(db, issued, cap), run)
    ensures var s := After(Boot(db, issued, cap), run);
            && Items(s.log.popped) + s.fifo == s.log.put
            && s.log.dispatched == Survivors(s.log.popped)
            && s.unfinished == |s.fifo| + CountBusy(s.workers)
  {
    StartupRunsKeepInv(db, issued, cap, run);
    hide Boot, After, Legal, Placement, Known, RowsTell, RegistryTells, FlagsLive;
  }

  // ------------------------------------------------------------------ lifecycle

  /** The edges of the documented lifecycle; a restart has one of its own. */
  predicate Edge(a: Action, before: Status, after: Status) {
    || before == after
    || (a.Pop? && before == VodQueued && after in {VodDownloading, VodCancelled, VodFailed})
    || (a.Exited? && before == VodDownloading && after in {VodCancelled, VodFailed})
    || (a.Raised? && before == VodDownloading && after == VodFailed)
    || (a.Probed? && before == VodDownloading && after == Complete)
    || (a.Retry? && before == VodFailed && after == VodQueued)
    || (a.Restart? && before == VodDownloading && after == VodQueued)
  }

  /**
    No step moves a row except along an edge, although the handler writes
    vod_downloading, and later complete, without looking at what it overwrites.
   */
  lemma StepsFollowEdges(s: State, a: Action, id: nat)
    requires Inv(s) && Enabled(s, a) && id in s.db && id in Step(s, a).db
    ensures Edge(a, s.db[id].status, Step(s, a).db[id].status)
  {
    hide RegistryTells, FlagsLive, CountsTell, Conserved, AfterPop;
    if a.Pop? {
      PopFollowsEdges(s, a.w, a.streamMissing, id);
    }
  }

  lemma PopFollowsEdges(s: State, w: nat, missing: bool, id: nat)
    requires Inv(s) && Enabled(s, Pop(w, missing)) && id in s.db
    ensures id in Step(s, Pop(w, missing)).db
    ensures Edge(Pop(w, missing), s.db[id].status, Step(s, Pop(w, missing)).db[id].status)
    ensures s.db[id].status in {Complete, VodCancelled} ==> Step(s, Pop(w, missing)).db[id] == s.db[id]
  {
    hide Known, RegistryTells, FlagsLive, CountsTell, Conserved;
    assert s.fifo[0] in s.fifo;
  }

  lemma FinalRowsUntouched(s: State, a: Action, id: nat)
    requires Inv(s) && Enabled(s, a)
    requires id in s.db && s.db[id].status in {Complete, VodCancelled} && id in Step(s, a).db
    ensures Step(s, a).db[id] == s.db[id]
  {
    hide RegistryTells, FlagsLive, CountsTell, Conserved, AfterPop;
    if a.Pop? {
      PopFollowsEdges(s, a.w, a.streamMissing, id);
    }
  }

  lemma IdsAreNotReused(s: State, a: Action, id: nat)
    requires Inv(s) && Enabled(s, a)
    ensures id in s.db ==> id in Step(s, a).issued
    ensures id in s.issued ==> id in Step(s, a).issued && (id !in s.db ==> id !in Step(s, a).db)
  {
    hide Placement, RowsTell, RegistryTells, FlagsLive, CountsTell, Conserved;
  }

  /** A complete or cancelled row keeps its contents in every run, until it is deleted; then it stays away. */
  lemma {:induction false} FinalStatusesAreFinal(s: State, run: seq<Action>, id: nat)
    requires Inv(s) && Legal(s, run) && id in s.issued
    requires id in s.db ==> s.db[id].status in {Complete, VodCancelled}
    ensures id in After(s, run).db ==> id in s.db && After(s, run).db[id] == s.db[id]
    decreases run
  {
    hide Inv, Step;
    if run == [] {
    } else {
      var t := Step(s, run[0]);
      StepKeepsInv(s, run[0]);
      IdsAreNotReused(s, run[0], id);
      if id in s.db && id in t.db {
        FinalRowsUntouched(s, run[0], id);
      }
      FinalStatusesAreFinal(t, run[1..], id);
    }
  }

  /**
    How a download ends.  The exit code decides: killed by a signal is cancelled
    for good, any other failure keeps its message and can be retried, and success
    goes on to the probe; in each case the process is no longer registered, no
    cancel finds the recording any more, and no other row changes.
   */
  lemma ExitCodeDecides(s: State, w: nat, code: int, output: string)
    requires Inv(s) && Enabled(s, Exited(w, code, output)) && s.workers[w].id in s.db
    ensures var id, t := s.workers[w].id, Step(s, Exited(w, code, output));
            && id !in t.procs
            && (code < 0 ==> t.db == s.db[id := Recording(VodCancelled, None)] && RetryReply(t, id) == Conflict409)
            && (code > 0 ==> t.db == s.db[id := Recording(VodFailed, Some(if |output| <= 500 then output else output[..500]))] && RetryReply(t, id) == Replied(()))
            && (code == 0 ==> t.db == s.db && t.workers[w] == Probing(id) && CancelReply(t, id) == Replied(NotFoundAnswer))
            && (code != 0 ==> !t.workers[w].Carries() && CancelReply(t, id) == Conflict409)
  {
    hide Placement, Known, FlagsLive, CountsTell, Conserved, RegistryTells;
  }

  /** What becomes of an entry that was not cancelled: its stream's absence fails it, else the download begins. */
  lemma DispatchDecides(s: State, w: nat, missing: bool)
    requires Inv(s) && Enabled(s, Pop(w, missing)) && s.fifo[0] >= 0 && s.fifo[0] !in s.cancelled && s.fifo[0] in s.db
    ensures var id: nat, t := s.fifo[0], Step(s, Pop(w, missing));
            && s.db[id].status == VodQueued
            && t.db == s.db[id := if missing then Recording(VodFailed, Some("stream missing")) else s.db[id].(status := VodDownloading)]
            && t.workers[w] == (if !missing then Spawning(id) else if s.running then Waiting else Stopped)
            && t.log.dispatched == s.log.dispatched + [id]
  {
    QueuedFacts(s, s.fifo[0]);
    hide Inv;
  }

  // ---------------------------------------------------------- messages of failures

  /** A failed row says why; a row on its way says nothing.  Of complete and cancelled rows nothing is claimed. */
  ghost predicate ErrorsTell(db: Rows) {
    forall id :: id in db ==>
      && (db[id].status == VodFailed ==> db[id].error.Some?)
      && (db[id].status in {VodQueued, VodDownloading} ==> db[id].error.None?)
  }

  lemma StepKeepsErrors(s: State, a: Action)
    requires Inv(s) && Enabled(s, a) && ErrorsTell(s.db)
    ensures ErrorsTell(Step(s, a).db)
  {
    hide Placement, Known, RegistryTells, FlagsLive, CountsTell, Conserved;
    match a
    case Pop(w, missing) => PopKeepsErrors(s, w, missing);
    case Exited(w, code, output) => ExitKeepsErrors(s, w, code, output);
    case Probed(w, publishes) => ProbeKeepsErrors(s, w, publishes);
    case Restart(cap) => assert ErrorsTell(Recover(s.db));
    case _ => hide AfterPop, AfterExit, AfterProbe, Boot, RowsTell;
  }

  lemma ExitKeepsErrors(s: State, w: nat, code: int, output: string)
    requires Enabled(s, Exited(w, code, output)) && ErrorsTell(s.db)
    ensures ErrorsTell(AfterExit(s, w, code, output).db)
  {}

  lemma ProbeKeepsErrors(s: State, w: nat, publishes: nat)
    requires Enabled(s, Probed(w, publishes)) && ErrorsTell(s.db)
    ensures ErrorsTell(AfterProbe(s, w, publishes).db)
  {}

  lemma PopKeepsErrors(s: State, w: nat, missing: bool)
    requires Inv(s) && Enabled(s, Pop(w, missing)) && ErrorsTell(s.db)
    ensures ErrorsTell(AfterPop(s, w, missing).db)
  {
    var item := s.fifo[0];
    if item >= 0 {
      QueuedFacts(s, item);
    }
    hide Inv, Dispatched, ErrorsTell;
    if item >= 0 {
      WritesKeepErrors(s.db, item);
      if item !in s.cancelled {
        var log := s.log.(popped := s.log.popped + [Popped(item, false)], dispatched := s.log.dispatched + [item]);
        DispatchKeepsErrors(s.(fifo := s.fifo[1..], log := log), w, item, missing);
      }
    }
  }

  lemma WritesKeepErrors(db: Rows, id: nat)
    requires ErrorsTell(db) && (id in db ==> db[id].status == VodQueued)
    ensures ErrorsTell(SetStatus(db, id, VodCancelled)) && ErrorsTell(SetStatus(db, id, VodDownloading))
  {}

  lemma DispatchKeepsErrors(s: State, w: nat, id: nat, missing: bool)
    requires w < |s.workers| && ErrorsTell(s.db) && (id in s.db ==> s.db[id].status == VodQueued)
    ensures ErrorsTell(Dispatched(s, w, id, missing).db)
  {
    WritesKeepErrors(s.db, id);
  }

  /** So a retry, which clears the message, is all it takes to bring a failed row back as it was when new. */
  lemma {:induction false} MessagesFollowFailures(s: State, run: seq<Action>, id: nat)
    requires Inv(s) && Legal(s, run) && ErrorsTell(s.db)
    ensures ErrorsTell(After(s, run).db)
    ensures RetryReply(After(s, run), id).Replied? ==>
              After(s, run).db[id].error.Some? && Step(After(s, run), Retry(id)).db[id] == Recording(VodQueued, None)
    decreases run
  {
    if run == [] {
    } else {
      StepKeepsInv(s, run[0]);
      StepKeepsErrors(s, run[0]);
      hide Inv, Step;
      MessagesFollowFailures(Step(s, run[0]), run[1..], id);
    }
  }

  // --------------------------------------------------------------- cancellation

  ghost predicate Uninterrupted(run: seq<Action>) {
    forall i :: 0 <= i < |run| ==> !run[i].Restart?
  }

  ghost predicate Carried(ws: seq<Phase>, id: nat) {
    exists i :: 0 <= i < |ws| && ws[i].Carries() && ws[i].id == id
  }

  /** Nothing in the process will handle this id again. */
  ghost predicate Gone(s: State, id: nat) {
    && id in s.issued && id !in s.fifo && id !in s.pending && !Carried(s.workers, id)
    && (id in s.db ==> s.db[id].status == VodCancelled)
  }

  /** A cancel that answered "queued" is still waiting for its entry, or has done its work. */
  ghost predicate CancelPending(s: State, id: nat) {
    id in s.cancelled || Gone(s, id)
  }

  lemma NewlyCarried(ws: seq<Phase>, w: nat, p: Phase, id: nat)
    requires w < |ws| && !Carried(ws, id)
    requires p.Carries() && p.id == id ==> ws[w].Carries() && ws[w].id == id
    ensures !Carried(ws[w := p], id)
    ensures ws[w].Carries() ==> ws[w].id != id
  {
    assert forall i :: 0 <= i < |ws| && i != w ==> ws[w := p][i] == ws[i];
  }

  lemma GoneStaysGone(s: State, a: Action, id: nat)
    requires Enabled(s, a) && !a.Restart? && Gone(s, id)
    ensures Gone(Step(s, a), id)
    ensures multiset(Step(s, a).log.dispatched)[id] == multiset(s.log.dispatched)[id]
  {
    if a.Pop? {
      GoneThroughPop(s, a.w, a.streamMissing, id);
    } else if WorkerStep(a) || a.TimedOut? {
      GoneThroughWorker(s, a, id);
    } else {
      hide Carried;
    }
  }

  lemma DispatchTouches(s: State, w: nat, id: nat, missing: bool)
    requires w < |s.workers|
    ensures var t := Dispatched(s, w, id, missing);
            && t.fifo == s.fifo && t.pending == s.pending && t.issued == s.issued && t.log == s.log && t.cancelled == s.cancelled
            && t.workers == s.workers[w := t.workers[w]] && (t.workers[w].Carries() ==> t.workers[w].id == id)
            && t.db.Keys == s.db.Keys && (forall other :: other in s.db && other != id ==> t.db[other] == s.db[other])
  {}

  /** A pop touches the popping worker, the head's row, and nothing that belongs to another id. */
  lemma PopTouchesItsOwn(s: State, w: nat, missing: bool)
    requires Enabled(s, Pop(w, missing))
    ensures var t := AfterPop(s, w, missing);
            && t.fifo == s.fifo[1..] && t.pending == s.pending && t.issued == s.issued
            && (forall id :: id != s.fifo[0] && id in s.cancelled ==> id in t.cancelled)
            && t.workers == s.workers[w := t.workers[w]]
            && (t.workers[w].Carries() ==> t.workers[w].id == s.fifo[0])
            && t.db.Keys == s.db.Keys && (forall id :: id in s.db && id != s.fifo[0] ==> t.db[id] == s.db[id])
            && (t.log.dispatched == s.log.dispatched || t.log.dispatched == s.log.dispatched + [s.fifo[0]])
  {
    hide Dispatched;
    var item := s.fifo[0];
    if item != SENTINEL && item !in s.cancelled {
      var log := s.log.(popped := s.log.popped + [Popped(item, false)], dispatched := s.log.dispatched + [item]);
      DispatchTouches(s.(fifo := s.fifo[1..], log := log), w, item, missing);
    }
  }

  lemma GoneThroughPop(s: State, w: nat, missing: bool, id: nat)
    requires Enabled(s, Pop(w, missing)) && Gone(s, id)
    ensures Gone(Step(s, Pop(w, missing)), id)
    ensures multiset(Step(s, Pop(w, missing)).log.dispatched)[id] == multiset(s.log.dispatched)[id]
  {
    PopTouchesItsOwn(s, w, missing);
    hide Carried, AfterPop;
    var t := AfterPop(s, w, missing);
    assert s.fifo == [s.fifo[0]] + t.fifo;
    NewlyCarried(s.workers, w, t.workers[w], id);
  }

  lemma GoneThroughWorker(s: State, a: Action, id: nat)
    requires Enabled(s, a) && (WorkerStep(a) || a.TimedOut?) && !a.Pop? && Gone(s, id)
    ensures Gone(Step(s, a), id)
    ensures Step(s, a).log == s.log
  {
    hide Carried;
    var t := Step(s, a);
    assert t.workers == s.workers[a.w := t.workers[a.w]];
    NewlyCarried(s.workers, a.w, t.workers[a.w], id);
  }

  /** The flagged entry reaches the head of the FIFO and is skipped. */
  lemma FlaggedEntryIsSkipped(s: State, w: nat, missing: bool)
    requires Inv(s) && Enabled(s, Pop(w, missing)) && s.fifo[0] >= 0 && s.fifo[0] in s.cancelled
    ensures Gone(Step(s, Pop(w, missing)), s.fifo[0])
  {
    hide RegistryTells, CountsTell, Conserved;
    var id := s.fifo[0];
    var t := Step(s, Pop(w, missing));
    assert s.fifo == [id] + t.fifo;
    assert !Carried(s.workers, id);
    NewlyCarried(s.workers, w, t.workers[w], id);
  }

  lemma CancelStaysPending(s: State, a: Action, id: nat)
    requires Inv(s) && Enabled(s, a) && !a.Restart? && CancelPending(s, id)
    ensures CancelPending(Step(s, a), id)
    ensures multiset(Step(s, a).log.dispatched)[id] == multiset(s.log.dispatched)[id]
  {
    hide Inv, Gone;
    if Gone(s, id) {
      hide Step;
      GoneStaysGone(s, a, id);
    } else if a.Pop? {
      FlagThroughPop(s, a.w, a.streamMissing, id);
    } else {
      hide AfterPop;
    }
  }

  lemma FlagThroughPop(s: State, w: nat, missing: bool, id: nat)
    requires Inv(s) && Enabled(s, Pop(w, missing)) && id in s.cancelled
    ensures CancelPending(AfterPop(s, w, missing), id)
    ensures multiset(AfterPop(s, w, missing).log.dispatched)[id] == multiset(s.log.dispatched)[id]
  {
    if s.fifo[0] == id {
      FlaggedEntryIsSkipped(s, w, missing);
    } else {
      PopTouchesItsOwn(s, w, missing);
      hide Inv, Gone, AfterPop;
    }
  }

  /**
    If cancel answers "queued", the entry is never dispatched to the handler in
    this process, and once it has left the queue its row, unless deleted, is vod_cancelled.
   */
  lemma {:induction false} QueuedCancelIsExact(s: State, run: seq<Action>, id: nat)
    requires Inv(s) && CancelPending(s, id) && Legal(s, run) && Uninterrupted(run)
    ensures CancelPending(After(s, run), id)
    ensures multiset(After(s, run).log.dispatched)[id] == multiset(s.log.dispatched)[id]
    decreases run
  {
    hide Inv, Step, CancelPending;
    if run == [] {
    } else {
      StepKeepsInv(s, run[0]);
      CancelStaysPending(s, run[0], id);
      QueuedCancelIsExact(Step(s, run[0]), run[1..], id);
    }
  }

  /** The same from the endpoint's answer on, told by where the entry is. */
  lemma QueuedCancelEndsCancelled(s: State, id: nat, run: seq<Action>)
    requires Inv(s) && CancelReply(s, id) == Replied(QueuedAnswer)
    requires Legal(Step(s, Cancel(id)), run) && Uninterrupted(run)
    ensures var u := After(Step(s, Cancel(id)), run);
            && multiset(u.log.dispatched)[id] == multiset(s.log.dispatched)[id]
            && (id !in u.fifo && id !in u.pending ==> id !in u.cancelled && (id in u.db ==> u.db[id].status == VodCancelled))
  {
    var t := Step(s, Cancel(id));
    StepKeepsInv(s, Cancel(id));
    RunsKeepInv(t, run);
    CancelAnswersTell(s, id);
    CancelWritesNoLog(s, id);
    hide *;
    QueuedCancelIsExact(t, run, id);
    if id !in After(t, run).fifo && id !in After(t, run).pending {
      PendingOrDone(After(t, run), id);
    }
  }

  lemma CancelWritesNoLog(s: State, id: nat)
    ensures Step(s, Cancel(id)).log == s.log
    ensures CancelReply(s, id) == Replied(QueuedAnswer) ==> CancelAnswerOf(s, id) == QueuedAnswer
  {}

  lemma PendingOrDone(s: State, id: nat)
    requires Inv(s) && CancelPending(s, id) && id !in s.fifo && id !in s.pending
    ensures id !in s.cancelled && (id in s.db ==> s.db[id].status == VodCancelled)
  {
    hide Placement, Known, RowsTell, RegistryTells, CountsTell, Conserved;
  }

  /** An entry whose row was deleted meanwhile passes through a worker and leaves nothing behind. */
  lemma DeletedEntryIsDropped(s: State, w: nat, missing: bool)
    requires Inv(s) && Enabled(s, Pop(w, missing)) && s.fifo[0] >= 0 && s.fifo[0] !in s.db
    ensures var t := Step(s, Pop(w, missing));
            && t.db == s.db && t.procs == s.procs && t.fifo == s.fifo[1..] && t.pending == s.pending
            && t.cancelled == s.cancelled - {s.fifo[0]}
            && t.workers == s.workers[w := if s.running then Waiting else Stopped]
            && t.unfinished == s.unfinished - 1
  {
    hide Known, RowsTell, FlagsLive, CountsTell, Conserved;
    assert s.fifo[0] in s.fifo;
    assert s.fifo[0] !in s.procs;
    assert s.procs - {s.fifo[0]} == s.procs;
  }

  /** Cancel's answer tells exactly where the recording is. */
  lemma CancelAnswersTell(s: State, id: nat)
    requires Inv(s)
    ensures CancelAnswerOf(s, id) == RunningAnswer <==> HeldRunning(s.workers, id)
    ensures CancelAnswerOf(s, id) == QueuedAnswer <==> id in s.db && (id in s.fifo || id in s.pending)
    ensures CancelAnswerOf(s, id) == QueuedAnswer ==> CancelPending(Step(s, Cancel(id)), id)
  {
    hide Known, FlagsLive, CountsTell, Conserved;
    assert HeldRunning(s.workers, id) ==> id !in s.fifo && id !in s.pending;
  }

  /**
    The endpoint promises to terminate the download of a vod_downloading row.
    It does exactly when the row's worker has registered its process and not yet
    read the exit code; before and after, it answers "not_found" and changes nothing.
   */
  lemma DownloadingCancelHits(s: State, id: nat)
    requires Inv(s) && id in s.db && s.db[id].status == VodDownloading
    ensures CancelReply(s, id) == Replied(if HeldRunning(s.workers, id) then RunningAnswer else NotFoundAnswer)
    ensures if HeldRunning(s.workers, id) then Step(s, Cancel(id)) == s.(procs := s.procs[id := true])
            else Step(s, Cancel(id)) == s
  {
    hide Placement, Known, FlagsLive, CountsTell, Conserved;
  }

  /** A "queued" cancel lives in memory only: after a restart the entry is back, unflagged. */
  lemma RestartForgetsQueuedCancel(s: State, id: nat, cap: int)
    requires Inv(s) && CancelReply(s, id) == Replied(QueuedAnswer)
    ensures var t := Step(Step(s, Cancel(id)), Restart(cap));
            id in t.fifo && id !in t.cancelled && id in t.db && t.db[id].status == VodQueued
  {
    hide Inv;
    var u := Step(s, Cancel(id));
    assert id in IdsWith(Recover(u.db), VodQueued);
  }

  // ------------------------------------------------------------- concurrency cap

  function TransferIds(ws: seq<Phase>): set<nat> {
    if ws == [] then {} else (if ws[0].Transfers() then {ws[0].id} else {}) + TransferIds(ws[1..])
  }

  lemma {:induction false} TransferIdsBounded(ws: seq<Phase>)
    ensures |TransferIds(ws)| <= |ws|
    ensures forall id :: HeldInTransfer(ws, id) ==> id in TransferIds(ws)
  {
    if ws == [] {
    } else {
      TransferIdsBounded(ws[1..]);
      forall id | HeldInTransfer(ws, id)
        ensures id in TransferIds(ws)
      {
        var i :| 0 <= i < |ws| && ws[i].Transfers() && ws[i].id == id;
        if i > 0 {
          assert ws[1..][i - 1] == ws[i];
        }
      }
    }
  }

  lemma SubsetIsSmaller(a: set<nat>, b: set<nat>)
    requires a <= b
    ensures |a| <= |b|
  {
    assert b == a + (b - a);
  }

  lemma DownloadsNeedWorkers(s: State)
    requires Inv(s)
    ensures |IdsWith(s.db, VodDownloading)| <= |s.workers|
  {
    hide Placement, Known, RegistryTells, FlagsLive, CountsTell, Conserved;
    TransferIdsBounded(s.workers);
    SubsetIsSmaller(IdsWith(s.db, VodDownloading), TransferIds(s.workers));
  }

  lemma {:induction false} WorkerCountIsConstant(s: State, run: seq<Action>)
    requires Legal(s, run) && Uninterrupted(run)
    ensures |After(s, run).workers| == |s.workers|
    decreases run
  {
    if run == [] {
    } else {
      assert |Step(s, run[0]).workers| == |s.workers|;
      hide Step;
      WorkerCountIsConstant(Step(s, run[0]), run[1..]);
    }
  }

  /** From any startup on, at most max(1, cap) rows read vod_downloading. */
  lemma ConcurrencyCap(db: Rows, issued: set<nat>, cap: int, run: seq<Action>)
    requires db.Keys <= issued
    requires Legal(Boot(db, issued, cap), run) && Uninterrupted(run)
    ensures |IdsWith(After(Boot(db, issued, cap), run).db, VodDownloading)| <= if cap < 1 then 1 else cap
  {
    StartupRunsKeepInv(db, issued, cap, run);
    WorkerCountIsConstant(Boot(db, issued, cap), run);
    DownloadsNeedWorkers(After(Boot(db, issued, cap), run));
  }

  // ----------------------------------------------------- join, restart, shutdown

  lemma {:induction false} NoneBusy(ws: seq<Phase>, i: nat)
    requires i < |ws|
    ensures ws[i].Busy() ==> CountBusy(ws) >= 1
    ensures ws[i].Waiting? ==> CountWaiting(ws) >= 1
  {
    if i == 0 {
    } else {
      NoneBusy(ws[1..], i - 1);
    }
  }

  /** wait_for_idle() returns only when every entry put so far was popped and handled to its end. */
  lemma JoinMeansHandled(s: State)
    requires Inv(s) && s.unfinished == 0
    ensures Items(s.log.popped) == s.log.put && s.log.dispatched == Survivors(s.log.popped)
    ensures forall i :: 0 <= i < |s.workers| ==>
              match s.workers[i]
              case Created => true
              case Waiting => true
              case Stopped => true
              case Abandoned(_) => true
              case _ => false
    ensures forall id :: id in s.db && s.db[id].status == VodQueued ==> id in s.pending
  {
    hide Placement, Known, RegistryTells, FlagsLive;
    assert s.fifo == [];
    forall i | 0 <= i < |s.workers|
      ensures !s.workers[i].Busy()
    {
      NoneBusy(s.workers, i);
    }
  }

  /** After a restart nothing reads vod_downloading and the FIFO lists the queued rows by id. */
  lemma RestartRequeues(s: State, cap: int)
    requires Inv(s)
    ensures var t := Step(s, Restart(cap));
            && t.db.Keys == s.db.Keys
            && (forall id :: id in s.db && s.db[id].status == VodDownloading ==> t.db[id] == s.db[id].(status := VodQueued))
            && (forall id :: id in s.db && s.db[id].status != VodDownloading ==> t.db[id] == s.db[id])
            && (forall i, j :: 0 <= i < j < |t.fifo| ==> t.fifo[i] < t.fifo[j])
            && (forall x :: x in t.fifo ==> x >= 0 && x in t.db)
            && (forall id :: id in t.db ==> (id in t.fifo <==> s.db[id].status in {VodQueued, VodDownloading}))
            && |t.workers| == (if cap < 1 then 1 else cap) && (forall w :: 0 <= w < |t.workers| ==> t.workers[w] == Created)
            && t.procs == map[] && t.cancelled == {} && t.pending == {} && t.running
  {
    hide Inv;
    var t := Step(s, Restart(cap));
    assert forall id :: id in t.db ==> (id in t.fifo <==> id in IdsWith(t.db, VodQueued));
  }

  /** How many steps of its own a worker of a stopping queue has left at most. */
  function Worth(p: Phase): nat {
    match p
    case Created => 1
    case Waiting => 5
    case Spawning(_) => 4
    case Running(_) => 3
    case Probing(_) => 2
    case Publishing(_, left) => 1 + left
    case Stopped => 0
    case Abandoned(_) => 0
  }

  function TotalWorth(ws: seq<Phase>): nat {
    if ws == [] then 0 else Worth(ws[0]) + TotalWorth(ws[1..])
  }

  predicate WorkerStep(a: Action) {
    a.Begin? || a.Pop? || a.Spawned? || a.Exited? || a.Probed? || a.Raised? || a.PublishReturned?
  }

  function WorkerSteps(run: seq<Action>): nat {
    if run == [] then 0 else (if WorkerStep(run[0]) then 1 else 0) + WorkerSteps(run[1..])
  }

  /** How many publishes the downloads finishing in this run hand to their workers. */
  function PublishesIn(run: seq<Action>): nat {
    if run == [] then 0 else (if run[0].Probed? then run[0].publishes else 0) + PublishesIn(run[1..])
  }

  function Takes(w: nat, run: seq<Action>): nat {
    if run == [] then 0 else (if run[0].Pop? && run[0].w == w then 1 else 0) + Takes(w, run[1..])
  }

  lemma {:induction false} WorthAfterUpdate(ws: seq<Phase>, w: nat, p: Phase)
    requires w < |ws|
    ensures TotalWorth(ws[w := p]) == TotalWorth(ws) - Worth(ws[w]) + Worth(p)
  {
    if w == 0 {
      assert ws[w := p][1..] == ws[1..];
    } else {
      assert ws[w := p][1..] == ws[1..][w - 1 := p];
      WorthAfterUpdate(ws[1..], w - 1, p);
    }
  }

  lemma StoppingStep(s: State, a: Action)
    requires Enabled(s, a) && !a.Restart? && !s.running
    ensures !Step(s, a).running && |Step(s, a).workers| == |s.workers|
    ensures TotalWorth(Step(s, a).workers) + (if WorkerStep(a) then 1 else 0)
         <= TotalWorth(s.workers) + (if a.Probed? then a.publishes else 0)
    ensures forall w :: 0 <= w < |s.workers| ==>
              (Step(s, a).workers[w].Waiting? ==> s.workers[w].Waiting? && !(a.Pop? && a.w == w))
  {
    var t := Step(s, a);
    if WorkerStep(a) || a.TimedOut? {
      StoppingPhase(s, a);
      hide Step;
      WorthAfterUpdate(s.workers, a.w, t.workers[a.w]);
    }
  }

  lemma StoppingPhase(s: State, a: Action)
    requires Enabled(s, a) && !s.running && (WorkerStep(a) || a.TimedOut?)
    ensures var t := Step(s, a);
            && !t.running
            && |t.workers| == |s.workers|
            && t.workers == s.workers[a.w := t.workers[a.w]]
            && !t.workers[a.w].Waiting?
            && Worth(t.workers[a.w]) + (if WorkerStep(a) then 1 else 0)
               <= Worth(s.workers[a.w]) + (if a.Probed? then a.publishes else 0)
            && (a.Pop? ==> s.workers[a.w].Waiting?)
  {
    if a.Pop? {
      PoppingPhase(s, a.w, a.streamMissing);
    }
  }

  lemma PoppingPhase(s: State, w: nat, missing: bool)
    requires Enabled(s, Pop(w, missing)) && !s.running
    ensures var t := AfterPop(s, w, missing);
            && !t.running
            && t.workers == s.workers[w := t.workers[w]]
            && (t.workers[w].Stopped? || t.workers[w].Spawning?)
  {}

  /**
    After stop(), whatever else happens, the workers take a bounded number of
    steps and each takes at most one more entry off the FIFO.
   */
  lemma {:induction false} StoppingIsBounded(s: State, run: seq<Action>, w: nat)
    requires Legal(s, run) && Uninterrupted(run) && !s.running && w < |s.workers|
    ensures WorkerSteps(run) + TotalWorth(After(s, run).workers) <= TotalWorth(s.workers) + PublishesIn(run)
    ensures Takes(w, run) <= if s.workers[w].Waiting? then 1 else 0
    ensures !After(s, run).running
    decreases run
  {
    if run == [] {
    } else {
      hide Step;
      StoppingStep(s, run[0]);
      StoppingIsBounded(Step(s, run[0]), run[1..], w);
    }
  }

  /** A worker of a stopping queue that has not ended is never stuck on an empty FIFO. */
  lemma StoppingNeverStuck(s: State, w: nat)
    requires Inv(s) && !s.running && w < |s.workers|
    requires !s.workers[w].Stopped? && !s.workers[w].Abandoned?
    ensures exists a :: WorkerStep(a) && a.w == w && Enabled(s, a)
  {
    hide Known, RowsTell, RegistryTells, FlagsLive, Conserved;
    var p := s.workers[w];
    NoneBusy(s.workers, w);
    var a := match p
      case Created => Begin(w)
      case Waiting => Pop(w, false)
      case Spawning(_) => Spawned(w)
      case Running(_) => Exited(w, 0, "")
      case Probing(_) => Probed(w, 0)
      case _ => PublishReturned(w);
    assert WorkerStep(a) && a.w == w && Enabled(s, a);
  }
}
