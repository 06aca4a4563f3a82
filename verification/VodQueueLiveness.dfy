/**
  That the VOD queue gets on: while it runs no worker is lost and every entry is
  taken after a bounded number of worker steps; once stopped, every worker ends.
 */
module VodQueueLiveness {
  import opened Wrappers
  import opened VodQueueSpec
  import opened VodQueueInvariant
  import opened VodQueueRuns

  ghost predicate NeverStopped(run: seq<Action>) {
    forall i :: 0 <= i < |run| ==> !run[i].Stop?
  }

  // ---------------------------------------------------------------- a running queue

  /** No worker has ended, and nothing in the FIFO would end one. */
  ghost predicate Alive(s: State) {
    && s.running && |s.workers| >= 1
    && (forall w :: 0 <= w < |s.workers| ==> !s.workers[w].Stopped? && !s.workers[w].Abandoned?)
    && (forall i :: 0 <= i < |s.fifo| ==> s.fifo[i] >= 0)
  }

  lemma PopKeepsAlive(s: State, w: nat, missing: bool)
    requires Alive(s) && Enabled(s, Pop(w, missing))
    ensures Alive(AfterPop(s, w, missing))
  {
    PopTouchesItsOwn(s, w, missing);
    PopPhase(s, w, missing);
    hide AfterPop;
  }

  lemma PopPhase(s: State, w: nat, missing: bool)
    requires Alive(s) && Enabled(s, Pop(w, missing))
    ensures var t := AfterPop(s, w, missing); t.running && (t.workers[w].Waiting? || t.workers[w].Spawning?)
  {}

  lemma StepKeepsAlive(s: State, a: Action)
    requires Alive(s) && Enabled(s, a) && !a.Stop?
    ensures Alive(Step(s, a))
  {
    if a.Pop? {
      PopKeepsAlive(s, a.w, a.streamMissing);
    } else {
      hide AfterPop, Ascending;
    }
  }

  lemma {:induction false} RunsKeepAlive(s: State, run: seq<Action>)
    requires Alive(s) && Legal(s, run) && NeverStopped(run)
    ensures Alive(After(s, run))
    decreases run
  {
    if run == [] {
    } else {
      StepKeepsAlive(s, run[0]);
      hide Step, Alive;
      RunsKeepAlive(Step(s, run[0]), run[1..]);
    }
  }

  /**
    In every run from startup without a stop, restarts included, the queue is
    running and no worker has returned or been abandoned; and while the FIFO is
    not empty, every worker has a step to take.
   */
  lemma NoWorkerIsLost(db: Rows, issued: set<nat>, cap: int, run: seq<Action>, w: nat)
    requires Legal(Boot(db, issued, cap), run) && NeverStopped(run) && w < |After(Boot(db, issued, cap), run).workers|
    ensures var s := After(Boot(db, issued, cap), run);
            && s.running && s.workers[w] != Stopped && (forall id :: s.workers[w] != Abandoned(id))
            && (s.fifo != [] ==> exists a :: WorkerStep(a) && a.w == w && Enabled(s, a))
            && (s.fifo != [] && s.workers[w] == Waiting ==> forall missing :: Enabled(s, Pop(w, missing)))
  {
    assert Alive(Boot(db, issued, cap));
    RunsKeepAlive(Boot(db, issued, cap), run);
    hide Boot, Legal, After;
    var s := After(Boot(db, issued, cap), run);
    var a := OwnStep(s.workers[w], w);
    assert s.fifo != [] ==> WorkerStep(a) && a.w == w && Enabled(s, a);
  }

  function OwnStep(p: Phase, w: nat): Action {
    match p
    case Created => Begin(w)
    case Waiting => Pop(w, false)
    case Spawning(_) => Spawned(w)
    case Running(_) => Exited(w, 0, "")
    case Probing(_) => Probed(w, 0)
    case _ => PublishReturned(w)
  }

  // ------------------------------------------------------------ every entry is taken

  /** How many steps of its own a worker of a running queue has left at most before it waits. */
  function Ahead(p: Phase): nat {
    match p
    case Created => 1
    case Waiting => 0
    case Spawning(_) => 4
    case Running(_) => 3
    case Probing(_) => 2
    case Publishing(_, left) => 1 + left
    case _ => 0
  }

  function TotalAhead(ws: seq<Phase>): nat {
    if ws == [] then 0 else Ahead(ws[0]) + TotalAhead(ws[1..])
  }

  function Pops(run: seq<Action>): nat {
    if run == [] then 0 else (if run[0].Pop? then 1 else 0) + Pops(run[1..])
  }

  lemma {:induction false} AheadAfterUpdate(ws: seq<Phase>, w: nat, p: Phase)
    requires w < |ws|
    ensures TotalAhead(ws[w := p]) == TotalAhead(ws) - Ahead(ws[w]) + Ahead(p)
  {
    if w == 0 {
      assert ws[w := p][1..] == ws[1..];
    } else {
      assert ws[w := p][1..] == ws[1..][w - 1 := p];
      AheadAfterUpdate(ws[1..], w - 1, p);
    }
  }

  lemma OwnPhase(s: State, a: Action)
    requires Alive(s) && Enabled(s, a) && WorkerStep(a)
    ensures var t := Step(s, a);
            && |t.workers| == |s.workers| && t.workers == s.workers[a.w := t.workers[a.w]]
            && Ahead(t.workers[a.w]) + 1
               <= Ahead(s.workers[a.w]) + (if a.Pop? then 5 else 0) + (if a.Probed? then a.publishes else 0)
  {
    if a.Pop? {
      PopTouchesItsOwn(s, a.w, a.streamMissing);
      PopPhase(s, a.w, a.streamMissing);
      hide AfterPop;
    } else {
      hide AfterPop;
    }
  }

  lemma LiveStep(s: State, a: Action)
    requires Alive(s) && Enabled(s, a) && !a.Stop? && !a.Restart?
    ensures TotalAhead(Step(s, a).workers) + (if WorkerStep(a) then 1 else 0)
         <= TotalAhead(s.workers) + (if a.Pop? then 5 else 0) + (if a.Probed? then a.publishes else 0)
  {
    if WorkerStep(a) {
      OwnPhase(s, a);
      hide Step;
      AheadAfterUpdate(s.workers, a.w, Step(s, a).workers[a.w]);
    } else {
      assert Step(s, a).workers == s.workers;
    }
  }

  /** Workers that go on stepping must pop. */
  lemma {:induction false} WorkersKeepPopping(s: State, run: seq<Action>)
    requires Alive(s) && Legal(s, run) && NeverStopped(run) && Uninterrupted(run)
    ensures WorkerSteps(run) + TotalAhead(After(s, run).workers) <= TotalAhead(s.workers) + 5 * Pops(run) + PublishesIn(run)
    decreases run
  {
    if run == [] {
    } else {
      StepKeepsAlive(s, run[0]);
      LiveStep(s, run[0]);
      hide Step, Alive;
      WorkersKeepPopping(Step(s, run[0]), run[1..]);
    }
  }

  /** One step takes the head off the FIFO and logs it, or leaves what is there in front. */
  lemma FifoStep(s: State, a: Action)
    requires Enabled(s, a) && !a.Restart?
    ensures var t := Step(s, a);
            if a.Pop? then t.fifo == s.fifo[1..] && |t.log.popped| == |s.log.popped| + 1 && s.log.popped <= t.log.popped
                           && t.log.popped[|s.log.popped|].item == s.fifo[0]
            else s.fifo <= t.fifo && t.log.popped == s.log.popped
  {}

  lemma {:induction false} PopsComeInOrder(s: State, run: seq<Action>, j: nat)
    requires Legal(s, run) && Uninterrupted(run)
    ensures var u := After(s, run);
            && |u.log.popped| == |s.log.popped| + Pops(run) && s.log.popped <= u.log.popped
            && (j < Pops(run) && j < |s.fifo| ==> u.log.popped[|s.log.popped| + j].item == s.fifo[j])
    decreases run
  {
    if run == [] {
    } else {
      var t := Step(s, run[0]);
      FifoStep(s, run[0]);
      hide Step;
      PopsComeInOrder(t, run[1..], if run[0].Pop? && j > 0 then j - 1 else j);
    }
  }

  /**
    Every entry is taken.  In every run from startup without a stop: an entry with
    j others in front of it has been popped, after them, once the workers have
    taken five steps for each of those and what they had left to do, the publishes
    of finished downloads not counted.
   */
  lemma EveryEntryIsTaken(db: Rows, issued: set<nat>, cap: int, before: seq<Action>, run: seq<Action>, j: nat)
    requires Legal(Boot(db, issued, cap), before) && NeverStopped(before) && j < |After(Boot(db, issued, cap), before).fifo|
    requires Legal(After(Boot(db, issued, cap), before), run) && NeverStopped(run) && Uninterrupted(run)
    requires WorkerSteps(run) > TotalAhead(After(Boot(db, issued, cap), before).workers) + 5 * j + PublishesIn(run)
    ensures var s := After(Boot(db, issued, cap), before);
            var popped := After(s, run).log.popped;
            |popped| > |s.log.popped| + j && popped[|s.log.popped| + j].item == s.fifo[j]
  {
    assert Alive(Boot(db, issued, cap));
    RunsKeepAlive(Boot(db, issued, cap), before);
    hide Boot, Legal, After, Alive;
    WorkersKeepPopping(After(Boot(db, issued, cap), before), run);
    PopsComeInOrder(After(Boot(db, issued, cap), before), run, j);
  }

  // ----------------------------------------------------------------- auto-publishing

  function Returns(w: nat, n: nat): seq<Action> {
    if n == 0 then [] else [PublishReturned(w)] + Returns(w, n - 1)
  }

  /** A worker with n publishes to go does n, one after the other, and then takes up the queue again. */
  lemma {:induction false} PublishesGoOn(s: State, w: nat, n: nat, k: nat)
    requires Alive(s) && w < |s.workers| && s.workers[w].Publishing? && s.workers[w].left == n >= 1 && k <= n
    ensures Legal(s, Returns(w, k))
    ensures |After(s, Returns(w, k)).workers| == |s.workers|
    ensures After(s, Returns(w, k)).workers[w] == if k < n then Publishing(s.workers[w].id, n - k) else Waiting
    ensures After(s, Returns(w, k)).db == s.db
    decreases k
  {
    if k == 0 {
    } else {
      var t := Step(s, PublishReturned(w));
      StepKeepsAlive(s, PublishReturned(w));
      assert Returns(w, k)[1..] == Returns(w, k - 1);
      if n > 1 {
        PublishesGoOn(t, w, n - 1, k - 1);
      }
    }
  }

  /**
    A finished download's row becomes complete with the rest of it kept; the
    worker then publishes exactly as often as there is something to publish, and
    waits for the next entry.
   */
  lemma FinishedDownloadIsPublished(s: State, w: nat, n: nat)
    requires Alive(s) && w < |s.workers| && s.workers[w].Probing? && s.workers[w].id in s.db
    ensures var id, t := s.workers[w].id, Step(s, Probed(w, n));
            && t.db == s.db[id := s.db[id].(status := Complete)]
            && (forall k :: 0 <= k <= n ==>
                  && Legal(t, Returns(w, k)) && w < |After(t, Returns(w, k)).workers|
                  && After(t, Returns(w, k)).workers[w] == if k < n then Publishing(id, n - k) else Waiting)
            && After(t, Returns(w, n)).db == t.db
  {
    var t := Step(s, Probed(w, n));
    StepKeepsAlive(s, Probed(w, n));
    if n > 0 {
      forall k | 0 <= k <= n
        ensures Legal(t, Returns(w, k))
        ensures w < |After(t, Returns(w, k)).workers|
        ensures After(t, Returns(w, k)).workers[w] == if k < n then Publishing(s.workers[w].id, n - k) else Waiting
        ensures After(t, Returns(w, k)).db == t.db
      {
        PublishesGoOn(t, w, n, k);
      }
    }
  }

  // --------------------------------------------------------------- a stopping queue

  /**
    A stop puts one sentinel for each worker behind what is queued.  From then on,
    whatever else happens, the workers take a bounded number of steps, each takes
    at most one more entry, and none that has not ended is ever stuck.
   */
  lemma StopEndsTheWorkers(s: State, run: seq<Action>, w: nat)
    requires Inv(s) && w < |s.workers| && Legal(Step(s, Action.Stop), run) && Uninterrupted(run)
    ensures var t, u := Step(s, Action.Stop), After(Step(s, Action.Stop), run);
            && |t.fifo| == |s.fifo| + |s.workers| && s.fifo <= t.fifo
            && (forall i :: |s.fifo| <= i < |t.fifo| ==> t.fifo[i] == -1)
            && WorkerSteps(run) + TotalWorth(u.workers) <= TotalWorth(s.workers) + PublishesIn(run)
            && Takes(w, run) <= 1
            && w < |u.workers|
            && (u.workers[w] == Stopped || (exists id :: u.workers[w] == Abandoned(id))
                || exists a :: WorkerStep(a) && a.w == w && Enabled(u, a))
  {
    var t := Step(s, Action.Stop);
    StepKeepsInv(s, Action.Stop);
    StoppingIsBounded(t, run, w);
    RunsKeepInv(t, run);
    WorkerCountIsConstant(t, run);
    var u := After(t, run);
    hide Inv, Legal, After;
    if u.workers[w].Abandoned? {
      assert u.workers[w] == Abandoned(u.workers[w].id);
    } else if !u.workers[w].Stopped? {
      StoppingNeverStuck(u, w);
    }
  }

  /** A worker that outlives stop()'s patience ends there and then; its process is no longer registered and its row is left as it is. */
  lemma TimeoutEndsTheWorker(s: State, w: nat)
    requires Inv(s) && Enabled(s, TimedOut(w))
    ensures var t, p := Step(s, TimedOut(w)), s.workers[w];
            && (t.workers[w] == Stopped || (p.Carries() && t.workers[w] == Abandoned(p.id)))
            && (p.Carries() ==> p.id !in t.procs)
            && t.db == s.db && t.fifo == s.fifo
            && t.unfinished == s.unfinished - (if p.Carries() then 1 else 0)
  {
    if s.workers[w].Carries() {
      HeldFacts(s, w);
    }
    hide Inv;
  }
}
