/**
  The pool of live recorders: two dictionaries that a start fills and each task's
  `finally` block empties, and the handshake by which a stop reaches a process
  that may not have been spawned yet.
 */
module RecorderPoolSpec {
  import opened Wrappers

  /** A RecorderWorker object. */
  datatype Recorder = Recorder(stream: nat, stopRequested: bool, proc: Option<nat>)

  /** Where a task running RecorderWorker.run() is suspended. */
  datatype Phase = Scheduled | AwaitingSpawn | AwaitingExit(proc: nat)

  datatype Task = Task(recorder: nat, phase: Phase)

  datatype State = State(
    max: nat,
    workers: map<nat, nat>,      // stream -> recorder
    tasks: map<nat, nat>,        // stream -> task
    recorders: map<nat, Recorder>,
    live: map<nat, Task>,        // tasks that have not ended
    spawned: set<nat>,           // every process ever spawned
    terminated: set<nat>)        // processes terminate() was called on

  datatype Action =
    | NewRecorder(k: nat, stream: nat)
    | Start(k: nat, t: nat)      // pool.start(), creating task t if it does not raise
    | Begin(t: nat)              // the task runs up to `await spawn`
    | Spawned(t: nat, p: nat)    // ... and from there to `await wait`
    | Ended(t: nat)              // run() returns or raises, wherever it is; the finally block
    | Stop(stream: nat)          // pool.stop() up to its await

  datatype StartError = AlreadyRecording | AtCapacity

  function StartResult(s: State, k: nat): Result<(), StartError>
    requires k in s.recorders
  {
    if s.recorders[k].stream in s.workers then Err(AlreadyRecording)
    else if |s.workers| >= s.max then Err(AtCapacity)
    else Ok(())
  }

  predicate Enabled(s: State, a: Action) {
    match a
    case NewRecorder(k, _) => k !in s.recorders
    case Start(k, t) => k in s.recorders && t !in s.live
    case Begin(t) => t in s.live && s.live[t].phase.Scheduled?
    case Spawned(t, p) => t in s.live && s.live[t].phase.AwaitingSpawn? && p !in s.spawned && s.live[t].recorder in s.recorders
    case Ended(t) => t in s.live && s.live[t].recorder in s.recorders
    case Stop(stream) => stream in s.workers ==> s.workers[stream] in s.recorders
  }

  function Step(s: State, a: Action): State
    requires Enabled(s, a)
  {
    match a
    case NewRecorder(k, stream) => s.(recorders := s.recorders[k := Recorder(stream, false, None)])
    case Start(k, t) =>
      if StartResult(s, k).Err? then s
      else
        var stream := s.recorders[k].stream;
        s.(workers := s.workers[stream := k], tasks := s.tasks[stream := t],
           live := s.live[t := Task(k, Scheduled)])
    case Begin(t) => s.(live := s.live[t := s.live[t].(phase := AwaitingSpawn)])
    case Spawned(t, p) =>
      var k := s.live[t].recorder;
      s.(recorders := s.recorders[k := s.recorders[k].(proc := Some(p))],
         spawned := s.spawned + {p},
         terminated := if s.recorders[k].stopRequested then s.terminated + {p} else s.terminated,
         live := s.live[t := Task(k, AwaitingExit(p))])
    case Ended(t) =>
      var stream := s.recorders[s.live[t].recorder].stream;
      s.(workers := s.workers - {stream}, tasks := s.tasks - {stream}, live := s.live - {t})
    case Stop(stream) =>
      if stream !in s.workers then s
      else
        var k := s.workers[stream];
        var r := s.recorders[k];
        s.(recorders := s.recorders[k := r.(stopRequested := true)],
           terminated := if r.proc.Some? then s.terminated + {r.proc.value} else s.terminated)
  }

  ghost predicate Legal(s: State, run: seq<Action>)
    decreases run
  {
    run == [] || (Enabled(s, run[0]) && Legal(Step(s, run[0]), run[1..]))
  }

  ghost function After(s: State, run: seq<Action>): State
    requires Legal(s, run)
    decreases run
  {
    if run == [] then s else After(Step(s, run[0]), run[1..])
  }

  // ---------------------------------------------------------------- the invariant

  /** The two dictionaries have the same keys, and exactly the live tasks are in them. */
  ghost predicate Registered(s: State) {
    && s.workers.Keys == s.tasks.Keys
    && (forall stream :: stream in s.tasks ==>
          && s.tasks[stream] in s.live
          && s.live[s.tasks[stream]].recorder == s.workers[stream]
          && s.workers[stream] in s.recorders
          && s.recorders[s.workers[stream]].stream == stream)
    && (forall t :: t in s.live ==>
          && s.live[t].recorder in s.recorders
          && s.recorders[s.live[t].recorder].stream in s.tasks
          && s.tasks[s.recorders[s.live[t].recorder].stream] == t)
  }

  /** Every process has one owner at most, and a live one is terminated iff its recorder was stopped. */
  ghost predicate Handshake(s: State) {
    && s.terminated <= s.spawned
    && (forall k :: k in s.recorders && s.recorders[k].proc.Some? ==> s.recorders[k].proc.value in s.spawned)
    && (forall k, m :: k in s.recorders && m in s.recorders && k != m && s.recorders[k].proc.Some? ==>
          s.recorders[k].proc != s.recorders[m].proc)
    && (forall t :: t in s.live && s.live[t].phase.AwaitingExit? && s.live[t].recorder in s.recorders ==>
          var r, p := s.recorders[s.live[t].recorder], s.live[t].phase.proc;
          r.proc == Some(p) && (r.stopRequested <==> p in s.terminated))
  }

  ghost predicate Inv(s: State) {
    Registered(s) && Handshake(s) && |s.workers| <= s.max
  }

  function Empty(max: nat): State {
    State(max, map[], map[], map[], map[], {}, {})
  }

  lemma NewRecorderKeepsInv(s: State, k: nat, stream: nat)
    requires Registered(s) && Handshake(s) && Enabled(s, NewRecorder(k, stream))
    ensures Registered(Step(s, NewRecorder(k, stream))) && Handshake(Step(s, NewRecorder(k, stream)))
  {}

  lemma StartKeepsRegistered(s: State, k: nat, t: nat)
    requires Registered(s) && Enabled(s, Start(k, t))
    ensures Registered(Step(s, Start(k, t)))
  {}

  lemma StartKeepsInv(s: State, k: nat, t: nat)
    requires Registered(s) && Handshake(s) && Enabled(s, Start(k, t))
    ensures Registered(Step(s, Start(k, t))) && Handshake(Step(s, Start(k, t)))
  {
    StartKeepsRegistered(s, k, t);
    StartKeepsHandshake(s, k, t);
    hide Registered, Handshake, Step, Enabled;
  }

  lemma StartKeepsHandshake(s: State, k: nat, t: nat)
    requires Registered(s) && Handshake(s) && Enabled(s, Start(k, t))
    ensures Handshake(Step(s, Start(k, t)))
  {}

  lemma BeginKeepsRegistered(s: State, t: nat)
    requires Registered(s) && Enabled(s, Begin(t))
    ensures Registered(Step(s, Begin(t)))
  {}

  lemma BeginKeepsHandshake(s: State, t: nat)
    requires Registered(s) && Handshake(s) && Enabled(s, Begin(t))
    ensures Handshake(Step(s, Begin(t)))
  {}

  lemma BeginKeepsInv(s: State, t: nat)
    requires Registered(s) && Handshake(s) && Enabled(s, Begin(t))
    ensures Registered(Step(s, Begin(t))) && Handshake(Step(s, Begin(t)))
  {
    BeginKeepsRegistered(s, t);
    BeginKeepsHandshake(s, t);
    hide Registered, Handshake, Step, Enabled;
  }

  lemma SpawnedKeepsRegistered(s: State, t: nat, p: nat)
    requires Registered(s) && Enabled(s, Spawned(t, p))
    ensures Registered(Step(s, Spawned(t, p)))
  {}

  lemma SpawnedKeepsInv(s: State, t: nat, p: nat)
    requires Registered(s) && Handshake(s) && Enabled(s, Spawned(t, p))
    ensures Registered(Step(s, Spawned(t, p))) && Handshake(Step(s, Spawned(t, p)))
  {
    SpawnedKeepsRegistered(s, t, p);
    SpawnedKeepsHandshake(s, t, p);
    hide Registered, Handshake, Step, Enabled;
  }

  lemma SpawnedKeepsHandshake(s: State, t: nat, p: nat)
    requires Registered(s) && Handshake(s) && Enabled(s, Spawned(t, p))
    ensures Handshake(Step(s, Spawned(t, p)))
  {}

  lemma EndedKeepsRegistered(s: State, t: nat)
    requires Registered(s) && Enabled(s, Ended(t))
    ensures Registered(Step(s, Ended(t)))
  {}

  lemma EndedKeepsHandshake(s: State, t: nat)
    requires Registered(s) && Handshake(s) && Enabled(s, Ended(t))
    ensures Handshake(Step(s, Ended(t)))
  {}

  lemma EndedKeepsInv(s: State, t: nat)
    requires Registered(s) && Handshake(s) && Enabled(s, Ended(t))
    ensures Registered(Step(s, Ended(t))) && Handshake(Step(s, Ended(t)))
  {
    EndedKeepsRegistered(s, t);
    EndedKeepsHandshake(s, t);
    hide Registered, Handshake, Step, Enabled;
  }

  lemma StopKeepsRegistered(s: State, stream: nat)
    requires Registered(s) && Enabled(s, Stop(stream))
    ensures Registered(Step(s, Stop(stream)))
  {}

  lemma StopKeepsHandshake(s: State, stream: nat)
    requires Registered(s) && Handshake(s) && Enabled(s, Stop(stream))
    ensures Handshake(Step(s, Stop(stream)))
  {}

  lemma StopKeepsInv(s: State, stream: nat)
    requires Registered(s) && Handshake(s) && Enabled(s, Stop(stream))
    ensures Registered(Step(s, Stop(stream))) && Handshake(Step(s, Stop(stream)))
  {
    StopKeepsRegistered(s, stream);
    StopKeepsHandshake(s, stream);
    hide Registered, Handshake, Step, Enabled;
  }

  lemma OneMore(m: map<nat, nat>, k: nat, v: nat)
    requires k !in m
    ensures |m[k := v]| == |m| + 1
  {
    assert m[k := v].Keys == m.Keys + {k};
  }

  lemma OneFewer(m: map<nat, nat>, k: nat)
    ensures |m - {k}| <= |m|
  {
    var rest := (m - {k}).Keys;
    assert m.Keys == rest + m.Keys * {k};
  }

  lemma CapacityKept(s: State, a: Action)
    requires Enabled(s, a) && |s.workers| <= s.max
    ensures |Step(s, a).workers| <= Step(s, a).max
  {
    match a
    case Start(k, t) =>
      if StartResult(s, k).Ok? {
        OneMore(s.workers, s.recorders[k].stream, k);
      }
    case Ended(t) =>
      OneFewer(s.workers, s.recorders[s.live[t].recorder].stream);
    case _ =>
  }

  lemma StepKeepsInv(s: State, a: Action)
    requires Inv(s) && Enabled(s, a)
    ensures Inv(Step(s, a))
  {
    hide Registered, Handshake, Step, Enabled;
    CapacityKept(s, a);
    match a
    case NewRecorder(k, stream) => NewRecorderKeepsInv(s, k, stream);
    case Start(k, t) => StartKeepsInv(s, k, t);
    case Begin(t) => BeginKeepsInv(s, t);
    case Spawned(t, p) => SpawnedKeepsInv(s, t, p);
    case Ended(t) => EndedKeepsInv(s, t);
    case Stop(stream) => StopKeepsInv(s, stream);
  }

  /** At every suspension point of every run of a pool that started empty. */
  lemma {:induction false} RunsKeepInv(s: State, run: seq<Action>)
    requires Inv(s) && Legal(s, run)
    ensures Inv(After(s, run))
    decreases run
  {
    hide Inv, Step;
    if run == [] {
    } else {
      StepKeepsInv(s, run[0]);
      RunsKeepInv(Step(s, run[0]), run[1..]);
    }
  }

  lemma PoolIsConsistent(max: nat, run: seq<Action>)
    requires Legal(Empty(max), run)
    ensures var s := After(Empty(max), run);
            && s.workers.Keys == s.tasks.Keys
            && |s.workers| <= max
            && (forall stream :: stream in s.tasks ==>
                  s.tasks[stream] in s.live && s.live[s.tasks[stream]].recorder == s.workers[stream])
            && (forall t :: t in s.live ==> exists stream :: stream in s.tasks && s.tasks[stream] == t)
  {
    RunsKeepInv(Empty(max), run);
    MaxIsConstant(Empty(max), run);
  }

  lemma {:induction false} MaxIsConstant(s: State, run: seq<Action>)
    requires Legal(s, run)
    ensures After(s, run).max == s.max
    decreases run
  {
    if run == [] {
    } else {
      assert Step(s, run[0]).max == s.max;
      hide Step;
      MaxIsConstant(Step(s, run[0]), run[1..]);
    }
  }

  /** A start is refused exactly for a stream being recorded or a full pool. */
  lemma StartEntersIff(s: State, k: nat, t: nat)
    requires Inv(s) && Enabled(s, Start(k, t))
    ensures var u, stream := Step(s, Start(k, t)), s.recorders[k].stream;
            && ((stream in u.tasks && u.tasks[stream] == t) <==> stream !in s.workers && |s.workers| < s.max)
            && (stream in s.workers || |s.workers| == s.max ==> u == s)
  {
    hide Handshake;
  }

  /** A task that ends takes its own entry out of both dictionaries and no other. */
  lemma EndingRemovesOnlyItsOwn(s: State, t: nat)
    requires Inv(s) && t in s.live && s.live[t].recorder in s.recorders
    ensures var own := s.recorders[s.live[t].recorder].stream;
            && own in s.tasks && s.tasks[own] == t && s.workers[own] == s.live[t].recorder
            && var u := Step(s, Ended(t));
            && u.tasks == s.tasks - {own} && u.workers == s.workers - {own}
            && (forall stream :: stream in u.tasks ==> u.tasks[stream] != t)
  {
    hide Handshake;
  }

  lemma {:induction false} StopIsRemembered(s: State, run: seq<Action>, k: nat)
    requires Legal(s, run) && k in s.recorders && s.recorders[k].stopRequested
    ensures k in After(s, run).recorders && After(s, run).recorders[k].stopRequested
    decreases run
  {
    if run == [] {
    } else {
      assert k in Step(s, run[0]).recorders && Step(s, run[0]).recorders[k].stopRequested;
      hide Step;
      StopIsRemembered(Step(s, run[0]), run[1..], k);
    }
  }

  /**
    A stop() before, during or after the spawn: whenever the stopped task's
    process is awaited from then on, it has been told to terminate.
   */
  lemma StopAlwaysTerminates(s: State, stream: nat, run: seq<Action>)
    requires Inv(s) && stream in s.workers && Enabled(s, Stop(stream)) && Legal(Step(s, Stop(stream)), run)
    ensures var u := After(Step(s, Stop(stream)), run);
            forall t :: t in u.live && u.live[t].recorder == s.workers[stream] && u.live[t].phase.AwaitingExit? ==>
              u.live[t].phase.proc in u.terminated
  {
    var k := s.workers[stream];
    StepKeepsInv(s, Stop(stream));
    RunsKeepInv(Step(s, Stop(stream)), run);
    StopIsRemembered(Step(s, Stop(stream)), run, k);
  }

  /** This step is a stop() that finds recorder k in the pool. */
  predicate Stops(s: State, a: Action, k: nat) {
    a.Stop? && a.stream in s.workers && s.workers[a.stream] == k
  }

  /** Some stop() of the run found recorder k in the pool. */
  ghost predicate WasStopped(s: State, run: seq<Action>, k: nat)
    requires Legal(s, run)
    decreases run
  {
    run != [] && (Stops(s, run[0], k) || WasStopped(Step(s, run[0]), run[1..], k))
  }

  lemma StopRequestedStep(s: State, a: Action, k: nat)
    requires Inv(s) && Enabled(s, a) && k in Step(s, a).recorders
    ensures Step(s, a).recorders[k].stopRequested
       <==> (k in s.recorders && s.recorders[k].stopRequested) || Stops(s, a, k)
    ensures Stops(s, a, k) ==> k in s.recorders
  {}

  lemma RecordersStay(s: State, a: Action, k: nat)
    requires Enabled(s, a) && k in s.recorders
    ensures k in Step(s, a).recorders
  {}

  /** A recorder's stop flag is set by nothing else. */
  lemma {:induction false} StopRequestedIff(s: State, run: seq<Action>, k: nat)
    requires Inv(s) && Legal(s, run)
    ensures k in After(s, run).recorders ==>
              (After(s, run).recorders[k].stopRequested
               <==> (k in s.recorders && s.recorders[k].stopRequested) || WasStopped(s, run, k))
    decreases run
  {
    if run == [] {
    } else {
      var t := Step(s, run[0]);
      StepKeepsInv(s, run[0]);
      StopRequestedIff(t, run[1..], k);
      if k in t.recorders {
        StopRequestedStep(s, run[0], k);
        hide Inv, Step, Stops;
      } else {
        StopsNeedRecorders(s, run[0], k);
        hide Inv, Step, Stops;
      }
    }
  }

  lemma StopsNeedRecorders(s: State, a: Action, k: nat)
    requires Inv(s) && Enabled(s, a) && k !in Step(s, a).recorders
    ensures !Stops(s, a, k) && k !in s.recorders
  {
    if k in s.recorders {
      RecordersStay(s, a, k);
    }
  }

  /**
    In every run of a pool that started empty: the process a task waits for has
    been told to terminate exactly if some stop() found its recorder in the pool,
    whether before, during or after the spawn.
   */
  lemma TerminatedIffStopped(max: nat, run: seq<Action>, t: nat)
    requires Legal(Empty(max), run)
    requires t in After(Empty(max), run).live && After(Empty(max), run).live[t].phase.AwaitingExit?
    ensures var s := After(Empty(max), run);
            s.live[t].phase.proc in s.terminated <==> WasStopped(Empty(max), run, s.live[t].recorder)
  {
    RunsKeepInv(Empty(max), run);
    StopRequestedIff(Empty(max), run, After(Empty(max), run).live[t].recorder);
    hide Legal, After, Step, WasStopped;
  }
}

/** The pool in its own form. */
module RecorderPool {
  import opened Wrappers
  import opened RecorderPoolSpec

  class Pool {
    const max: nat
    var workers: map<nat, nat>
    var tasks: map<nat, nat>
    var recorders: map<nat, Recorder>
    var live: map<nat, Task>
    ghost var spawned: set<nat>
    var terminated: set<nat>

    ghost function Abs(): State
      reads this
    {
      State(max, workers, tasks, recorders, live, spawned, terminated)
    }

    constructor (max: nat)
      ensures Abs() == Empty(max) && Inv(Abs())
    {
      this.max := max;
      workers, tasks, recorders, live := map[], map[], map[], map[];
      spawned, terminated := {}, {};
    }

    method StartRecorder(k: nat, t: nat) returns (r: Result<(), StartError>)
      requires Enabled(Abs(), Start(k, t))
      modifies this
      ensures r == StartResult(old(Abs()), k)
      ensures Abs() == Step(old(Abs()), Start(k, t))
      ensures old(Inv(Abs())) ==> Inv(Abs()) && workers.Keys == tasks.Keys && |workers| <= max
    {
      hide Registered, Handshake;
      if Inv(Abs()) {
        StepKeepsInv(Abs(), Start(k, t));
        SameKeys(Step(Abs(), Start(k, t)));
      }
      var stream := recorders[k].stream;
      if stream in workers {
        return Err(AlreadyRecording);
      }
      if |workers| >= max {
        return Err(AtCapacity);
      }
      workers := workers[stream := k];
      live := live[t := Task(k, Scheduled)];
      tasks := tasks[stream := t];
      return Ok(());
    }

    /** The continuation of run() after its spawn. */
    method ProcessSpawned(t: nat, p: nat)
      requires Enabled(Abs(), Spawned(t, p))
      modifies this
      ensures Abs() == Step(old(Abs()), Spawned(t, p))
      ensures old(Inv(Abs())) ==> Inv(Abs()) && workers.Keys == tasks.Keys && |workers| <= max
    {
      hide Registered, Handshake;
      if Inv(Abs()) {
        StepKeepsInv(Abs(), Spawned(t, p));
        SameKeys(Step(Abs(), Spawned(t, p)));
      }
      var k := live[t].recorder;
      spawned := spawned + {p};
      recorders := recorders[k := recorders[k].(proc := Some(p))];
      if recorders[k].stopRequested {
        terminated := terminated + {p};
      }
      live := live[t := Task(k, AwaitingExit(p))];
    }

    /** The `finally` block of the task. */
    method TaskEnded(t: nat)
      requires Enabled(Abs(), Ended(t))
      modifies this
      ensures Abs() == Step(old(Abs()), Ended(t))
      ensures old(Inv(Abs())) ==> Inv(Abs()) && workers.Keys == tasks.Keys && |workers| <= max
    {
      hide Registered, Handshake;
      if Inv(Abs()) {
        StepKeepsInv(Abs(), Ended(t));
        SameKeys(Step(Abs(), Ended(t)));
      }
      var stream := recorders[live[t].recorder].stream;
      workers := workers - {stream};
      tasks := tasks - {stream};
      live := live - {t};
    }

    /** stop() up to its await of the task. */
    method StopStream(stream: nat)
      requires Enabled(Abs(), Stop(stream))
      modifies this
      ensures Abs() == Step(old(Abs()), Stop(stream))
      ensures old(Inv(Abs())) ==> Inv(Abs()) && workers.Keys == tasks.Keys && |workers| <= max
    {
      hide Registered, Handshake;
      if Inv(Abs()) {
        StepKeepsInv(Abs(), Stop(stream));
        SameKeys(Step(Abs(), Stop(stream)));
      }
      if stream !in workers {
        return;
      }
      var k := workers[stream];
      recorders := recorders[k := recorders[k].(stopRequested := true)];
      if recorders[k].proc.Some? {
        terminated := terminated + {recorders[k].proc.value};
      }
    }

    lemma SameKeys(s: State)
      requires Inv(s)
      ensures s.workers.Keys == s.tasks.Keys && |s.workers| <= s.max
    {}
  }
}
