/**
  One recording from its start to its end: the process a task spawns is stored,
  awaited, and told to terminate exactly if the recording was stopped.
 */
module RecorderLife {
  import opened Wrappers
  import opened RecorderPoolSpec

  /** The task does not end in this run. */
  ghost predicate GoesOn(run: seq<Action>, t: nat) {
    forall i :: 0 <= i < |run| ==> run[i] != Ended(t)
  }

  lemma AwaitingStep(s: State, a: Action, t: nat)
    requires Enabled(s, a) && a != Ended(t) && t in s.live && s.live[t].phase.AwaitingExit?
    ensures t in Step(s, a).live && Step(s, a).live[t] == s.live[t]
  {}

  lemma {:induction false} AwaitingStays(s: State, run: seq<Action>, t: nat)
    requires Inv(s) && Legal(s, run) && GoesOn(run, t) && t in s.live && s.live[t].phase.AwaitingExit?
    ensures t in After(s, run).live && After(s, run).live[t] == s.live[t]
    decreases run
  {
    if run == [] {
    } else {
      StepKeepsInv(s, run[0]);
      AwaitingStep(s, run[0], t);
      hide Step, Inv;
      AwaitingStays(Step(s, run[0]), run[1..], t);
    }
  }

  lemma SpawnAwaits(s: State, t: nat, p: nat)
    requires Enabled(s, Spawned(t, p))
    ensures t in Step(s, Spawned(t, p)).live && Step(s, Spawned(t, p)).live[t] == Task(s.live[t].recorder, AwaitingExit(p))
  {}

  lemma {:induction false} SpawnedTaskAwaits(s: State, run: seq<Action>, i: nat, t: nat, p: nat)
    requires Inv(s) && Legal(s, run) && i < |run| && run[i] == Spawned(t, p) && GoesOn(run[i + 1..], t)
    ensures t in After(s, run).live && After(s, run).live[t].phase == AwaitingExit(p)
    decreases run
  {
    var u := Step(s, run[0]);
    StepKeepsInv(s, run[0]);
    if i == 0 {
      SpawnAwaits(s, t, p);
      hide Step, Inv;
      AwaitingStays(u, run[1..], t);
    } else {
      hide Step, Inv;
      assert run[1..][i - 1] == run[i] && run[1..][i - 1 + 1..] == run[i + 1..];
      SpawnedTaskAwaits(u, run[1..], i - 1, t, p);
    }
  }

  lemma AwaitedIsStored(s: State, t: nat)
    requires Inv(s) && t in s.live && s.live[t].phase.AwaitingExit?
    ensures s.live[t].recorder in s.recorders && s.recorders[s.live[t].recorder].proc == Some(s.live[t].phase.proc)
    ensures s.recorders[s.live[t].recorder].stream in s.workers
    ensures s.workers[s.recorders[s.live[t].recorder].stream] == s.live[t].recorder
  {}

  /**
    In every run of a pool that started empty: once a task has spawned process p
    and until it ends, it awaits p, its recorder is in the pool and holds p, and p
    has been told to terminate exactly if some stop found that recorder.
   */
  lemma SpawnedProcessIsHeld(max: nat, run: seq<Action>, i: nat, t: nat, p: nat)
    requires Legal(Empty(max), run) && i < |run| && run[i] == Spawned(t, p) && GoesOn(run[i + 1..], t)
    ensures var s := After(Empty(max), run);
            && t in s.live && s.live[t].phase == AwaitingExit(p)
            && s.live[t].recorder in s.recorders && s.recorders[s.live[t].recorder].proc == Some(p)
            && s.recorders[s.live[t].recorder].stream in s.workers
            && s.workers[s.recorders[s.live[t].recorder].stream] == s.live[t].recorder
            && (p in s.terminated <==> WasStopped(Empty(max), run, s.live[t].recorder))
  {
    RunsKeepInv(Empty(max), run);
    SpawnedTaskAwaits(Empty(max), run, i, t, p);
    AwaitedIsStored(After(Empty(max), run), t);
    TerminatedIffStopped(max, run, t);
  }

  // ----------------------------------------------------------- a recording, step by step

  /** What is needed to record a stream: everything about it is new, and there is room. */
  ghost predicate CanRecord(s: State, k: nat, stream: nat, t: nat, p: nat) {
    Inv(s) && k !in s.recorders && stream !in s.workers && |s.workers| < s.max && t !in s.live && p !in s.spawned
  }

  /** The four steps that lead to a running recording, with a stop before the last two or after them. */
  function Recorded(k: nat, stream: nat, t: nat, p: nat, stop: Option<nat>): seq<Action> {
    [NewRecorder(k, stream), Start(k, t)]
    + (if stop == Some(0) then [Stop(stream)] else [])
    + [Begin(t)]
    + (if stop == Some(1) then [Stop(stream)] else [])
    + [Spawned(t, p)]
    + (if stop == Some(2) then [Stop(stream)] else [])
  }

  /** A stop of this stream if there is one here. */
  function Perhaps(here: bool, stream: nat): seq<Action> {
    if here then [Stop(stream)] else []
  }

  ghost predicate Running(s: State, u: State, k: nat, stream: nat, t: nat, phase: Phase, proc: Option<nat>, stopped: bool) {
    && u.max == s.max && u.spawned == s.spawned + (if proc.Some? then {proc.value} else {})
    && u.workers == s.workers[stream := k] && u.tasks == s.tasks[stream := t]
    && u.recorders == s.recorders[k := Recorder(stream, stopped, proc)] && u.live == s.live[t := Task(k, phase)]
    && u.terminated == s.terminated + (if stopped && proc.Some? then {proc.value} else {})
  }

  /** A stop at this point, or none. */
  lemma StopHere(s: State, u: State, k: nat, stream: nat, t: nat, phase: Phase, proc: Option<nat>, stopped: bool, here: bool)
    requires k !in s.recorders && Running(s, u, k, stream, t, phase, proc, stopped)
    ensures Legal(u, Perhaps(here, stream))
    ensures Running(s, After(u, Perhaps(here, stream)), k, stream, t, phase, proc, stopped || here)
  {
    if here {
      assert Perhaps(here, stream)[1..] == [];
      assert Legal(Step(u, Stop(stream)), []);
    }
  }

  lemma {:induction false} RunsCompose(s: State, a: seq<Action>, b: seq<Action>)
    requires Legal(s, a) && Legal(After(s, a), b)
    ensures Legal(s, a + b) && After(s, a + b) == After(After(s, a), b)
    decreases a
  {
    if a == [] {
      assert a + b == b;
    } else {
      assert (a + b)[0] == a[0] && (a + b)[1..] == a[1..] + b;
      hide Step, Enabled;
      RunsCompose(Step(s, a[0]), a[1..], b);
    }
  }

  lemma StartRuns(s: State, k: nat, stream: nat, t: nat, p: nat)
    requires CanRecord(s, k, stream, t, p)
    ensures Enabled(s, NewRecorder(k, stream)) && Enabled(Step(s, NewRecorder(k, stream)), Start(k, t))
    ensures Running(s, Step(Step(s, NewRecorder(k, stream)), Start(k, t)), k, stream, t, Scheduled, None, false)
  {
    hide Inv;
  }

  lemma BeginRuns(s: State, u: State, k: nat, stream: nat, t: nat, stopped: bool)
    requires Running(s, u, k, stream, t, Scheduled, None, stopped)
    ensures Enabled(u, Begin(t)) && Running(s, Step(u, Begin(t)), k, stream, t, AwaitingSpawn, None, stopped)
  {}

  lemma SpawnRuns(s: State, u: State, k: nat, stream: nat, t: nat, p: nat, stopped: bool)
    requires Running(s, u, k, stream, t, AwaitingSpawn, None, stopped) && p !in s.spawned
    ensures Enabled(u, Spawned(t, p)) && Running(s, Step(u, Spawned(t, p)), k, stream, t, AwaitingExit(p), Some(p), stopped)
  {}

  lemma EndRuns(s: State, u: State, k: nat, stream: nat, t: nat, p: nat, stopped: bool)
    requires CanRecord(s, k, stream, t, p) && Running(s, u, k, stream, t, AwaitingExit(p), Some(p), stopped)
    ensures Enabled(u, Ended(t))
    ensures Step(u, Ended(t)).workers == s.workers && Step(u, Ended(t)).tasks == s.tasks && Step(u, Ended(t)).live == s.live
  {
    NotInTasks(s, k, stream, t, p);
    hide CanRecord;
    InAndOut(s.workers, stream, k);
    InAndOut(s.tasks, stream, t);
    InAndOut(s.live, t, Task(k, AwaitingExit(p)));
  }

  lemma InAndOut<V>(m: map<nat, V>, key: nat, v: V)
    requires key !in m
    ensures m[key := v] - {key} == m
  {}

  lemma NotInTasks(s: State, k: nat, stream: nat, t: nat, p: nat)
    requires CanRecord(s, k, stream, t, p)
    ensures stream !in s.tasks && stream !in s.workers && t !in s.live
  {
    assert s.workers.Keys == s.tasks.Keys;
    hide Handshake;
  }

  lemma Single(s: State, a: Action)
    requires Enabled(s, a)
    ensures Legal(s, [a]) && After(s, [a]) == Step(s, a)
  {
    hide Step, Enabled;
    assert [a][1..] == [];
    assert Legal(Step(s, a), []) && After(Step(s, a), []) == Step(s, a);
  }

  /**
    Wherever there is room, a new stream can be recorded: the steps can be taken,
    with a stop in any of the three places or none, and at the end the process is
    awaited and stored, the stream and the task are in the pool, and the process
    has been told to terminate exactly if there was a stop.  The end of the task
    then leaves the dictionaries as they were.
   */
  lemma ARecording(s: State, k: nat, stream: nat, t: nat, p: nat, stop: Option<nat>)
    requires CanRecord(s, k, stream, t, p) && (stop.Some? ==> stop.value < 3)
    ensures Legal(s, Recorded(k, stream, t, p, stop))
    ensures var u := After(s, Recorded(k, stream, t, p, stop));
            && u.workers == s.workers[stream := k] && u.tasks == s.tasks[stream := t]
            && u.live == s.live[t := Task(k, AwaitingExit(p))]
            && u.recorders == s.recorders[k := Recorder(stream, stop.Some?, Some(p))]
            && u.terminated == s.terminated + (if stop.Some? then {p} else {})
            && Enabled(u, Ended(t))
            && Step(u, Ended(t)).workers == s.workers && Step(u, Ended(t)).tasks == s.tasks && Step(u, Ended(t)).live == s.live
  {
    hide *;
    StartRuns(s, k, stream, t, p);
    var s1 := Step(s, NewRecorder(k, stream));
    Single(s, NewRecorder(k, stream));
    Single(s1, Start(k, t));
    var c1 := [NewRecorder(k, stream)] + [Start(k, t)];
    RunsCompose(s, [NewRecorder(k, stream)], [Start(k, t)]);
    var s2 := Step(s1, Start(k, t));
    var stops0, stops1 := stop == Some(0), stop == Some(0) || stop == Some(1);
    NewIsNew(s, k, stream, t, p);
    StopHere(s, s2, k, stream, t, Scheduled, None, false, stops0);
    var s3 := After(s2, Perhaps(stops0, stream));
    RunsCompose(s, c1, Perhaps(stops0, stream));
    BeginRuns(s, s3, k, stream, t, stops0);
    Single(s3, Begin(t));
    var c2 := c1 + Perhaps(stops0, stream) + [Begin(t)];
    RunsCompose(s, c1 + Perhaps(stops0, stream), [Begin(t)]);
    var s4 := Step(s3, Begin(t));
    StopHere(s, s4, k, stream, t, AwaitingSpawn, None, stops0, stop == Some(1));
    var s5 := After(s4, Perhaps(stop == Some(1), stream));
    RunsCompose(s, c2, Perhaps(stop == Some(1), stream));
    SpawnRuns(s, s5, k, stream, t, p, stops1);
    Single(s5, Spawned(t, p));
    var c3 := c2 + Perhaps(stop == Some(1), stream) + [Spawned(t, p)];
    RunsCompose(s, c2 + Perhaps(stop == Some(1), stream), [Spawned(t, p)]);
    var s6 := Step(s5, Spawned(t, p));
    StopHere(s, s6, k, stream, t, AwaitingExit(p), Some(p), stops1, stop == Some(2));
    RunsCompose(s, c3, Perhaps(stop == Some(2), stream));
    var u := After(s6, Perhaps(stop == Some(2), stream));
    EndRuns(s, u, k, stream, t, p, stop.Some?);
    RecordedParts(k, stream, t, p, stop);
    RunningMeans(s, u, k, stream, t, p, stop.Some?);
  }

  lemma NewIsNew(s: State, k: nat, stream: nat, t: nat, p: nat)
    requires CanRecord(s, k, stream, t, p)
    ensures k !in s.recorders && p !in s.spawned
  {}

  lemma RecordedParts(k: nat, stream: nat, t: nat, p: nat, stop: Option<nat>)
    ensures Recorded(k, stream, t, p, stop)
         == [NewRecorder(k, stream)] + [Start(k, t)] + Perhaps(stop == Some(0), stream) + [Begin(t)]
            + Perhaps(stop == Some(1), stream) + [Spawned(t, p)] + Perhaps(stop == Some(2), stream)
  {
    assert [NewRecorder(k, stream)] + [Start(k, t)] == [NewRecorder(k, stream), Start(k, t)];
  }

  lemma RunningMeans(s: State, u: State, k: nat, stream: nat, t: nat, p: nat, stopped: bool)
    requires Running(s, u, k, stream, t, AwaitingExit(p), Some(p), stopped)
    ensures u.workers == s.workers[stream := k] && u.tasks == s.tasks[stream := t]
    ensures u.live == s.live[t := Task(k, AwaitingExit(p))]
    ensures u.recorders == s.recorders[k := Recorder(stream, stopped, Some(p))]
    ensures u.terminated == s.terminated + (if stopped then {p} else {})
  {}

  /** Why a start is refused. */
  lemma RefusalsTell(s: State, k: nat)
    requires k in s.recorders
    ensures StartResult(s, k) == Err(AlreadyRecording) <==> s.recorders[k].stream in s.workers
    ensures StartResult(s, k) == Err(AtCapacity) <==> s.recorders[k].stream !in s.workers && |s.workers| >= s.max
  {}
}
