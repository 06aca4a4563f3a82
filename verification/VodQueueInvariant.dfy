/**
  The ownership invariant of the VOD queue, and that every step keeps it.
 */
module VodQueueInvariant {
  import opened Wrappers
  import opened VodQueueSpec

  // ------------------------------------------------------------- the invariant

  /** Each id occurs at most once across the FIFO, the pending ids and the workers' hands. */
  ghost predicate Placement(fifo: seq<int>, pending: set<nat>, ws: seq<Phase>) {
    && (forall i :: 0 <= i < |fifo| ==> fifo[i] >= SENTINEL)
    && (forall i, j :: 0 <= i < j < |fifo| && fifo[i] != SENTINEL ==> fifo[i] != fifo[j])
    && (forall id :: id in pending ==> id !in fifo)
    && (forall i :: 0 <= i < |ws| && ws[i].Carries() ==> ws[i].id !in fifo && ws[i].id !in pending)
    && (forall i, j :: 0 <= i < j < |ws| && ws[i].Carries() && ws[j].Carries() ==> ws[i].id != ws[j].id)
  }

  /** No id is in use that was never handed out. */
  ghost predicate Known(db: Rows, issued: set<nat>, fifo: seq<int>, pending: set<nat>, ws: seq<Phase>) {
    && db.Keys <= issued
    && pending <= issued
    && (forall i :: 0 <= i < |fifo| && fifo[i] >= 0 ==> fifo[i] in issued)
    && (forall i :: 0 <= i < |ws| && ws[i].Carries() ==> ws[i].id in issued)
  }

  ghost predicate HeldInTransfer(ws: seq<Phase>, id: nat) {
    exists i :: 0 <= i < |ws| && ws[i].Transfers() && ws[i].id == id
  }

  ghost predicate HeldRunning(ws: seq<Phase>, id: nat) {
    exists i :: 0 <= i < |ws| && ws[i] == Running(id)
  }

  /** A row's status says where its id is, and the other way round. */
  ghost predicate RowsTell(db: Rows, fifo: seq<int>, pending: set<nat>, ws: seq<Phase>) {
    && (forall id :: id in db ==> (db[id].status == VodQueued <==> id in fifo || id in pending))
    && (forall id :: id in db && db[id].status == VodDownloading ==> HeldInTransfer(ws, id))
    && (forall i :: 0 <= i < |ws| && ws[i].Transfers() && ws[i].id in db ==> db[ws[i].id].status == VodDownloading)
    && (forall i :: 0 <= i < |ws| && ws[i].Publishing? && ws[i].id in db ==> db[ws[i].id].status == Complete)
  }

  /** The registry has exactly the ids of the workers whose download process runs. */
  ghost predicate RegistryTells(procs: map<nat, bool>, ws: seq<Phase>) {
    forall id :: id in procs <==> HeldRunning(ws, id)
  }

  /** No stale cancel flag can swallow a later retry. */
  ghost predicate FlagsLive(cancelled: set<nat>, fifo: seq<int>, pending: set<nat>) {
    forall id :: id in cancelled ==> id in fifo || id in pending
  }

  function CountBusy(ws: seq<Phase>): nat {
    if ws == [] then 0 else (if ws[0].Busy() then 1 else 0) + CountBusy(ws[1..])
  }

  function CountWaiting(ws: seq<Phase>): nat {
    if ws == [] then 0 else (if ws[0].Waiting? then 1 else 0) + CountWaiting(ws[1..])
  }

  /** join()'s count is exact, and a stopping queue has an entry for every waiting worker. */
  ghost predicate CountsTell(unfinished: int, running: bool, fifo: seq<int>, ws: seq<Phase>) {
    && |ws| >= 1
    && unfinished == |fifo| + CountBusy(ws)
    && (!running ==> |fifo| >= CountWaiting(ws))
    && (running ==> forall i :: 0 <= i < |ws| ==> !ws[i].Abandoned?)
  }

  function Items(popped: seq<Popped>): seq<int> {
    if popped == [] then [] else Items(popped[..|popped| - 1]) + [popped[|popped| - 1].item]
  }

  /** The entries a handler must see: neither sentinels nor cancelled. */
  function Survivors(popped: seq<Popped>): seq<int> {
    if popped == [] then [] else
      var p := popped[|popped| - 1];
      Survivors(popped[..|popped| - 1]) + (if p.item != SENTINEL && !p.cancelled then [p.item] else [])
  }

  ghost predicate Conserved(fifo: seq<int>, log: Log) {
    && Items(log.popped) + fifo == log.put
    && log.dispatched == Survivors(log.popped)
  }

  ghost predicate Inv(s: State) {
    && Placement(s.fifo, s.pending, s.workers)
    && Known(s.db, s.issued, s.fifo, s.pending, s.workers)
    && RowsTell(s.db, s.fifo, s.pending, s.workers)
    && RegistryTells(s.procs, s.workers)
    && FlagsLive(s.cancelled, s.fifo, s.pending)
    && CountsTell(s.unfinished, s.running, s.fifo, s.workers)
    && Conserved(s.fifo, s.log)
  }

  // ---------------------------------------------------- one worker changes phase

  lemma {:induction false} CountsAfterUpdate(ws: seq<Phase>, w: nat, p: Phase)
    requires w < |ws|
    ensures CountBusy(ws[w := p]) == CountBusy(ws) - (if ws[w].Busy() then 1 else 0) + (if p.Busy() then 1 else 0)
    ensures CountWaiting(ws[w := p]) == CountWaiting(ws) - (if ws[w].Waiting? then 1 else 0) + (if p.Waiting? then 1 else 0)
  {
    if w == 0 {
      assert ws[w := p][1..] == ws[1..];
    } else {
      assert ws[w := p][1..] == ws[1..][w - 1 := p];
      CountsAfterUpdate(ws[1..], w - 1, p);
    }
  }

  lemma {:induction false} CountsBounded(ws: seq<Phase>)
    ensures CountWaiting(ws) + CountBusy(ws) <= |ws|
  {
    if ws == [] {
    } else {
      CountsBounded(ws[1..]);
    }
  }

  lemma {:induction false} FreshWorkersAreIdle(ws: seq<Phase>)
    requires forall i :: 0 <= i < |ws| ==> ws[i] == Created
    ensures CountBusy(ws) == 0 && CountWaiting(ws) == 0
  {
    if ws == [] {
    } else {
      FreshWorkersAreIdle(ws[1..]);
    }
  }

  /** A change of one worker's phase leaves every other worker holding what it held. */
  lemma HoldersAfterUpdate(ws: seq<Phase>, w: nat, p: Phase)
    requires w < |ws|
    ensures forall id :: HeldInTransfer(ws, id) && !(ws[w].Transfers() && ws[w].id == id) ==>
              HeldInTransfer(ws[w := p], id)
    ensures p.Transfers() ==> HeldInTransfer(ws[w := p], p.id)
  {
    var us := ws[w := p];
    assert us[w] == p;
    forall id | HeldInTransfer(ws, id) && !(ws[w].Transfers() && ws[w].id == id)
      ensures HeldInTransfer(us, id)
    {
      var i :| 0 <= i < |ws| && ws[i].Transfers() && ws[i].id == id;
      assert us[i] == ws[i];
    }
  }

  /** The registry follows when a worker starts or stops running a process. */
  lemma RegistryAfterUpdate(fifo: seq<int>, pending: set<nat>, procs: map<nat, bool>, after: map<nat, bool>,
                            ws: seq<Phase>, w: nat, p: Phase)
    requires Placement(fifo, pending, ws) && RegistryTells(procs, ws) && w < |ws|
    requires after.Keys == procs.Keys - (if ws[w].Running? then {ws[w].id} else {}) + (if p.Running? then {p.id} else {})
    requires p.Running? ==> ws[w].Carries() && ws[w].id == p.id
    ensures RegistryTells(after, ws[w := p])
  {
    var us := ws[w := p];
    assert us[w] == p;
    forall id
      ensures id in after <==> HeldRunning(us, id)
    {
      assert id in procs <==> HeldRunning(ws, id);
      if HeldRunning(ws, id) && ws[w] != Running(id) {
        var i :| 0 <= i < |ws| && ws[i] == Running(id);
        assert us[i] == ws[i];
      }
    }
  }

  lemma PlacesAfterUpdate(db: Rows, rows: Rows, issued: set<nat>, fifo: seq<int>, pending: set<nat>,
                          ws: seq<Phase>, w: nat, p: Phase)
    requires Placement(fifo, pending, ws) && Known(db, issued, fifo, pending, ws) && w < |ws|
    requires rows.Keys == db.Keys
    requires p.Carries() ==> ws[w].Carries() && ws[w].id == p.id
    ensures Placement(fifo, pending, ws[w := p]) && Known(rows, issued, fifo, pending, ws[w := p])
  {}

  lemma RowsAfterMove(db: Rows, fifo: seq<int>, pending: set<nat>, ws: seq<Phase>, w: nat, p: Phase)
    requires RowsTell(db, fifo, pending, ws) && w < |ws| && !p.Publishing?
    requires if ws[w].Transfers() then p.Transfers() && p.id == ws[w].id else !p.Transfers()
    ensures RowsTell(db, fifo, pending, ws[w := p])
  {
    HoldersAfterUpdate(ws, w, p);
  }

  /** Rows that differ at most in one row, which now reads one of the final statuses. */
  ghost predicate Settles(rows: Rows, db: Rows, id: nat) {
    && rows.Keys == db.Keys
    && (forall x :: x in db && x != id ==> rows[x] == db[x])
    && (id in db ==> rows[id].status in {Complete, VodFailed, VodCancelled})
  }

  lemma RowsAfterSettling(db: Rows, rows: Rows, fifo: seq<int>, pending: set<nat>, ws: seq<Phase>, w: nat, p: Phase)
    requires Placement(fifo, pending, ws) && RowsTell(db, fifo, pending, ws)
    requires w < |ws| && ws[w].Carries() && Settles(rows, db, ws[w].id)
    requires !p.Carries() || (p.Publishing? && p.id == ws[w].id && (p.id in rows ==> rows[p.id].status == Complete))
    ensures RowsTell(rows, fifo, pending, ws[w := p])
  {
    HoldersAfterUpdate(ws, w, p);
  }

  /** The entry at the head of the FIFO goes into a worker's hands. */
  lemma PlacesAfterTaking(db: Rows, rows: Rows, issued: set<nat>, fifo: seq<int>, pending: set<nat>,
                          ws: seq<Phase>, w: nat)
    requires rows.Keys == db.Keys
    requires Placement(fifo, pending, ws) && Known(db, issued, fifo, pending, ws)
    requires w < |ws| && ws[w].Waiting? && fifo != [] && fifo[0] >= 0
    ensures Placement(fifo[1..], pending, ws[w := Spawning(fifo[0])])
    ensures Known(rows, issued, fifo[1..], pending, ws[w := Spawning(fifo[0])])
  {
    assert fifo == [fifo[0]] + fifo[1..];
  }

  lemma PlacesAfterDropping(db: Rows, issued: set<nat>, fifo: seq<int>, pending: set<nat>, ws: seq<Phase>, w: nat)
    requires Placement(fifo, pending, ws) && Known(db, issued, fifo, pending, ws) && RowsTell(db, fifo, pending, ws)
    requires w < |ws| && ws[w].Waiting? && fifo != [] && fifo[0] == SENTINEL
    ensures Placement(fifo[1..], pending, ws[w := Stopped])
    ensures Known(db, issued, fifo[1..], pending, ws[w := Stopped])
    ensures RowsTell(db, fifo[1..], pending, ws[w := Stopped])
  {
    assert fifo == [fifo[0]] + fifo[1..];
    HoldersAfterUpdate(ws, w, Stopped);
  }

  lemma RowsAfterTaking(db: Rows, fifo: seq<int>, pending: set<nat>, ws: seq<Phase>, w: nat)
    requires Placement(fifo, pending, ws) && RowsTell(db, fifo, pending, ws)
    requires w < |ws| && ws[w].Waiting? && fifo != [] && fifo[0] >= 0
    ensures RowsTell(SetStatus(db, fifo[0], VodDownloading), fifo[1..], pending, ws[w := Spawning(fifo[0])])
  {
    assert fifo == [fifo[0]] + fifo[1..];
    HoldersAfterUpdate(ws, w, Spawning(fifo[0]));
  }

  /** Pending cancel flags and the two counts, when the head of the FIFO is taken. */
  lemma FlagsAfterTaking(cancelled: set<nat>, fifo: seq<int>, pending: set<nat>)
    requires FlagsLive(cancelled, fifo, pending) && fifo != []
    ensures FlagsLive(if fifo[0] >= 0 then cancelled - {fifo[0]} else cancelled, fifo[1..], pending)
  {
    assert fifo == [fifo[0]] + fifo[1..];
  }

  lemma CountsAfterTaking(unfinished: int, running: bool, fifo: seq<int>, ws: seq<Phase>, w: nat, p: Phase)
    requires CountsTell(unfinished, running, fifo, ws) && fifo != []
    requires w < |ws| && ws[w].Waiting? && !p.Waiting? && !p.Abandoned?
    ensures CountsTell(if p.Busy() then unfinished else unfinished - 1, running, fifo[1..], ws[w := p])
  {
    CountsAfterUpdate(ws, w, p);
  }

  lemma ConservedAfterTaking(fifo: seq<int>, log: Log, p: Popped)
    requires Conserved(fifo, log) && fifo != [] && p.item == fifo[0]
    ensures Conserved(fifo[1..], Log(log.put, log.popped + [p],
                        log.dispatched + if p.item != SENTINEL && !p.cancelled then [p.item] else []))
  {
    assert (log.popped + [p])[..|log.popped|] == log.popped;
    assert fifo == [fifo[0]] + fifo[1..];
  }

  // -------------------------------------------------------- the workers' steps

  /** What the invariant says about the recording a worker holds. */
  lemma HeldFacts(s: State, w: nat)
    requires Inv(s) && w < |s.workers| && s.workers[w].Carries()
    ensures var p := s.workers[w];
            && (p.id in s.procs <==> p.Running?)
            && (p.id in s.db ==> s.db[p.id].status == if p.Publishing? then Complete else VodDownloading)
  {
    var p := s.workers[w];
    assert p.id in s.procs <==> HeldRunning(s.workers, p.id);
  }

  lemma SettledRows(db: Rows, id: nat, message: string)
    ensures Settles(SetOutcome(db, id, VodFailed, Some(message)), db, id)
    ensures Settles(SetOutcome(db, id, VodCancelled, None), db, id)
    ensures Settles(SetStatus(db, id, Complete), db, id)
    ensures Settles(SetStatus(db, id, VodCancelled), db, id)
    ensures (id in db ==> db[id].status == Complete) ==> Settles(db, db, id)
  {}

  lemma FinishKeepsInv(s: State, w: nat, rows: Rows)
    requires Inv(s) && w < |s.workers| && s.workers[w].Busy()
    requires Settles(rows, s.db, s.workers[w].id)
    ensures Inv(Finish(s.(db := rows), w, s.workers[w].id))
  {
    HeldFacts(s, w);
    assert rows.Keys == s.db.Keys;
    hide Placement, Known, RowsTell, RegistryTells, FlagsLive, Conserved, Settles;
    var p := if s.running then Waiting else Stopped;
    var id := s.workers[w].id;
    CountsAfterUpdate(s.workers, w, p);
    PlacesAfterUpdate(s.db, rows, s.issued, s.fifo, s.pending, s.workers, w, p);
    RowsAfterSettling(s.db, rows, s.fifo, s.pending, s.workers, w, p);
    RegistryAfterUpdate(s.fifo, s.pending, s.procs, s.procs - {id}, s.workers, w, p);
  }

  /** A worker moves on with the recording it holds; the row stays or becomes complete. */
  lemma AdvanceKeepsInv(s: State, w: nat, p: Phase, rows: Rows, procs: map<nat, bool>)
    requires Inv(s) && w < |s.workers| && s.workers[w].Busy() && p.Busy() && p.id == s.workers[w].id
    requires if p.Publishing? then Settles(rows, s.db, p.id) && (p.id in rows ==> rows[p.id].status == Complete)
             else rows == s.db && s.workers[w].Transfers()
    requires procs.Keys == s.procs.Keys - (if s.workers[w].Running? then {p.id} else {}) + (if p.Running? then {p.id} else {})
    ensures Inv(s.(procs := procs, db := rows, workers := s.workers[w := p]))
  {
    assert rows.Keys == s.db.Keys;
    hide Placement, Known, RowsTell, RegistryTells, FlagsLive, Conserved, Settles;
    CountsAfterUpdate(s.workers, w, p);
    PlacesAfterUpdate(s.db, rows, s.issued, s.fifo, s.pending, s.workers, w, p);
    RegistryAfterUpdate(s.fifo, s.pending, s.procs, procs, s.workers, w, p);
    if p.Publishing? {
      RowsAfterSettling(s.db, rows, s.fifo, s.pending, s.workers, w, p);
    } else {
      RowsAfterMove(s.db, s.fifo, s.pending, s.workers, w, p);
    }
  }

  /** The head of the FIFO goes into the hands of worker w, whatever becomes of it next. */
  function TakeJob(s: State, w: nat): State
    requires w < |s.workers| && s.fifo != [] && s.fifo[0] >= 0
  {
    var id := s.fifo[0];
    s.(fifo := s.fifo[1..], db := SetStatus(s.db, id, VodDownloading), workers := s.workers[w := Spawning(id)],
       cancelled := s.cancelled - {id},
       log := Log(s.log.put, s.log.popped + [Popped(id, false)], s.log.dispatched + [id]))
  }

  lemma TakeJobKeepsInv(s: State, w: nat)
    requires Inv(s) && w < |s.workers| && s.workers[w].Waiting? && s.fifo != [] && s.fifo[0] >= 0
    ensures Inv(TakeJob(s, w))
  {
    hide Placement, Known, RowsTell, RegistryTells, FlagsLive, CountsTell, Conserved;
    var p := Spawning(s.fifo[0]);
    CountsAfterTaking(s.unfinished, s.running, s.fifo, s.workers, w, p);
    PlacesAfterTaking(s.db, SetStatus(s.db, s.fifo[0], VodDownloading), s.issued, s.fifo, s.pending, s.workers, w);
    RowsAfterTaking(s.db, s.fifo, s.pending, s.workers, w);
    RegistryAfterUpdate(s.fifo, s.pending, s.procs, s.procs, s.workers, w, p);
    FlagsAfterTaking(s.cancelled, s.fifo, s.pending);
    ConservedAfterTaking(s.fifo, s.log, Popped(s.fifo[0], false));
  }

  lemma TakeSentinelKeepsInv(s: State, w: nat)
    requires Inv(s) && Enabled(s, Pop(w, false)) && s.fifo[0] == SENTINEL
    ensures Inv(AfterPop(s, w, false))
  {
    hide Placement, Known, RowsTell, RegistryTells, FlagsLive, CountsTell, Conserved;
    CountsAfterTaking(s.unfinished, s.running, s.fifo, s.workers, w, Stopped);
    PlacesAfterDropping(s.db, s.issued, s.fifo, s.pending, s.workers, w);
    RegistryAfterUpdate(s.fifo, s.pending, s.procs, s.procs, s.workers, w, Stopped);
    FlagsAfterTaking(s.cancelled, s.fifo, s.pending);
    ConservedAfterTaking(s.fifo, s.log, Popped(SENTINEL, false));
    assert s.log.dispatched + [] == s.log.dispatched;
  }

  /** A popped job that ends within the same step: skipped, row gone, or stream missing. */
  function TakeAndFinish(s: State, w: nat, rows: Rows, skip: bool): State
    requires w < |s.workers| && s.fifo != [] && s.fifo[0] >= 0
  {
    var id := s.fifo[0];
    var log := Log(s.log.put, s.log.popped + [Popped(id, skip)], s.log.dispatched + if skip then [] else [id]);
    Leave(s.(fifo := s.fifo[1..], db := rows, cancelled := s.cancelled - {id}, log := log), w)
  }

  lemma TakeAndFinishIsBoth(s: State, w: nat, rows: Rows, skip: bool)
    requires w < |s.workers| && s.fifo != [] && s.fifo[0] >= 0 && s.fifo[0] !in s.procs
    ensures TakeAndFinish(s, w, rows, skip)
         == Finish(TakeJob(s, w).(db := rows), w, s.fifo[0]).(log := TakeAndFinish(s, w, rows, skip).log)
  {
    var id := s.fifo[0];
    assert s.procs - {id} == s.procs;
    var p := if s.running then Waiting else Stopped;
    assert s.workers[w := Spawning(id)][w := p] == s.workers[w := p];
  }

  lemma RelogKeepsInv(s: State, log: Log)
    requires Inv(s) && Conserved(s.fifo, log)
    ensures Inv(s.(log := log))
  {
    hide Placement, Known, RowsTell, RegistryTells, FlagsLive, CountsTell, Conserved;
  }

  lemma TakeAndFinishKeepsInv(s: State, w: nat, rows: Rows, skip: bool)
    requires Inv(s) && w < |s.workers| && s.workers[w].Waiting? && s.fifo != [] && s.fifo[0] >= 0
    requires Settles(rows, s.db, s.fifo[0])
    ensures Inv(TakeAndFinish(s, w, rows, skip)) && s.fifo[0] !in s.procs
  {
    hide Placement, Known, RowsTell, RegistryTells, FlagsLive, CountsTell, Conserved, Settles;
    var t := TakeJob(s, w);
    SettlingIsTransitive(rows, s.db, s.fifo[0]);
    TakeJobKeepsInv(s, w);
    HeldFacts(t, w);
    FinishKeepsInv(t, w, rows);
    TakeAndFinishIsBoth(s, w, rows, skip);
    ConservedAfterTaking(s.fifo, s.log, Popped(s.fifo[0], skip));
    RelogKeepsInv(Finish(t.(db := rows), w, s.fifo[0]), TakeAndFinish(s, w, rows, skip).log);
  }

  lemma SettlingIsTransitive(rows: Rows, db: Rows, id: nat)
    requires Settles(rows, db, id)
    ensures Settles(rows, SetStatus(db, id, VodDownloading), id)
  {}

  /** Every outcome of a pop but the sentinel is "take, and perhaps finish at once". */
  lemma PopKeepsInv(s: State, w: nat, missing: bool)
    requires Inv(s) && Enabled(s, Pop(w, missing))
    ensures Inv(Step(s, Pop(w, missing)))
  {
    hide Placement, Known, RowsTell, RegistryTells, FlagsLive, CountsTell, Conserved, Settles;
    var item := s.fifo[0];
    if item == SENTINEL {
      TakeSentinelKeepsInv(s, w);
    } else {
      QueuedFacts(s, item);
      SettledRows(s.db, item, "stream missing");
      if item in s.cancelled {
        TakeAndFinishKeepsInv(s, w, SetStatus(s.db, item, VodCancelled), true);
        assert SetStatus(s.db, item, VodCancelled) == if item in s.db then s.db[item := s.db[item].(status := VodCancelled)] else s.db;
        assert s.log.dispatched + [] == s.log.dispatched;
      } else if item !in s.db || missing {
        TakeAndFinishKeepsInv(s, w, SetOutcome(s.db, item, VodFailed, Some("stream missing")), false);
        assert s.procs - {item} == s.procs && s.cancelled - {item} == s.cancelled;
      } else {
        TakeJobKeepsInv(s, w);
        assert s.cancelled - {item} == s.cancelled;
      }
    }
  }

  /** What the invariant says about a recording waiting in the FIFO. */
  lemma QueuedFacts(s: State, id: nat)
    requires Inv(s) && id in s.fifo
    ensures id in s.db ==> s.db[id].status == VodQueued
  {
    hide Placement, Known, RegistryTells, FlagsLive, CountsTell, Conserved;
  }

  lemma SpawnedKeepsInv(s: State, w: nat)
    requires Inv(s) && Enabled(s, Spawned(w))
    ensures Inv(Step(s, Spawned(w)))
  {
    HeldFacts(s, w);
    hide Inv;
    var id := s.workers[w].id;
    AdvanceKeepsInv(s, w, Running(id), s.db, s.procs[id := false]);
  }

  lemma ExitedKeepsInv(s: State, w: nat, code: int, output: string)
    requires Inv(s) && Enabled(s, Exited(w, code, output))
    ensures Inv(Step(s, Exited(w, code, output)))
  {
    var id := s.workers[w].id;
    HeldFacts(s, w);
    hide Inv, Settles;
    SettledRows(s.db, id, Clip(output));
    if code < 0 {
      FinishKeepsInv(s, w, SetOutcome(s.db, id, VodCancelled, None));
    } else if code != 0 {
      FinishKeepsInv(s, w, SetOutcome(s.db, id, VodFailed, Some(Clip(output))));
    } else {
      AdvanceKeepsInv(s, w, Probing(id), s.db, s.procs - {id});
    }
  }

  lemma ProbedKeepsInv(s: State, w: nat, publishes: nat)
    requires Inv(s) && Enabled(s, Probed(w, publishes))
    ensures Inv(Step(s, Probed(w, publishes)))
  {
    var id := s.workers[w].id;
    HeldFacts(s, w);
    hide Inv, Settles;
    SettledRows(s.db, id, "");
    var rows := SetStatus(s.db, id, Complete);
    if id !in s.db || publishes == 0 {
      FinishKeepsInv(s, w, rows);
    } else {
      AdvanceKeepsInv(s, w, Publishing(id, publishes), rows, s.procs);
    }
  }

  lemma RaisedKeepsInv(s: State, w: nat, message: string)
    requires Inv(s) && Enabled(s, Raised(w, message))
    ensures Inv(Step(s, Raised(w, message)))
  {
    hide Inv, Settles;
    SettledRows(s.db, s.workers[w].id, Clip(message));
    FinishKeepsInv(s, w, SetOutcome(s.db, s.workers[w].id, VodFailed, Some(Clip(message))));
  }

  lemma PublishReturnedKeepsInv(s: State, w: nat)
    requires Inv(s) && Enabled(s, PublishReturned(w))
    ensures Inv(Step(s, PublishReturned(w)))
  {
    var p := s.workers[w];
    HeldFacts(s, w);
    hide Inv, Settles;
    SettledRows(s.db, p.id, "");
    assert s.(db := s.db) == s;
    if p.left <= 1 {
      FinishKeepsInv(s, w, s.db);
    } else {
      AdvanceKeepsInv(s, w, Publishing(p.id, p.left - 1), s.db, s.procs);
    }
  }

  lemma TimedOutKeepsInv(s: State, w: nat)
    requires Inv(s) && Enabled(s, TimedOut(w))
    ensures Inv(Step(s, TimedOut(w)))
  {
    var p := s.workers[w];
    if p.Carries() {
      HeldFacts(s, w);
    }
    var t := Step(s, TimedOut(w));
    var q := t.workers[w];
    hide Placement, Known, RowsTell, RegistryTells, FlagsLive, Conserved, CountsTell;
    CountsAfterTimeout(s.unfinished, s.fifo, s.workers, w, q);
    RowsAfterMove(s.db, s.fifo, s.pending, s.workers, w, q);
    PlacesAfterUpdate(s.db, s.db, s.issued, s.fifo, s.pending, s.workers, w, q);
    RegistryAfterUpdate(s.fifo, s.pending, s.procs, t.procs, s.workers, w, q);
  }

  lemma CountsAfterTimeout(unfinished: int, fifo: seq<int>, ws: seq<Phase>, w: nat, q: Phase)
    requires CountsTell(unfinished, false, fifo, ws) && w < |ws| && !q.Busy() && !q.Waiting?
    ensures CountsTell(if ws[w].Busy() then unfinished - 1 else unfinished, false, fifo, ws[w := q])
  {
    CountsAfterUpdate(ws, w, q);
  }

  lemma BeginKeepsInv(s: State, w: nat)
    requires Inv(s) && Enabled(s, Begin(w))
    ensures Inv(Step(s, Begin(w)))
  {
    var p := if s.running then Waiting else Stopped;
    hide Placement, Known, RowsTell, RegistryTells, FlagsLive, Conserved;
    CountsAfterUpdate(s.workers, w, p);
    RowsAfterMove(s.db, s.fifo, s.pending, s.workers, w, p);
    PlacesAfterUpdate(s.db, s.db, s.issued, s.fifo, s.pending, s.workers, w, p);
    RegistryAfterUpdate(s.fifo, s.pending, s.procs, s.procs, s.workers, w, p);
  }

  // ------------------------------------------------------- the callers' steps

  /** A row is committed as vod_queued and its enqueue call is still to come. */
  lemma CommitKeepsInv(s: State, id: nat)
    requires Inv(s) && (id in s.db ==> s.db[id].status == VodFailed) && (id !in s.db ==> id !in s.issued)
    ensures Inv(s.(db := s.db[id := Recording(VodQueued, None)], issued := s.issued + {id}, pending := s.pending + {id}))
  {
    assert forall i :: 0 <= i < |s.workers| && s.workers[i].Carries() ==> s.workers[i].id != id;
    assert id !in s.fifo;
    hide RegistryTells, CountsTell, Conserved;
  }

  lemma RetryKeepsInv(s: State, id: nat)
    requires Inv(s)
    ensures Inv(Step(s, Retry(id)))
  {
    if RetryReply(s, id).Replied? {
      CommitKeepsInv(s, id);
      assert s.issued + {id} == s.issued;
    }
  }

  lemma EnqueueKeepsInv(s: State, id: nat)
    requires Inv(s) && id in s.pending
    ensures Inv(Step(s, Enqueue(id)))
  {
    hide RegistryTells;
  }

  lemma DeleteKeepsInv(s: State, id: nat)
    requires Inv(s)
    ensures Inv(Step(s, Delete(id)))
  {
    hide Placement, RegistryTells, FlagsLive, CountsTell, Conserved;
  }

  lemma CancelKeepsInv(s: State, id: nat)
    requires Inv(s)
    ensures Inv(Step(s, Cancel(id)))
  {
    hide Placement, Known, CountsTell, Conserved;
  }

  lemma StopKeepsInv(s: State)
    requires Inv(s)
    ensures Inv(Step(s, Stop))
  {
    hide RegistryTells;
    CountsBounded(s.workers);
  }

  lemma BootPlaces(rows: Rows, issued: set<nat>, ids: seq<int>, ws: seq<Phase>)
    requires rows.Keys <= issued && (forall id :: id in rows ==> rows[id].status != VodDownloading)
    requires forall i, j :: 0 <= i < j < |ids| ==> ids[i] < ids[j]
    requires forall i :: 0 <= i < |ids| ==> ids[i] >= 0
    requires forall id :: id in ids <==> id in IdsWith(rows, VodQueued)
    requires forall i :: 0 <= i < |ws| ==> ws[i] == Created
    ensures Placement(ids, {}, ws) && Known(rows, issued, ids, {}, ws) && RowsTell(rows, ids, {}, ws)
  {
    assert forall i :: 0 <= i < |ids| ==> ids[i] in ids;
  }

  lemma BootKeepsInv(db: Rows, issued: set<nat>, cap: int)
    requires db.Keys <= issued
    ensures Inv(Boot(db, issued, cap))
  {
    hide Placement, Known, RowsTell, CountBusy, CountWaiting;
    var s := Boot(db, issued, cap);
    BootPlaces(s.db, issued, s.fifo, s.workers);
    FreshWorkersAreIdle(s.workers);
  }

  lemma RestartKeepsInv(s: State, cap: int)
    requires Inv(s)
    ensures Inv(Step(s, Restart(cap)))
  {
    BootKeepsInv(s.db, s.issued, cap);
  }

  /** Every step of every task, endpoint and crash keeps the ownership invariant. */
  lemma StepKeepsInv(s: State, a: Action)
    requires Inv(s) && Enabled(s, a)
    ensures Inv(Step(s, a))
  {
    hide Inv, Step;
    match a
    case Create(id) => CreateKeepsInv(s, id);
    case Enqueue(id) => EnqueueKeepsInv(s, id);
    case Retry(id) => RetryKeepsInv(s, id);
    case Delete(id) => DeleteKeepsInv(s, id);
    case Cancel(id) => CancelKeepsInv(s, id);
    case Begin(w) => BeginKeepsInv(s, w);
    case Pop(w, missing) => PopKeepsInv(s, w, missing);
    case Spawned(w) => SpawnedKeepsInv(s, w);
    case Exited(w, code, output) => ExitedKeepsInv(s, w, code, output);
    case Probed(w, publishes) => ProbedKeepsInv(s, w, publishes);
    case Raised(w, message) => RaisedKeepsInv(s, w, message);
    case PublishReturned(w) => PublishReturnedKeepsInv(s, w);
    case Stop => StopKeepsInv(s);
    case TimedOut(w) => TimedOutKeepsInv(s, w);
    case Restart(cap) => RestartKeepsInv(s, cap);
  }

  lemma CreateKeepsInv(s: State, id: nat)
    requires Inv(s) && Enabled(s, Create(id))
    ensures Inv(Step(s, Create(id)))
  {
    CommitKeepsInv(s, id);
  }
}
