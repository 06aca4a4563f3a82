/**
  The slow refresh in its own form: the cache rows, the module-level set of
  cancel requests, and the batch loop that fills two dictionaries and merges
  them into the cached list again and again.
 */
module BacklogRefresh {
  import opened Wrappers
  import opened BacklogRefreshSpec

  class BacklogCache {
    var rows: map<nat, CacheRow>
    var cancelRequests: set<nat>

    ghost function RowOf(w: nat): Option<CacheRow>
      reads this
    {
      if w in rows then Some(rows[w]) else None
    }

    method RequestCancel(w: nat)
      modifies this`cancelRequests
      ensures cancelRequests == old(cancelRequests) + {w}
    {
      cancelRequests := cancelRequests + {w};
    }

    method ConsumeCancel(w: nat) returns (pending: bool)
      modifies this`cancelRequests
      ensures pending <==> w in old(cancelRequests)
      ensures cancelRequests == old(cancelRequests) - {w}
    {
      pending := w in cancelRequests;
      cancelRequests := cancelRequests - {w};
    }

    /** The flat extract; `during` says whether a cancel request arrives while it runs. */
    method FetchFullChannel(w: nat, world: World) returns (r: Result<nat, string>)
      modifies this
      ensures rows == old(rows)[w := Listed(old(RowOf(w)), world.listing, world.now)]
      ensures cancelRequests == old(cancelRequests) + if world.cancelDuringListing then {w} else {}
      ensures r == match world.listing case Ok(uploads) => Ok(|uploads|) case Err(e) => Err(e)
    {
      if w !in rows {
        rows := rows[w := EmptyRow()];
      }
      rows := rows[w := rows[w].(status := Fetching, error := None, progress := 0)];
      if world.cancelDuringListing {
        RequestCancel(w);
      }
      match world.listing
      case Err(e) =>
        rows := rows[w := rows[w].(status := Failed, error := Some(Clip(e)))];
        return Err(e);
      case Ok(uploads) =>
        rows := rows[w := CacheRow(Done, Flat(uploads), 100, |uploads|, None, Some(world.now))];
        return Ok(|uploads|);
    }

    method FetchWithViews(w: nat, world: World) returns (r: Result<nat, string>, calls: seq<string>)
      modifies this
      ensures var after := Refresh(old(RowOf(w)), w in old(cancelRequests), world);
              && rows == old(rows)[w := after.row]
              && cancelRequests == WithFlag(old(cancelRequests), w, after.flag)
              && calls == after.calls
              && (r.Err? <==> after.raised)
              && (r.Ok? ==> r.value == |after.row.items|)
    {
      hide ProbePhase;
      calls := [];
      var resume := w in rows && rows[w].status == Cancelled && exists it :: it in rows[w].items && IsProbed(it);
      if resume {
        StatusIsOverwritten(rows[w].(error := None), Fetching, w in cancelRequests, world);
        r := Ok(|rows[w].items|);
        rows := rows[w := rows[w].(status := Fetching, error := None)];
      } else {
        r := FetchFullChannel(w, world);
        assert cancelRequests == WithFlag(old(cancelRequests), w, w in cancelRequests);
        if r.Err? {
          return;
        }
      }
      calls := ProbeAll(w, world);
    }

    /** The probing phase around its loop. */
    method ProbeAll(w: nat, world: World) returns (calls: seq<string>)
      requires w in rows
      modifies this
      ensures var after := ProbePhase(old(rows)[w], w in old(cancelRequests), world);
              && rows == old(rows)[w := after.row]
              && cancelRequests == WithFlag(old(cancelRequests), w, after.flag)
              && calls == after.calls
              && |after.row.items| == |old(rows)[w].items|
              && !after.raised
    {
      ghost var start := rows[w];
      var ids := ToProbe(rows[w].items);
      assert Merged(start.items, [], world.probe) == start.items;
      rows := rows[w := rows[w].(status := Fetching, progress := Percent(CountProbed(rows[w].items), |rows[w].items|))];
      if ids == [] {
        rows := rows[w := rows[w].(status := Done, fetchedAt := Some(world.now), progress := 100)];
        return [];
      }
      var cancelled;
      calls, cancelled := ProbeBatches(w, world, ids, start);
      if cancelled {
        rows := rows[w := rows[w].(status := Cancelled)];
      } else {
        rows := rows[w := rows[w].(status := Done, fetchedAt := Some(world.now), progress := 100)];
      }
    }

    /** Batches of 20, a poll of the cancel flag before each. */
    method ProbeBatches(w: nat, world: World, ids: seq<string>, ghost start: CacheRow)
      returns (calls: seq<string>, cancelled: bool)
      requires w in rows && rows[w] == InProgress(start, [], world.probe)
      modifies this
      ensures var n := BatchCount(|ids|);
              var stop := StopsAt(w in old(cancelRequests), world.cancelDuringBatch, n, 0);
              && calls == IdsAfter(ids, stop)
              && (cancelled <==> stop < n)
              && cancelRequests == WithFlag(old(cancelRequests), w,
                                            FlagAfter(w in old(cancelRequests), world.cancelDuringBatch, n, 0))
      ensures rows == old(rows)[w := InProgress(start, calls, world.probe)]
    {
      var n := BatchCount(|ids|);
      var views: map<string, Option<int>> := map[];
      var likes: map<string, Option<int>> := map[];
      calls, cancelled := [], false;
      var k := 0;
      ghost var flag := w in cancelRequests;
      assert IdsAfter(ids, 0) == calls && Collected(views, likes, calls, world.probe);
      hide Collected, InProgress, IdsAfter, Batch, BatchCount;
      while k < n && !cancelled
        invariant k <= n
        invariant cancelRequests == WithFlag(old(cancelRequests), w, flag && !cancelled)
        invariant cancelled ==> k < n && flag
        invariant StopsAt(w in old(cancelRequests), world.cancelDuringBatch, n, 0) == StopsAt(flag, world.cancelDuringBatch, n, k)
        invariant FlagAfter(w in old(cancelRequests), world.cancelDuringBatch, n, 0) == FlagAfter(flag, world.cancelDuringBatch, n, k)
        invariant calls == IdsAfter(ids, k) && Collected(views, likes, calls, world.probe)
        invariant rows == old(rows)[w := InProgress(start, calls, world.probe)]
        decreases n - k, !cancelled
      {
        cancelled := ConsumeCancel(w);
        if !cancelled {
          var batch := Batch(ids, k);
          BatchExtends(ids, k);
          views, likes := ProbeBatch(w, k, batch, world, views, likes, calls, start);
          calls := calls + batch;
          flag := world.cancelDuringBatch(k);
          k := k + 1;
        }
      }
    }

    /** One batch: its probes, during which a cancel request may arrive, and its session. */
    method ProbeBatch(w: nat, k: nat, batch: seq<string>, world: World, views0: map<string, Option<int>>,
                      likes0: map<string, Option<int>>, ghost calls: seq<string>, ghost start: CacheRow)
      returns (views: map<string, Option<int>>, likes: map<string, Option<int>>)
      requires w in rows && rows[w] == InProgress(start, calls, world.probe)
      requires Collected(views0, likes0, calls, world.probe)
      modifies this
      ensures rows == old(rows)[w := InProgress(start, calls + batch, world.probe)]
      ensures cancelRequests == old(cancelRequests) + if world.cancelDuringBatch(k) then {w} else {}
      ensures Collected(views, likes, calls + batch, world.probe)
    {
      hide Collected, InProgress;
      if world.cancelDuringBatch(k) {
        RequestCancel(w);
      }
      views, likes := CollectBatch(batch, world.probe, views0, likes0, calls);
      StoreCounts(w, views, likes, start, calls, calls + batch, world.probe);
    }

    /** The session at the end of a batch: merge everything collected so far, update the percentage. */
    method StoreCounts(w: nat, views: map<string, Option<int>>, likes: map<string, Option<int>>,
                       ghost start: CacheRow, ghost before: seq<string>, ghost calls: seq<string>, ghost probe: Probe)
      requires w in rows && rows[w] == InProgress(start, before, probe)
      requires before <= calls && Collected(views, likes, calls, probe)
      modifies this`rows
      ensures rows == old(rows)[w := InProgress(start, calls, probe)]
    {
      MergingAgain(start.items, before, calls, probe);
      var merged := MergeCounts(rows[w].items, views, likes);
      assert merged == Merged(start.items, calls, probe);
      rows := rows[w := rows[w].(items := merged, progress := Percent(CountProbed(merged), |merged|))];
    }
  }

  /** The set of cancel requests with the one for w set or cleared. */
  ghost function WithFlag(requests: set<nat>, w: nat, flag: bool): set<nat> {
    if flag then requests + {w} else requests - {w}
  }

  /** The row while its probing phase is through with the ids in `calls`. */
  ghost function InProgress(start: CacheRow, calls: seq<string>, probe: Probe): CacheRow {
    var items := Merged(start.items, calls, probe);
    start.(status := Fetching, items := items, progress := Percent(CountProbed(items), |items|))
  }

  /** The two dictionaries hold what the probes said about the ids called so far. */
  ghost predicate Collected(views: map<string, Option<int>>, likes: map<string, Option<int>>,
                            calls: seq<string>, probe: Probe)
  {
    && (forall id :: id in views <==> id in calls)
    && (forall id :: id in likes <==> id in calls)
    && (forall id :: id in views ==> views[id] == probe(id).views)
    && (forall id :: id in likes ==> likes[id] == probe(id).likes)
  }

  function Batch(ids: seq<string>, k: nat): seq<string>
    requires k < BatchCount(|ids|)
  {
    if (k + 1) * BATCH_SIZE <= |ids| then ids[k * BATCH_SIZE..(k + 1) * BATCH_SIZE] else ids[k * BATCH_SIZE..]
  }

  lemma BatchExtends(ids: seq<string>, k: nat)
    requires k < BatchCount(|ids|)
    ensures IdsAfter(ids, k) + Batch(ids, k) == IdsAfter(ids, k + 1)
  {}

  /** gather() over one batch, its results put into the dictionaries. */
  method CollectBatch(batch: seq<string>, probe: Probe,
                      views0: map<string, Option<int>>, likes0: map<string, Option<int>>, ghost calls: seq<string>)
    returns (views: map<string, Option<int>>, likes: map<string, Option<int>>)
    requires Collected(views0, likes0, calls, probe)
    ensures Collected(views, likes, calls + batch, probe)
  {
    views, likes := views0, likes0;
    var i := 0;
    while i < |batch|
      invariant i <= |batch|
      invariant Collected(views, likes, calls + batch[..i], probe)
    {
      var id := batch[i];
      assert calls + batch[..i + 1] == calls + batch[..i] + [id];
      views := views[id := probe(id).views];
      likes := likes[id := probe(id).likes];
      i := i + 1;
    }
    assert batch[..i] == batch;
  }

  /** The merge of the dictionaries into the list, entry by entry. */
  function Updated(it: Item, views: map<string, Option<int>>, likes: map<string, Option<int>>): Item {
    var id := it.upload.youtubeId;
    if id in views || id in likes then
      it.(viewCount := if id in views then views[id] else it.viewCount,
          likeCount := if id in likes then likes[id] else it.likeCount)
    else it
  }

  method MergeCounts(items: seq<Item>, views: map<string, Option<int>>, likes: map<string, Option<int>>)
    returns (merged: seq<Item>)
    ensures |merged| == |items|
    ensures forall i :: 0 <= i < |items| ==> merged[i] == Updated(items[i], views, likes)
  {
    merged := [];
    var i := 0;
    while i < |items|
      invariant i <= |items| && |merged| == i
      invariant forall j :: 0 <= j < i ==> merged[j] == Updated(items[j], views, likes)
    {
      merged := merged + [Updated(items[i], views, likes)];
      i := i + 1;
    }
  }

  /** Merging all results so far into the list that already has some is merging them once. */
  lemma MergingAgain(items: seq<Item>, before: seq<string>, calls: seq<string>, probe: Probe)
    requires before <= calls
    ensures Merged(Merged(items, before, probe), calls, probe) == Merged(items, calls, probe)
  {
    assert forall id :: id in before ==> id in calls;
  }
}
