/**
  What the slow refresh promises its users, said of the rows' fields: a cancelled
  refresh is taken up where it stopped, its calls add up to one per video, and
  what a fresh refresh, a flat one and a browse leave in the cache.
 */
module BacklogResume {
  import opened Wrappers
  import opened BacklogRefreshSpec

  /** The ids of the entries with neither count, in list order. */
  function Uncounted(items: seq<Item>): seq<string> {
    if items == [] then [] else
      (if items[0].viewCount.None? && items[0].likeCount.None? then [items[0].upload.youtubeId] else []) + Uncounted(items[1..])
  }

  lemma {:induction false} UncountedAreToProbe(items: seq<Item>)
    ensures ToProbe(items) == Uncounted(items)
    ensures CountProbed(items) + |Uncounted(items)| == |items|
  {
    if items == [] {
    } else {
      UncountedAreToProbe(items[1..]);
    }
  }

  function Ids(uploads: seq<Upload>): (ids: seq<string>)
    ensures |ids| == |uploads| && forall i :: 0 <= i < |ids| ==> ids[i] == uploads[i].youtubeId
  {
    seq(|uploads|, i requires 0 <= i < |uploads| => uploads[i].youtubeId)
  }

  // ------------------------------------------------------------------- resuming

  lemma ResumedPhase(row: CacheRow, flag: bool, world: World)
    ensures var r := ProbePhase(row, flag, world);
            && !r.raised && r.row.status in {Done, Cancelled} && r.calls <= Uncounted(row.items)
            && (r.row.status == Done ==> r.calls == Uncounted(row.items))
            && r.row.error == row.error && r.row.totalCount == row.totalCount
            && (r.row.status == Done ==> r.row.fetchedAt == Some(world.now) && r.row.progress == 100)
            && (r.row.status == Cancelled ==> r.row.fetchedAt == row.fetchedAt)
            && |r.row.items| == |row.items|
            && forall j :: 0 <= j < |row.items| ==> ProbedIfCalled(row.items[j], r.row.items[j], r.calls, world.probe)
  {
    UncountedAreToProbe(row.items);
    hide Uncounted, ToProbe, Percent, StopsAt, FlagAfter;
  }

  /** The upload stays; the counts are those of the probe if its id was called, and otherwise the old ones. */
  ghost predicate ProbedIfCalled(before: Item, after: Item, calls: seq<string>, probe: Probe) {
    var id := before.upload.youtubeId;
    && after.upload == before.upload
    && after.viewCount == (if id in calls then probe(id).views else before.viewCount)
    && after.likeCount == (if id in calls then probe(id).likes else before.likeCount)
  }

  /**
    From a cancelled row in which some entry has a count, reached in whatever way:
    the refresh does not depend on the channel's listing and cannot raise; it
    calls, in order, ids of entries without counts, all of them unless it is
    cancelled again; called entries get their probe's counts and all others keep
    what they have, as every entry with a count does.
   */
  lemma CancelledRefreshIsResumed(events: seq<Event>, world: World, i: nat)
    requires Reached(events).row.Some? && Reached(events).row.value.status == Cancelled
    requires i < |Reached(events).row.value.items|
    requires Reached(events).row.value.items[i].viewCount.Some? || Reached(events).row.value.items[i].likeCount.Some?
    ensures var c := Reached(events);
            var row, r := c.row.value, Refresh(c.row, c.flag, world);
            && (forall listing, meanwhile ::
                  Refresh(c.row, c.flag, world.(listing := listing, cancelDuringListing := meanwhile)) == r)
            && !r.raised && r.row.status in {Done, Cancelled}
            && r.calls <= Uncounted(row.items) && (r.row.status == Done ==> r.calls == Uncounted(row.items))
            && |r.row.items| == |row.items| && r.row.items[i] == row.items[i]
            && (forall j :: 0 <= j < |row.items| ==> ProbedIfCalled(row.items[j], r.row.items[j], r.calls, world.probe))
            && r.row.error == None && r.row.totalCount == row.totalCount
            && r.row.fetchedAt == if r.row.status == Done then Some(world.now) else row.fetchedAt
  {
    var c := Reached(events);
    var row := c.row.value;
    assert IsProbed(row.items[i]) && row.items[i] in row.items;
    ResumeNeverReprobes(events, world, i);
    ResumedPhase(row.(error := None), c.flag, world);
    hide ProbePhase, Reached, Uncounted;
    forall listing, meanwhile
      ensures Refresh(c.row, c.flag, world.(listing := listing, cancelDuringListing := meanwhile)) == Refresh(c.row, c.flag, world)
    {
      ListingDoesNotMatter(row.(error := None), c.flag, world, listing, meanwhile);
    }
  }

  lemma ListingDoesNotMatter(row: CacheRow, flag: bool, world: World, listing: Result<seq<Upload>, string>, meanwhile: bool)
    ensures ProbePhase(row, flag, world.(listing := listing, cancelDuringListing := meanwhile)) == ProbePhase(row, flag, world)
  {}

  // ------------------------------------------------------------- the calls of a run

  function AllCalls(row: Option<CacheRow>, flag: bool, worlds: seq<World>): seq<string>
    decreases |worlds|
  {
    if worlds == [] then [] else
      var r := Refresh(row, flag, worlds[0]);
      r.calls + AllCalls(Some(r.row), r.flag, worlds[1..])
  }

  /** No refresh but the last runs to its end. */
  ghost predicate OnlyTheLastIsDone(row: Option<CacheRow>, flag: bool, worlds: seq<World>)
    decreases |worlds|
  {
    worlds != [] &&
    var r := Refresh(row, flag, worlds[0]);
    if |worlds| == 1 then r.row.status == Done
    else r.row.status != Done && OnlyTheLastIsDone(Some(r.row), r.flag, worlds[1..])
  }

  ghost predicate Distinct(ids: seq<string>) {
    forall i, j :: 0 <= i < j < |ids| ==> ids[i] != ids[j]
  }

  /** Every probe of a listed video returns a count. */
  ghost predicate AlwaysCounts(ids: seq<string>, probe: Probe) {
    forall i :: 0 <= i < |ids| ==> probe(ids[i]).views.Some? || probe(ids[i]).likes.Some?
  }

  /** The first c videos have been probed, and if there are any, the row says so. */
  ghost predicate Partway(row: Option<CacheRow>, uploads: seq<Upload>, probe: Probe, c: nat) {
    && c <= |uploads|
    && if c == 0 then !Resumes(row)
       else row.Some? && row.value.status == Cancelled && row.value.items == Merged(Flat(uploads), Ids(uploads)[..c], probe)
  }

  /** What is left to probe when the first c videos have been. */
  lemma {:induction false} LeftToProbe(uploads: seq<Upload>, c: nat, probe: Probe)
    requires c <= |uploads| && Distinct(Ids(uploads)) && AlwaysCounts(Ids(uploads), probe)
    ensures ToProbe(Merged(Flat(uploads), Ids(uploads)[..c], probe)) == Ids(uploads)[c..]
  {
    var ids := Ids(uploads);
    var items := Merged(Flat(uploads), ids[..c], probe);
    forall i | 0 <= i < |items|
      ensures IsProbed(items[i]) <==> i < c
      ensures items[i].upload.youtubeId == ids[i]
    {
      if i < c {
        assert ids[..c][i] == ids[i];
      }
    }
    ToProbeFrom(items, ids, c, 0);
    assert items[0..] == items;
  }

  lemma {:induction false} ToProbeFrom(items: seq<Item>, ids: seq<string>, c: nat, k: nat)
    requires |items| == |ids| && k <= |items| && c <= |items|
    requires forall i :: 0 <= i < |items| ==> (IsProbed(items[i]) <==> i < c) && items[i].upload.youtubeId == ids[i]
    ensures ToProbe(items[k..]) == if k < c then ids[c..] else ids[k..]
    decreases |items| - k
  {
    hide IsProbed;
    if k == |items| {
    } else {
      ToProbeFrom(items, ids, c, k + 1);
      assert items[k..][0] == items[k] && items[k..][1..] == items[k + 1..];
      assert [] + ToProbe(items[k + 1..]) == ToProbe(items[k + 1..]);
      assert k >= c ==> ids[k..] == [ids[k]] + ids[k + 1..];
    }
  }

  lemma MergedInTwo(items: seq<Item>, ids: seq<string>, c: nat, d: nat, probe: Probe)
    requires c <= d <= |ids|
    ensures Merged(Merged(items, ids[..c], probe), ids[c..d], probe) == Merged(items, ids[..d], probe)
  {
    assert ids[..d] == ids[..c] + ids[c..d];
  }

  lemma MergedHasCounts(uploads: seq<Upload>, c: nat, probe: Probe)
    requires 1 <= c <= |uploads| && AlwaysCounts(Ids(uploads), probe)
    ensures exists it :: it in Merged(Flat(uploads), Ids(uploads)[..c], probe) && IsProbed(it)
  {
    var items := Merged(Flat(uploads), Ids(uploads)[..c], probe);
    assert Ids(uploads)[..c][0] == Ids(uploads)[0];
    assert IsProbed(items[0]) && items[0] in items;
  }

  /** The probing phase from c probed videos on calls the next ones. */
  lemma PhaseGoesOn(row: CacheRow, flag: bool, world: World, uploads: seq<Upload>, c: nat)
    requires Distinct(Ids(uploads)) && AlwaysCounts(Ids(uploads), world.probe) && c <= |uploads|
    requires row.items == Merged(Flat(uploads), Ids(uploads)[..c], world.probe)
    ensures var r := ProbePhase(row, flag, world);
            var d := c + |r.calls|;
            && d <= |uploads| && r.calls == Ids(uploads)[c..d]
            && (r.row.status == Done ==> d == |uploads|)
            && (r.row.status != Done ==> r.row.status == Cancelled && r.row.items == Merged(Flat(uploads), Ids(uploads)[..d], world.probe))
  {
    LeftToProbe(uploads, c, world.probe);
    var ids := Ids(uploads);
    var r := ProbePhase(row, flag, world);
    var d := c + |r.calls|;
    PhaseCalls(row, flag, world);
    assert r.calls == ids[c..][..|r.calls|] == ids[c..d];
    MergedInTwo(Flat(uploads), ids, c, d, world.probe);
  }

  lemma PhaseCalls(row: CacheRow, flag: bool, world: World)
    ensures var r := ProbePhase(row, flag, world);
            && r.calls <= ToProbe(row.items) && r.row.status in {Done, Cancelled}
            && (r.row.status == Done ==> r.calls == ToProbe(row.items))
            && (r.row.status == Cancelled ==> r.row.items == Merged(row.items, r.calls, world.probe))
  {
    hide ToProbe, Merged, StopsAt, FlagAfter, Percent;
  }

  lemma RefreshGoesOn(row: Option<CacheRow>, flag: bool, world: World, uploads: seq<Upload>, c: nat)
    requires Partway(row, uploads, world.probe, c) && (world.listing.Ok? ==> world.listing.value == uploads)
    requires Distinct(Ids(uploads)) && AlwaysCounts(Ids(uploads), world.probe)
    ensures var r := Refresh(row, flag, world);
            var d := c + |r.calls|;
            && d <= |uploads| && r.calls == Ids(uploads)[c..d]
            && (r.row.status == Done ==> d == |uploads|)
            && (r.row.status != Done ==> Partway(Some(r.row), uploads, world.probe, d))
  {
    var r := Refresh(row, flag, world);
    var d := c + |r.calls|;
    if c > 0 {
      MergedHasCounts(uploads, c, world.probe);
      PhaseGoesOn(row.value.(error := None), flag, world, uploads, c);
    } else if world.listing.Ok? {
      NothingMerged(Flat(uploads), world.probe);
      PhaseGoesOn(Listed(row, world.listing, world.now), flag || world.cancelDuringListing, world, uploads, 0);
      assert Ids(uploads)[..0] == [];
      NoCountsInAListing(uploads);
    }
    hide ProbePhase, Merged, ToProbe;
  }

  lemma NothingMerged(items: seq<Item>, probe: Probe)
    ensures Merged(items, [], probe) == items
  {}

  lemma NoCountsInAListing(uploads: seq<Upload>)
    ensures forall it :: it in Flat(uploads) ==> !IsProbed(it)
  {}

  lemma OneRefreshInTurn(row: Option<CacheRow>, flag: bool, worlds: seq<World>)
    requires OnlyTheLastIsDone(row, flag, worlds)
    ensures worlds != []
    ensures var r := Refresh(row, flag, worlds[0]);
            if |worlds| == 1 then r.row.status == Done && AllCalls(row, flag, worlds) == r.calls
            else && r.row.status != Done && OnlyTheLastIsDone(Some(r.row), r.flag, worlds[1..])
                 && AllCalls(row, flag, worlds) == r.calls + AllCalls(Some(r.row), r.flag, worlds[1..])
  {
    hide Refresh;
    var r := Refresh(row, flag, worlds[0]);
    if |worlds| == 1 {
      assert AllCalls(Some(r.row), r.flag, worlds[1..]) == [];
      assert r.calls + [] == r.calls;
    }
  }

  lemma {:induction false} CallsGoOn(row: Option<CacheRow>, flag: bool, worlds: seq<World>, uploads: seq<Upload>, probe: Probe, c: nat)
    requires Partway(row, uploads, probe, c) && SameChannel(worlds, uploads, probe) && OnlyTheLastIsDone(row, flag, worlds)
    requires Distinct(Ids(uploads)) && AlwaysCounts(Ids(uploads), probe)
    ensures c <= |uploads| && AllCalls(row, flag, worlds) == Ids(uploads)[c..]
    decreases |worlds|
  {
    hide *;
    OneRefreshInTurn(row, flag, worlds);
    TailChannel(worlds, uploads, probe);
    var r := Refresh(row, flag, worlds[0]);
    var d := c + |r.calls|;
    RefreshGoesOn(row, flag, worlds[0], uploads, c);
    TwoParts(Ids(uploads), c, d);
    if |worlds| > 1 {
      CallsGoOn(Some(r.row), r.flag, worlds[1..], uploads, probe, d);
    }
  }

  lemma TailChannel(worlds: seq<World>, uploads: seq<Upload>, probe: Probe)
    requires worlds != [] && SameChannel(worlds, uploads, probe)
    ensures SameChannel(worlds[1..], uploads, probe)
    ensures worlds[0].probe == probe && (worlds[0].listing.Ok? ==> worlds[0].listing.value == uploads)
  {}

  lemma TwoParts(ids: seq<string>, c: nat, d: nat)
    requires c <= d <= |ids|
    ensures ids[c..d] + ids[d..] == ids[c..]
    ensures d == |ids| ==> ids[c..d] == ids[c..]
  {}

  /**
    Refreshed and cancelled any number of times, from a row that is not a
    cancelled one, until it completes: the calls made altogether are the listed
    ids, each once and in order, for distinct ids and probes that return counts.
   */
  lemma CallsAddUp(row: Option<CacheRow>, flag: bool, worlds: seq<World>, uploads: seq<Upload>, probe: Probe)
    requires row.Some? ==> row.value.status != Cancelled
    requires SameChannel(worlds, uploads, probe) && OnlyTheLastIsDone(row, flag, worlds)
    requires Distinct(Ids(uploads)) && AlwaysCounts(Ids(uploads), probe)
    ensures AllCalls(row, flag, worlds) == Ids(uploads)
  {
    CallsGoOn(row, flag, worlds, uploads, probe, 0);
    assert Ids(uploads)[0..] == Ids(uploads);
  }

  // ---------------------------------------------------------------- batch boundaries

  lemma {:induction false} StopsAfter(during: nat -> bool, n: nat, from: nat, k: nat)
    requires from <= k && k + 1 <= n && during(k) && forall i :: from <= i < k ==> !during(i)
    ensures k + 1 < n ==> StopsAt(false, during, n, from) == k + 1
    decreases k - from
  {
    if from == k {
    } else {
      StopsAfter(during, n, from + 1, k);
    }
  }

  lemma {:induction false} RunsThrough(during: nat -> bool, n: nat, from: nat)
    requires from <= n && forall i :: from <= i && i + 1 < n ==> !during(i)
    ensures StopsAt(false, during, n, from) == n
    decreases n - from
  {
    if from == n {
    } else if from + 1 == n {
    } else {
      RunsThrough(during, n, from + 1);
    }
  }

  /**
    A first cancel request during batch k, if there is another batch, stops the
    probing after exactly 20 * (k + 1) videos and leaves their share as progress;
    without one before the last batch, the probing runs through.
   */
  lemma CancelStopsAfterItsBatch(row: CacheRow, world: World, k: nat)
    requires world.cancelDuringBatch(k) && forall i :: 0 <= i < k ==> !world.cancelDuringBatch(i)
    ensures var ids, r := Uncounted(row.items), ProbePhase(row, false, world);
            if 20 * (k + 1) < |ids| then
              && r.row.status == Cancelled && r.calls == ids[..20 * (k + 1)]
              && r.row.progress == (|r.row.items| - |Uncounted(r.row.items)|) * 100 / |r.row.items|
            else r.row.status == Done && r.calls == ids
  {
    var ids, r := Uncounted(row.items), ProbePhase(row, false, world);
    UncountedAreToProbe(row.items);
    UncountedAreToProbe(r.row.items);
    var n := BatchCount(|ids|);
    assert k + 1 < n <==> 20 * (k + 1) < |ids|;
    hide Uncounted, ToProbe, Merged;
    if k + 1 < n {
      StopsAfter(world.cancelDuringBatch, n, 0, k);
    } else {
      RunsThrough(world.cancelDuringBatch, n, 0);
    }
  }

  // ----------------------------------------------------- what ends up in the cache

  /** An undisturbed refresh of a row that is not cancelled: every listed video, with its own probe's counts. */
  lemma FreshRefreshMeans(row: Option<CacheRow>, world: World, i: nat)
    requires (row.Some? ==> row.value.status != Cancelled) && world.listing.Ok? && !world.cancelDuringListing
    requires (forall k :: !world.cancelDuringBatch(k)) && i < |world.listing.value|
    ensures var r, upload := Refresh(row, false, world), world.listing.value[i];
            && !r.raised && r.calls == Ids(world.listing.value)
            && r.row.status == Done && r.row.progress == 100 && r.row.totalCount == |r.row.items| == |world.listing.value|
            && r.row.error == None && r.row.fetchedAt == Some(world.now)
            && r.row.items[i].upload == upload
            && r.row.items[i].viewCount == world.probe(upload.youtubeId).views
            && r.row.items[i].likeCount == world.probe(upload.youtubeId).likes
  {
    UninterruptedRefresh(row, world);
    BareListing(world.listing.value);
  }

  /** A flat refresh replaces the list and forgets every count; a failed one keeps the list and notes the error. */
  lemma FlatRefreshMeans(row: Option<CacheRow>, listing: Result<seq<Upload>, string>, now: int)
    ensures var r := Listed(row, listing, now);
            match listing
            case Ok(uploads) =>
              && r.status == Done && r.progress == 100 && r.totalCount == |r.items| == |uploads|
              && r.error == None && r.fetchedAt == Some(now)
              && forall i :: 0 <= i < |uploads| ==> r.items[i] == Item(uploads[i], None, None)
            case Err(e) =>
              && r.status == Failed && r.progress == 0
              && r.error == Some(if |e| <= 500 then e else e[..500])
              && (if row.None? then r.items == [] && r.fetchedAt == None
                  else r.items == row.value.items && r.fetchedAt == row.value.fetchedAt && r.totalCount == row.value.totalCount)
  {}

  /**
    A browse serves what is cached.  It leaves a complete row alone for a day and
    a row being fetched for good; any other row it has fetched afresh.
   */
  lemma BrowseMeans(row: Option<CacheRow>, listing: Result<seq<Upload>, string>, now: int)
    ensures Browse(row, listing, now).0 == if row.None? then [] else row.value.items
    ensures Browse(row, listing, now).1
         == if row.Some? && (row.value.status == Fetching
                             || (row.value.status == Done && row.value.fetchedAt.Some? && now - row.value.fetchedAt.value <= 86400))
            then row else Some(Listed(row, listing, now))
  {}

  /**
    A crash forgets the cancel flag.  In mid-refresh it leaves "fetching": during
    the listing with the old list, and after k batches with the very list and
    progress that a cancel before the next batch would have left.
   */
  lemma CrashMeans(c: Cache, world: World, k: nat)
    requires c.row.Some? && c.row.value.status != Fetching && world.listing.Ok?
    requires !world.cancelDuringListing && world.cancelDuringBatch(k) && forall i :: 0 <= i < k ==> !world.cancelDuringBatch(i)
    ensures !React(c, Crash(NoRefresh)).flag && React(c, Crash(NoRefresh)).row == c.row
    ensures React(c, Crash(InListing)) == Cache(Some(c.row.value.(status := Fetching, error := None, progress := 0)), false)
    ensures var crashed, r := React(c, Crash(AfterBatches(world, k + 1))), Refresh(c.row, false, world);
            r.row.status == Cancelled ==> !crashed.flag && crashed.row == Some(r.row.(status := Fetching))
  {
    var start := if Resumes(c.row) then c.row.value.(error := None) else Listed(c.row, world.listing, world.now);
    assert Refresh(c.row, false, world) == ProbePhase(start, false, world);
    CancelStopsAfterItsBatch(start, world, k);
    UncountedAreToProbe(start.items);
    hide Resumes, Uncounted, ToProbe, StopsAt, FlagAfter, Percent;
    var r := ProbePhase(start, false, world);
    if r.row.status == Cancelled {
      assert IdsAfter(ToProbe(start.items), k + 1) == r.calls;
    }
  }
}
