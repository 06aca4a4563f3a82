/**
  The slow refresh of a channel's backlog cache, as functions: what one refresh
  makes of the cache row, and why cancelling and resuming leaves no trace.
 */
module BacklogRefreshSpec {
  import opened Wrappers

  const BATCH_SIZE := 20
  const CACHE_TTL_S := 24 * 3600

  datatype Upload = Upload(youtubeId: string, title: string, url: string, thumbnailUrl: string,
                           durationS: Option<int>, uploadDate: Option<string>)
  datatype Counts = Counts(views: Option<int>, likes: Option<int>)

  /** An entry of the cached list; a missing count and a null count read alike. */
  datatype Item = Item(upload: Upload, viewCount: Option<int>, likeCount: Option<int>)

  datatype CacheStatus = NeverFetched | Fetching | Done | Failed | Cancelled

  datatype CacheRow = CacheRow(status: CacheStatus, items: seq<Item>, progress: int, totalCount: int,
                               error: Option<string>, fetchedAt: Option<int>)

  type Probe = string -> Counts

  /** What the outside world does during one refresh. */
  datatype World = World(
    listing: Result<seq<Upload>, string>,  // the flat extract's outcome
    probe: Probe,                          // the per-video probe; (None, None) is a failed one
    cancelDuringListing: bool,
    cancelDuringBatch: nat -> bool,
    now: int)

  // ------------------------------------------------------------ items and counts

  predicate IsProbed(it: Item) {
    it.viewCount.Some? || it.likeCount.Some?
  }

  function Apply(it: Item, probe: Probe): Item {
    var c := probe(it.upload.youtubeId);
    it.(viewCount := c.views, likeCount := c.likes)
  }

  function Flat(uploads: seq<Upload>): (items: seq<Item>)
    ensures |items| == |uploads|
    ensures forall i :: 0 <= i < |items| ==> items[i] == Item(uploads[i], None, None)
  {
    seq(|uploads|, i requires 0 <= i < |uploads| => Item(uploads[i], None, None))
  }

  /** The ids still to be probed, in list order. */
  function ToProbe(items: seq<Item>): (ids: seq<string>)
    ensures |ids| <= |items|
  {
    if items == [] then [] else
      (if IsProbed(items[0]) then [] else [items[0].upload.youtubeId]) + ToProbe(items[1..])
  }

  /** The pointwise meaning of a refresh that got through the given ids. */
  function Merged(items: seq<Item>, ids: seq<string>, probe: Probe): (r: seq<Item>)
    ensures |r| == |items|
  {
    seq(|items|, i requires 0 <= i < |items| =>
      if items[i].upload.youtubeId in ids then Apply(items[i], probe) else items[i])
  }

  /** Every entry probed: what an uninterrupted refresh of an upload list leaves. */
  function FullyProbed(uploads: seq<Upload>, probe: Probe): seq<Item> {
    seq(|uploads|, i requires 0 <= i < |uploads| => Apply(Item(uploads[i], None, None), probe))
  }

  function CountProbed(items: seq<Item>): (n: nat)
    ensures n <= |items|
  {
    if items == [] then 0 else (if IsProbed(items[0]) then 1 else 0) + CountProbed(items[1..])
  }

  /** int(done / max(total, 1) * 100), in exact arithmetic. */
  function Percent(done: nat, total: nat): nat {
    done * 100 / (if total < 1 then 1 else total)
  }

  // -------------------------------------------------------------- one refresh

  function BatchCount(n: nat): nat {
    (n + BATCH_SIZE - 1) / BATCH_SIZE
  }

  function IdsAfter(ids: seq<string>, batches: nat): seq<string> {
    if batches * BATCH_SIZE <= |ids| then ids[..batches * BATCH_SIZE] else ids
  }

  /** The batch before which the pending flag stops the loop; n if none does. */
  function StopsAt(flag: bool, during: nat -> bool, n: nat, k: nat): (stop: nat)
    requires k <= n
    ensures k <= stop <= n
    decreases n - k
  {
    if k == n then n else if flag then k else StopsAt(during(k), during, n, k + 1)
  }

  /** Whether the flag is set after the loop; a poll that stops the loop clears it. */
  function FlagAfter(flag: bool, during: nat -> bool, n: nat, k: nat): bool
    requires k <= n
    decreases n - k
  {
    if k == n then flag else if flag then false else FlagAfter(during(k), during, n, k + 1)
  }

  /** A cancelled cache with some counts is resumed; anything else is listed afresh. */
  predicate Resumes(row: Option<CacheRow>) {
    row.Some? && row.value.status == Cancelled && exists it :: it in row.value.items && IsProbed(it)
  }

  datatype Refreshed = Refreshed(row: CacheRow, flag: bool, calls: seq<string>, raised: bool)

  function EmptyRow(): CacheRow {
    CacheRow(NeverFetched, [], 0, 0, None, None)
  }

  function RowOr(row: Option<CacheRow>): CacheRow {
    if row.Some? then row.value else EmptyRow()
  }

  /** The flat extract, which replaces the whole list. */
  function Listed(row: Option<CacheRow>, listing: Result<seq<Upload>, string>, now: int): CacheRow {
    match listing
    case Ok(uploads) => CacheRow(Done, Flat(uploads), 100, |uploads|, None, Some(now))
    case Err(e) => RowOr(row).(status := Failed, error := Some(Clip(e)), progress := 0)
  }

  /** The probing phase over a list that is in the cache. */
  function ProbePhase(row: CacheRow, flag: bool, world: World): Refreshed {
    var ids := ToProbe(row.items);
    if ids == [] then
      Refreshed(row.(status := Done, fetchedAt := Some(world.now), progress := 100), flag, [], false)
    else
      var n := BatchCount(|ids|);
      var stop := StopsAt(flag, world.cancelDuringBatch, n, 0);
      var calls := IdsAfter(ids, stop);
      var items := Merged(row.items, calls, world.probe);
      var flag' := FlagAfter(flag, world.cancelDuringBatch, n, 0);
      if stop < n then
        Refreshed(row.(status := Cancelled, items := items, progress := Percent(CountProbed(items), |items|)),
                  flag', calls, false)
      else
        Refreshed(row.(status := Done, items := items, fetchedAt := Some(world.now), progress := 100),
                  flag', calls, false)
  }

  function Refresh(row: Option<CacheRow>, flag: bool, world: World): Refreshed {
    if Resumes(row) then ProbePhase(row.value.(error := None), flag, world)
    else
      var listed := Listed(row, world.listing, world.now);
      var flag' := flag || world.cancelDuringListing;
      if world.listing.Err? then Refreshed(listed, flag', [], true)
      else ProbePhase(listed, flag', world)
  }

  lemma StatusIsOverwritten(row: CacheRow, status: CacheStatus, flag: bool, world: World)
    ensures ProbePhase(row.(status := status), flag, world) == ProbePhase(row, flag, world)
  {}

  // ------------------------------------------------- cancel and resume leave no trace

  /** Every entry is either untouched or exactly what its probe said. */
  ghost predicate PartlyProbed(items: seq<Item>, uploads: seq<Upload>, probe: Probe) {
    && |items| == |uploads|
    && forall i :: 0 <= i < |items| ==>
         (var bare := Item(uploads[i], None, None); items[i] == bare || items[i] == Apply(bare, probe))
  }

  /** If this row is resumed, it is resumed from a partial refresh of these uploads. */
  ghost predicate Consistent(row: Option<CacheRow>, uploads: seq<Upload>, probe: Probe) {
    Resumes(row) ==> PartlyProbed(row.value.items, uploads, probe)
  }

  lemma {:induction false} ToProbeMembers(items: seq<Item>)
    ensures forall i :: 0 <= i < |items| && !IsProbed(items[i]) ==> items[i].upload.youtubeId in ToProbe(items)
    ensures forall id :: id in ToProbe(items) ==>
              exists i :: 0 <= i < |items| && !IsProbed(items[i]) && items[i].upload.youtubeId == id
  {
    if items == [] {
    } else {
      ToProbeMembers(items[1..]);
      assert items == [items[0]] + items[1..];
      forall id | id in ToProbe(items)
        ensures exists i :: 0 <= i < |items| && !IsProbed(items[i]) && items[i].upload.youtubeId == id
      {
        if id in ToProbe(items[1..]) {
          var j :| 0 <= j < |items[1..]| && !IsProbed(items[1..][j]) && items[1..][j].upload.youtubeId == id;
          assert items[j + 1] == items[1..][j];
        } else {
          assert !IsProbed(items[0]) && items[0].upload.youtubeId == id;
        }
      }
    }
  }

  lemma MergingStaysPartial(items: seq<Item>, ids: seq<string>, uploads: seq<Upload>, probe: Probe)
    requires PartlyProbed(items, uploads, probe)
    ensures PartlyProbed(Merged(items, ids, probe), uploads, probe)
  {}

  /** Once every unprobed id is through, nothing is left of where the refresh was interrupted. */
  lemma MergingAllCompletes(items: seq<Item>, uploads: seq<Upload>, probe: Probe)
    requires PartlyProbed(items, uploads, probe)
    ensures Merged(items, ToProbe(items), probe) == FullyProbed(uploads, probe)
  {
    ToProbeMembers(items);
    var merged := Merged(items, ToProbe(items), probe);
    forall i | 0 <= i < |items|
      ensures merged[i] == Apply(Item(uploads[i], None, None), probe)
    {
      if !IsProbed(items[i]) {
        assert items[i].upload.youtubeId in ToProbe(items);
      }
    }
  }

  lemma ProbePhaseCompletes(row: CacheRow, flag: bool, world: World, uploads: seq<Upload>)
    requires PartlyProbed(row.items, uploads, world.probe)
    ensures var r := ProbePhase(row, flag, world);
            && PartlyProbed(r.row.items, uploads, world.probe)
            && r.row.status in {Done, Cancelled}
            && (r.row.status == Done ==> r.row.items == FullyProbed(uploads, world.probe) && r.row.progress == 100)
  {
    var ids := ToProbe(row.items);
    MergingAllCompletes(row.items, uploads, world.probe);
    if ids == [] {
      assert Merged(row.items, ids, world.probe) == row.items;
    } else {
      var stop := StopsAt(flag, world.cancelDuringBatch, BatchCount(|ids|), 0);
      MergingStaysPartial(row.items, IdsAfter(ids, stop), uploads, world.probe);
    }
  }

  function RefreshAll(row: Option<CacheRow>, flag: bool, worlds: seq<World>): Refreshed
    requires worlds != []
    decreases worlds
  {
    var r := Refresh(row, flag, worlds[0]);
    if |worlds| == 1 then r else RefreshAll(Some(r.row), r.flag, worlds[1..])
  }

  /** One probe, one upload list; a listing may also fail. */
  ghost predicate SameChannel(worlds: seq<World>, uploads: seq<Upload>, probe: Probe) {
    forall i :: 0 <= i < |worlds| ==>
      worlds[i].probe == probe && (worlds[i].listing.Ok? ==> worlds[i].listing.value == uploads)
  }

  lemma RefreshKeepsConsistent(row: Option<CacheRow>, flag: bool, world: World, uploads: seq<Upload>)
    requires Consistent(row, uploads, world.probe)
    requires world.listing.Ok? ==> world.listing.value == uploads
    ensures var r := Refresh(row, flag, world);
            && Consistent(Some(r.row), uploads, world.probe)
            && (r.row.status == Done ==> r.row.items == FullyProbed(uploads, world.probe) && r.row.progress == 100)
  {
    if Resumes(row) {
      ProbePhaseCompletes(row.value.(error := None), flag, world, uploads);
    } else if world.listing.Ok? {
      assert PartlyProbed(Flat(uploads), uploads, world.probe);
      ProbePhaseCompletes(Listed(row, world.listing, world.now), flag || world.cancelDuringListing, world, uploads);
    }
  }

  /**
    Cancel a slow refresh at any batch boundaries, any number of times, with
    failed listings in between, and refresh again until it completes: the items
    are those of a single uninterrupted refresh.
   */
  lemma {:induction false} InterruptionsLeaveNoTrace(
    row: Option<CacheRow>, flag: bool, worlds: seq<World>, uploads: seq<Upload>, probe: Probe)
    requires worlds != [] && SameChannel(worlds, uploads, probe) && Consistent(row, uploads, probe)
    ensures var last := RefreshAll(row, flag, worlds);
            && Consistent(Some(last.row), uploads, probe)
            && (last.row.status == Done ==> last.row.items == FullyProbed(uploads, probe) && last.row.progress == 100)
    decreases worlds
  {
    RefreshKeepsConsistent(row, flag, worlds[0], uploads);
    if |worlds| == 1 {
    } else {
      var r := Refresh(row, flag, worlds[0]);
      InterruptionsLeaveNoTrace(Some(r.row), r.flag, worlds[1..], uploads, probe);
    }
  }

  /** ... and that single refresh: no flag, no cancel, a listing that succeeds. */
  lemma UninterruptedRefresh(row: Option<CacheRow>, world: World)
    requires !Resumes(row) && world.listing.Ok? && !world.cancelDuringListing
    requires forall k :: !world.cancelDuringBatch(k)
    ensures var r := Refresh(row, false, world);
            && r.row == CacheRow(Done, FullyProbed(world.listing.value, world.probe), 100,
                                 |world.listing.value|, None, Some(world.now))
            && r.calls == ToProbe(Flat(world.listing.value)) && !r.flag
  {
    var uploads := world.listing.value;
    var listed := Listed(row, world.listing, world.now);
    ProbePhaseCompletes(listed, false, world, uploads);
    QuietLoopRunsThrough(world.cancelDuringBatch, BatchCount(|ToProbe(listed.items)|), 0);
  }

  lemma {:induction false} QuietLoopRunsThrough(during: nat -> bool, n: nat, k: nat)
    requires k <= n && forall i :: !during(i)
    ensures StopsAt(false, during, n, k) == n && !FlagAfter(false, during, n, k)
    decreases n - k
  {
    if k == n {
    } else {
      QuietLoopRunsThrough(during, n, k + 1);
    }
  }

  // --------------------------------------------- what k batches change, and what not

  ghost predicate DistinctIds(items: seq<Item>) {
    forall i, j :: 0 <= i < j < |items| ==> items[i].upload.youtubeId != items[j].upload.youtubeId
  }

  lemma {:induction false} ToProbeConcat(a: seq<Item>, b: seq<Item>)
    ensures ToProbe(a + b) == ToProbe(a) + ToProbe(b)
  {
    if a == [] {
      assert a + b == b;
    } else {
      assert (a + b)[1..] == a[1..] + b;
      ToProbeConcat(a[1..], b);
    }
  }

  /** The unprobed entry at position i is the one the probing order reaches after those before it. */
  lemma RankOfUnprobed(items: seq<Item>, i: nat)
    requires i < |items|
    ensures |ToProbe(items[..i])| + (if IsProbed(items[i]) then 0 else 1) <= |ToProbe(items)|
    ensures !IsProbed(items[i]) ==> ToProbe(items)[|ToProbe(items[..i])|] == items[i].upload.youtubeId
  {
    assert items == items[..i] + [items[i]] + items[i + 1..];
    ToProbeConcat(items[..i] + [items[i]], items[i + 1..]);
    ToProbeConcat(items[..i], [items[i]]);
  }

  /** An id being probed belongs to an unprobed entry, at the id's own rank. */
  lemma {:induction false} OwnerOfRank(items: seq<Item>, r: nat) returns (i: nat)
    requires r < |ToProbe(items)|
    ensures i < |items| && !IsProbed(items[i]) && |ToProbe(items[..i])| == r
    ensures items[i].upload.youtubeId == ToProbe(items)[r]
  {
    if !IsProbed(items[0]) && r == 0 {
      i := 0;
    } else {
      var skip := if IsProbed(items[0]) then 0 else 1;
      var j := OwnerOfRank(items[1..], r - skip);
      i := j + 1;
      assert items[..i][1..] == items[1..][..j];
    }
  }

  /**
    With distinct ids, m probes change exactly the first m unprobed entries: an
    entry gets its own probe's counts if it was unprobed and of rank below m, and
    every other entry keeps everything it had.
   */
  lemma ExactlyTheFirst(items: seq<Item>, m: nat, probe: Probe, i: nat)
    requires DistinctIds(items) && m <= |ToProbe(items)| && i < |items|
    ensures Merged(items, ToProbe(items)[..m], probe)[i]
         == if !IsProbed(items[i]) && |ToProbe(items[..i])| < m then Apply(items[i], probe) else items[i]
  {
    RankOfUnprobed(items, i);
    var ids := ToProbe(items)[..m];
    var rank := |ToProbe(items[..i])|;
    assert !IsProbed(items[i]) && rank < m ==> ids[rank] == items[i].upload.youtubeId;
    if items[i].upload.youtubeId in ids {
      var r :| 0 <= r < m && ids[r] == items[i].upload.youtubeId;
      var j := OwnerOfRank(items, r);
      assert j == i;
    }
  }

  // ---------------------------------------------------------- the browse endpoint

  function IsStale(row: Option<CacheRow>, now: int): bool {
    row.None? || row.value.fetchedAt.None? || row.value.status != Done || now - row.value.fetchedAt.value > CACHE_TTL_S
  }

  /** GET /backlog: the list it serves, and the row its background fetch leaves if it starts one. */
  function Browse(row: Option<CacheRow>, listing: Result<seq<Upload>, string>, now: int): (seq<Item>, Option<CacheRow>) {
    (RowOr(row).items,
     if IsStale(row, now) && RowOr(row).status != Fetching then Some(Listed(row, listing, now)) else row)
  }

  // ------------------------------------------------------------ reachable cache rows

  /** Where in a refresh a crash can strike. */
  datatype Moment = NoRefresh | InListing | AfterListing(world: World) | AfterBatches(world: World, batches: nat)

  /** What happens to a watcher's cache row, one event after the other. */
  datatype Event =
    | SlowRefresh(world: World)
    | FlatRefresh(listing: Result<seq<Upload>, string>, cancelMeanwhile: bool, at: int)
    | BrowseBacklog(listing: Result<seq<Upload>, string>, at: int)
    | RequestCancel
    | Crash(moment: Moment)

  datatype Cache = Cache(row: Option<CacheRow>, flag: bool)

  /** The refresh endpoint starts nothing while the row reads "fetching". */
  predicate InFlight(row: Option<CacheRow>) {
    row.Some? && row.value.status == Fetching
  }

  /** The list a refresh has in the cache when it starts to probe, if it gets that far. */
  function ProbingRow(row: Option<CacheRow>, world: World): Option<CacheRow> {
    if Resumes(row) then Some(row.value.(error := None))
    else if world.listing.Ok? then Some(Listed(row, world.listing, world.now))
    else None
  }

  /** The row that a crash leaves behind. */
  function CrashedRow(row: Option<CacheRow>, moment: Moment): Option<CacheRow> {
    match moment
    case NoRefresh => row
    case InListing => Some(RowOr(row).(status := Fetching, error := None, progress := 0))
    case AfterListing(world) =>
      if Resumes(row) then Some(row.value.(status := Fetching, error := None))
      else if world.listing.Ok? then ProbingRow(row, world)
      else row
    case AfterBatches(world, batches) =>
      var start := ProbingRow(row, world);
      if start.None? then row else
        var items := Merged(start.value.items, IdsAfter(ToProbe(start.value.items), batches), world.probe);
        Some(start.value.(status := Fetching, items := items, progress := Percent(CountProbed(items), |items|)))
  }

  function React(c: Cache, e: Event): Cache {
    match e
    case SlowRefresh(world) =>
      if InFlight(c.row) then c else
        var r := Refresh(c.row, c.flag, world);
        Cache(Some(r.row), r.flag)
    case FlatRefresh(listing, cancelMeanwhile, at) =>
      if InFlight(c.row) then c else Cache(Some(Listed(c.row, listing, at)), c.flag || cancelMeanwhile)
    case BrowseBacklog(listing, at) => c.(row := Browse(c.row, listing, at).1)
    case RequestCancel => c.(flag := true)
    case Crash(moment) => Cache(if InFlight(c.row) then c.row else CrashedRow(c.row, moment), false)
  }

  /** The cache of a new watcher after these events. */
  function Reached(events: seq<Event>): Cache {
    if events == [] then Cache(None, false)
    else React(Reached(events[..|events| - 1]), events[|events| - 1])
  }

  /** Entries with one id carry the same counts: listings have none, and merges go by id. */
  ghost predicate Uniform(items: seq<Item>) {
    forall i, j :: 0 <= i < |items| && 0 <= j < |items| && items[i].upload.youtubeId == items[j].upload.youtubeId ==>
      items[i].viewCount == items[j].viewCount && items[i].likeCount == items[j].likeCount
  }

  lemma MergingKeepsUniform(items: seq<Item>, ids: seq<string>, probe: Probe)
    requires Uniform(items)
    ensures Uniform(Merged(items, ids, probe))
  {}

  lemma ProbePhaseKeepsUniform(row: CacheRow, flag: bool, world: World)
    requires Uniform(row.items)
    ensures Uniform(ProbePhase(row, flag, world).row.items)
  {
    var ids := ToProbe(row.items);
    if ids != [] {
      var stop := StopsAt(flag, world.cancelDuringBatch, BatchCount(|ids|), 0);
      MergingKeepsUniform(row.items, IdsAfter(ids, stop), world.probe);
      hide Uniform, Merged;
    }
  }

  lemma ReactKeepsUniform(c: Cache, e: Event)
    requires c.row.Some? ==> Uniform(c.row.value.items)
    ensures React(c, e).row.Some? ==> Uniform(React(c, e).row.value.items)
  {
    if e.SlowRefresh? {
      var world := e.world;
      if Resumes(c.row) {
        ProbePhaseKeepsUniform(c.row.value.(error := None), c.flag, world);
      } else if world.listing.Ok? {
        ProbePhaseKeepsUniform(Listed(c.row, world.listing, world.now), c.flag || world.cancelDuringListing, world);
      }
      hide ProbePhase;
    } else if e.Crash? && e.moment.AfterBatches? {
      var start := ProbingRow(c.row, e.moment.world);
      if start.Some? {
        MergingKeepsUniform(start.value.items, IdsAfter(ToProbe(start.value.items), e.moment.batches), e.moment.world.probe);
      }
      hide Merged, ToProbe, IdsAfter;
    }
  }

  lemma {:induction false} ReachedIsUniform(events: seq<Event>)
    ensures Reached(events).row.Some? ==> Uniform(Reached(events).row.value.items)
  {
    if events == [] {
      assert Reached(events).row.None?;
    } else {
      ReachedIsUniform(events[..|events| - 1]);
      ReactKeepsUniform(Reached(events[..|events| - 1]), events[|events| - 1]);
    }
  }

  /** In a uniform list no id that has a count is still to be probed. */
  lemma ProbedIsNotToProbe(items: seq<Item>, i: nat)
    requires Uniform(items) && i < |items| && IsProbed(items[i])
    ensures items[i].upload.youtubeId !in ToProbe(items)
  {
    ToProbeMembers(items);
  }

  /**
    Whatever happened before: a resumed refresh asks for no id that already has a
    count, and every count that is there stays, at its place.
   */
  lemma ResumeNeverReprobes(events: seq<Event>, world: World, i: nat)
    requires Resumes(Reached(events).row) && i < |Reached(events).row.value.items| && IsProbed(Reached(events).row.value.items[i])
    ensures var row, r := Reached(events).row.value, Refresh(Reached(events).row, Reached(events).flag, world);
            && row.items[i].upload.youtubeId !in r.calls
            && |r.row.items| == |row.items| && r.row.items[i] == row.items[i]
  {
    var row := Reached(events).row.value;
    ReachedIsUniform(events);
    ProbedIsNotToProbe(row.items, i);
    var r := Refresh(Some(row), Reached(events).flag, world);
    assert forall id :: id in r.calls ==> id in ToProbe(row.items);
  }

  /**
    Of lists the code never writes the same cannot be said: earlier counts survive
    every refresh, whatever the probes say, exactly when no probed entry shares
    its id with an unprobed one.
   */
  lemma EarlierCountsSurviveIff(items: seq<Item>)
    ensures (forall probe: Probe, i :: 0 <= i < |items| && IsProbed(items[i]) ==>
               Merged(items, ToProbe(items), probe)[i] == items[i])
       <==> (forall i, j :: 0 <= i < |items| && 0 <= j < |items| && IsProbed(items[i]) && !IsProbed(items[j]) ==>
               items[i].upload.youtubeId != items[j].upload.youtubeId)
  {
    ToProbeMembers(items);
    if i, j :| 0 <= i < |items| && 0 <= j < |items| && IsProbed(items[i]) && !IsProbed(items[j])
               && items[i].upload.youtubeId == items[j].upload.youtubeId
    {
      var failing: Probe := _ => Counts(None, None);
      assert Merged(items, ToProbe(items), failing)[i] != items[i];
    }
  }

  // ------------------------------------------------------------------ progress

  lemma {:induction false} PointwiseMoreProbed(a: seq<Item>, b: seq<Item>)
    requires |a| == |b| && forall i :: 0 <= i < |a| && IsProbed(a[i]) ==> IsProbed(b[i])
    ensures CountProbed(a) <= CountProbed(b)
  {
    if a == [] {
    } else {
      PointwiseMoreProbed(a[1..], b[1..]);
    }
  }

  lemma PercentMonotone(a: nat, b: nat, total: nat)
    requires a <= b <= total
    ensures Percent(a, total) <= Percent(b, total) <= 100
  {
    var d := if total < 1 then 1 else total;
    DivMonotone(a * 100, b * 100, d);
    DivMonotone(b * 100, 100 * d, d);
    assert 100 * d / d == 100;
  }

  lemma MulMonotone(d: nat, a: nat, b: nat)
    ensures a <= b ==> d * a <= d * b
  {}

  lemma DivMonotone(x: nat, y: nat, d: nat)
    requires x <= y && d > 0
    ensures x / d <= y / d
  {
    MulMonotone(d, y / d + 1, x / d);
    assert d * (y / d + 1) == d * (y / d) + d;
    assert x == d * (x / d) + x % d && y == d * (y / d) + y % d;
  }

  /** Every id probed in a uniform list adds to its probed entries and takes none away. */
  lemma MoreProbesMoreCounts(items: seq<Item>, m: nat, n: nat, probe: Probe)
    requires Uniform(items) && m <= n <= |ToProbe(items)|
    ensures CountProbed(items) <= CountProbed(Merged(items, ToProbe(items)[..m], probe))
    ensures CountProbed(Merged(items, ToProbe(items)[..m], probe)) <= CountProbed(Merged(items, ToProbe(items)[..n], probe))
  {
    var ids := ToProbe(items);
    var a, b := Merged(items, ids[..m], probe), Merged(items, ids[..n], probe);
    assert forall id :: id in ids[..m] ==> id in ids[..n];
    assert forall id :: id in ids[..n] ==> id in ids;
    forall i | 0 <= i < |items|
      ensures IsProbed(items[i]) ==> IsProbed(a[i])
      ensures IsProbed(a[i]) ==> IsProbed(b[i])
    {
      if IsProbed(items[i]) {
        ProbedIsNotToProbe(items, i);
      }
    }
    PointwiseMoreProbed(items, a);
    PointwiseMoreProbed(a, b);
  }

  /**
    From any cached list on, the percentage shown never falls from one batch to a
    later one and stays within 0..100.
   */
  lemma ProgressNeverFalls(events: seq<Event>, m: nat, n: nat, probe: Probe)
    requires Reached(events).row.Some? && m <= n <= |ToProbe(Reached(events).row.value.items)|
    ensures var items := Reached(events).row.value.items;
            var a := Merged(items, ToProbe(items)[..m], probe);
            var b := Merged(items, ToProbe(items)[..n], probe);
            Percent(CountProbed(items), |items|) <= Percent(CountProbed(a), |items|)
              <= Percent(CountProbed(b), |items|) <= 100
  {
    var items := Reached(events).row.value.items;
    ReachedIsUniform(events);
    MoreProbesMoreCounts(items, m, n, probe);
    hide *;
    var a, b := Merged(items, ToProbe(items)[..m], probe), Merged(items, ToProbe(items)[..n], probe);
    PercentMonotone(CountProbed(items), CountProbed(a), |items|);
    PercentMonotone(CountProbed(a), CountProbed(b), |items|);
  }

  // ------------------------------------------------------------- late cancellations

  lemma {:induction false} LastBatchDecidesTheFlag(flag: bool, during: nat -> bool, n: nat, k: nat)
    requires k < n && StopsAt(flag, during, n, k) == n
    ensures FlagAfter(flag, during, n, k) == during(n - 1)
    decreases n - k
  {
    if k + 1 == n {
    } else {
      LastBatchDecidesTheFlag(during(k), during, n, k + 1);
    }
  }

  lemma FlagAfterProbing(row: CacheRow, flag: bool, world: World)
    ensures var ids := ToProbe(row.items);
            var r := ProbePhase(row, flag, world);
            r.flag <==> if ids == [] then flag
                        else r.row.status == Done && world.cancelDuringBatch(BatchCount(|ids|) - 1)
  {
    var ids := ToProbe(row.items);
    if ids != [] {
      var n := BatchCount(|ids|);
      if StopsAt(flag, world.cancelDuringBatch, n, 0) == n {
        LastBatchDecidesTheFlag(flag, world.cancelDuringBatch, n, 0);
      } else {
        StoppedMeansCleared(flag, world.cancelDuringBatch, n, 0);
      }
    }
  }

  /** A cancel was requested before the probing phase, where that is: a resumed refresh has no listing. */
  predicate AskedBefore(row: Option<CacheRow>, flag: bool, world: World) {
    flag || (!Resumes(row) && world.cancelDuringListing)
  }

  /**
    A cancel request is not dropped when no refresh polls it any more.  It is
    still set after a refresh exactly when it came before the probing phase and
    the listing failed or left nothing to probe, or when it came during the last
    batch of a refresh that was not cancelled.
   */
  lemma WhenACancelStaysPending(row: Option<CacheRow>, flag: bool, world: World)
    ensures var start := ProbingRow(row, world);
            var r := Refresh(row, flag, world);
            r.flag <==> if start.None? || ToProbe(start.value.items) == [] then AskedBefore(row, flag, world)
                        else r.row.status == Done
                             && world.cancelDuringBatch(BatchCount(|ToProbe(start.value.items)|) - 1)
  {
    var start := ProbingRow(row, world);
    if start.Some? {
      FlagAfterProbing(start.value, AskedBefore(row, flag, world), world);
    }
    hide ProbePhase, ToProbe;
  }

  lemma {:induction false} StoppedMeansCleared(flag: bool, during: nat -> bool, n: nat, k: nat)
    requires k <= n && StopsAt(flag, during, n, k) < n
    ensures !FlagAfter(flag, during, n, k)
    decreases n - k
  {
    if !flag {
      StoppedMeansCleared(during(k), during, n, k + 1);
    }
  }

  /**
    ... and then the next refresh that has anything to probe is cancelled before
    its first probe; one whose listing fails or that has nothing to probe passes the request on.
   */
  lemma PendingCancelHitsTheNext(row: Option<CacheRow>, world: World)
    ensures var start := ProbingRow(row, world);
            var r := Refresh(row, true, world);
            && r.calls == []
            && (if start.None? then r.flag && r.row.status == Failed && r.row.items == RowOr(row).items
                else r.row.items == start.value.items
                     && (if ToProbe(start.value.items) == [] then r.flag && r.row.status == Done
                         else !r.flag && r.row.status == Cancelled))
  {
    var start := ProbingRow(row, world);
    if start.Some? {
      assert Merged(start.value.items, [], world.probe) == start.value.items;
    }
  }

  // ------------------------------------------------------ browsing and crashing

  /**
    Looking at a cancelled cache throws its partial counts away: the browse
    starts a flat fetch, and the next slow refresh begins from the first id.
   */
  lemma BrowsingACancelledCacheLosesItsCounts(row: CacheRow, listing: Result<seq<Upload>, string>, now: int)
    requires row.status == Cancelled
    ensures var after := Browse(Some(row), listing, now).1;
            && !Resumes(after)
            && (listing.Ok? ==> CountProbed(after.value.items) == 0
                                && ToProbe(after.value.items) == seq(|listing.value|, i requires 0 <= i < |listing.value| => listing.value[i].youtubeId))
  {
    if listing.Ok? {
      BareListing(listing.value);
    }
  }

  /** A crash in the middle of a refresh that has a list to work on leaves the row "fetching". */
  lemma CrashLeavesItFetching(c: Cache, moment: Moment)
    requires moment.InListing? || (moment.AfterBatches? && ProbingRow(c.row, moment.world).Some?)
    ensures InFlight(React(c, Crash(moment)).row)
  {}

  /**
    A row that reads "fetching" with no refresh behind it stays so: neither a
    refresh, nor a browse, nor another restart ever changes it.
   */
  lemma {:induction false} FetchingIsForever(events: seq<Event>, more: seq<Event>)
    requires InFlight(Reached(events).row)
    ensures Reached(events + more).row == Reached(events).row
    decreases |more|
  {
    if more == [] {
      assert events + more == events;
    } else {
      var n := |more| - 1;
      FetchingIsForever(events, more[..n]);
      assert (events + more)[..|events + more| - 1] == events + more[..n];
      StuckInFetching(Reached(events + more[..n]), more[n]);
    }
  }

  lemma StuckInFetching(c: Cache, e: Event)
    requires InFlight(c.row)
    ensures React(c, e).row == c.row
  {
    hide Refresh, Listed, CrashedRow;
  }

  lemma {:induction false} BareListing(uploads: seq<Upload>)
    ensures CountProbed(Flat(uploads)) == 0
    ensures ToProbe(Flat(uploads)) == seq(|uploads|, i requires 0 <= i < |uploads| => uploads[i].youtubeId)
  {
    if uploads == [] {
    } else {
      assert Flat(uploads)[1..] == Flat(uploads[1..]);
      BareListing(uploads[1..]);
    }
  }
}
