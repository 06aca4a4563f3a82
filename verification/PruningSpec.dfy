/**
  Retention of the buffered fragments: expiry per subscription, then, when the
  disk is critically full, the oldest fragments of all streams until enough is free.
 */
module PruningSpec {
  import opened StableSort

  const SECONDS_PER_DAY := 86400

  /** `name` is the place of the path among all paths; `readable`: stat() succeeds; `removable`: unlink() does. */
  datatype Fragment = Fragment(name: nat, stream: nat, mtime: int, size: nat, readable: bool, removable: bool)

  predicate IsDeletable(f: Fragment) {
    f.readable && f.removable
  }

  datatype Subscription = Subscription(stream: nat, retentionDays: int)

  datatype Disk = Disk(files: seq<Fragment>, free: nat, total: nat)

  // ------------------------------------------------------------- removing files

  function Bytes(files: seq<Fragment>): nat {
    if files == [] then 0 else files[0].size + Bytes(files[1..])
  }

  function NotIn(gone: set<Fragment>): Fragment -> bool {
    (f: Fragment) => f !in gone
  }

  function Minus(files: seq<Fragment>, gone: set<Fragment>): seq<Fragment> {
    Filter(files, NotIn(gone))
  }

  function SetOf(files: seq<Fragment>): set<Fragment> {
    set f | f in files
  }

  function Delete(d: Disk, gone: seq<Fragment>): Disk {
    Disk(Minus(d.files, SetOf(gone)), d.free + Bytes(gone), d.total)
  }

  lemma {:induction false} MinusTwice(files: seq<Fragment>, a: set<Fragment>, b: set<Fragment>)
    ensures Minus(Minus(files, a), b) == Minus(files, a + b)
  {
    if files == [] {
    } else {
      MinusTwice(files[1..], a, b);
      var rest := Minus(files[1..], a);
      assert ([files[0]] + rest)[1..] == rest && [] + rest == rest;
    }
  }

  lemma {:induction false} MinusNothing(files: seq<Fragment>)
    ensures Minus(files, {}) == files
  {
    if files == [] {
    } else {
      MinusNothing(files[1..]);
      assert files == [files[0]] + files[1..];
    }
  }

  lemma DeleteNothing(d: Disk)
    ensures Delete(d, []) == d
  {
    MinusNothing(d.files);
    assert SetOf([]) == {};
  }

  // -------------------------------------------------------------------- expiry

  function NameKey(f: Fragment): int {
    f.name
  }

  function AgeKey(f: Fragment): int {
    f.mtime
  }

  function OfStream(stream: nat): Fragment -> bool {
    (f: Fragment) => f.stream == stream
  }

  /** list_fragments: one stream's files, by path. */
  function Listed(files: seq<Fragment>, stream: nat): seq<Fragment> {
    Sorted(Filter(files, OfStream(stream)), NameKey)
  }

  function Cutoff(now: int, sub: Subscription): int {
    now - sub.retentionDays * SECONDS_PER_DAY
  }

  /** What one pass removes, and whether it ran into a file it could not remove and raised. */
  datatype Sweep = Sweep(removed: seq<Fragment>, stuck: bool)

  function Swept(files: seq<Fragment>, cutoff: int): Sweep {
    if files == [] then Sweep([], false)
    else if !files[0].readable then Sweep([], true)
    else if files[0].mtime >= cutoff then Swept(files[1..], cutoff)
    else if !files[0].removable then Sweep([], true)
    else
      var rest := Swept(files[1..], cutoff);
      Sweep([files[0]] + rest.removed, rest.stuck)
  }

  datatype Outcome = Outcome(disk: Disk, raised: bool)

  /** prune_older_than for each subscription in turn; the first exception ends it all. */
  function ExpireAll(d: Disk, now: int, subs: seq<Subscription>): Outcome
    decreases |subs|
  {
    if subs == [] then Outcome(d, false)
    else
      var s := Swept(Listed(d.files, subs[0].stream), Cutoff(now, subs[0]));
      var d' := Delete(d, s.removed);
      if s.stuck then Outcome(d', true) else ExpireAll(d', now, subs[1..])
  }

  // ------------------------------------------------------------ oldest until free

  /** list_all_fragments: every stream's files, oldest first; it raises if one cannot be read. */
  function Oldest(files: seq<Fragment>): seq<Fragment> {
    Sorted(files, AgeKey)
  }

  function ToRemove(files: seq<Fragment>, free: nat, target: nat): seq<Fragment> {
    if files == [] || free >= target then []
    else if !IsDeletable(files[0]) then ToRemove(files[1..], free, target)
    else [files[0]] + ToRemove(files[1..], free + files[0].size, target)
  }

  predicate AllReadable(files: seq<Fragment>) {
    forall f :: f in files ==> f.readable
  }

  /** With enough space nothing is listed; otherwise the listing may raise before anything is removed. */
  function PruneUntilFree(d: Disk, target: nat): Outcome {
    if d.free < target && !AllReadable(d.files) then Outcome(d, true)
    else Outcome(Delete(d, ToRemove(Oldest(d.files), d.free, target)), false)
  }

  /** Less than 5% free, in exact arithmetic. */
  predicate CriticallyFull(free: nat, total: nat) {
    total != 0 && free * 20 < total
  }

  /** 10% of the disk, rounded down. */
  function Target(total: nat): nat {
    total / 10
  }

  /** The retention job. */
  function Job(d: Disk, now: int, subs: seq<Subscription>, autoPrune: bool): Outcome {
    var e := ExpireAll(d, now, subs);
    if !e.raised && autoPrune && CriticallyFull(e.disk.free, e.disk.total)
    then PruneUntilFree(e.disk, Target(e.disk.total))
    else e
  }

  // --------------------------------------------------- the shortest prefix that will do

  lemma {:induction false} BytesConcat(a: seq<Fragment>, b: seq<Fragment>)
    ensures Bytes(a + b) == Bytes(a) + Bytes(b)
  {
    if a == [] {
      assert a + b == b;
    } else {
      assert (a + b)[1..] == a[1..] + b;
      BytesConcat(a[1..], b);
    }
  }

  /** No prefix of `gone` but the whole brings the free space to the target. */
  ghost predicate NoneTooMany(gone: seq<Fragment>, free: nat, target: nat) {
    forall k :: 0 <= k < |gone| ==> free + Bytes(gone[..k]) < target
  }

  lemma OneMoreNeeded(f: Fragment, gone: seq<Fragment>, free: nat, target: nat)
    requires free < target && NoneTooMany(gone, free + f.size, target)
    ensures NoneTooMany([f] + gone, free, target)
    ensures Bytes([f] + gone) == f.size + Bytes(gone)
  {
    assert ([f] + gone)[1..] == gone;
    forall k | 0 <= k < |gone| + 1
      ensures free + Bytes(([f] + gone)[..k]) < target
    {
      if k > 0 {
        assert ([f] + gone)[..k] == [f] + gone[..k - 1];
        assert ([f] + gone[..k - 1])[1..] == gone[..k - 1];
      }
    }
  }

  lemma PrefixGrows(f: Fragment, part: seq<Fragment>, whole: seq<Fragment>)
    requires part <= whole
    ensures [f] + part <= [f] + whole
  {}

  /**
    The files removed are a prefix of the removable ones, oldest first: no shorter
    prefix reaches the target, and this one does or is all of them.
   */
  lemma {:induction false} ShortestOldestFirst(files: seq<Fragment>, free: nat, target: nat)
    ensures var gone, all := ToRemove(files, free, target), Filter(files, IsDeletable);
            && gone <= all
            && (free + Bytes(gone) >= target || gone == all)
            && NoneTooMany(gone, free, target)
  {
    if files != [] && free < target {
      var f, rest := files[0], files[1..];
      if IsDeletable(f) {
        ShortestOldestFirst(rest, free + f.size, target);
        assert Filter(files, IsDeletable) == [f] + Filter(rest, IsDeletable);
        hide NoneTooMany, Bytes, Filter;
        OneMoreNeeded(f, ToRemove(rest, free + f.size, target), free, target);
        PrefixGrows(f, ToRemove(rest, free + f.size, target), Filter(rest, IsDeletable));
      } else {
        ShortestOldestFirst(rest, free, target);
        assert [] + Filter(rest, IsDeletable) == Filter(rest, IsDeletable);
      }
    }
  }

  lemma {:induction false} NothingRemovable(files: seq<Fragment>, free: nat, target: nat)
    requires forall i :: 0 <= i < |files| ==> !IsDeletable(files[i])
    ensures ToRemove(files, free, target) == []
  {
    if files == [] {
    } else {
      NothingRemovable(files[1..], free, target);
    }
  }

  lemma MembersOfSorted(files: seq<Fragment>, key: Fragment -> int)
    ensures forall f :: f in Sorted(files, key) <==> f in files
  {
    SortedFacts(files, key);
    assert forall f :: f in Sorted(files, key) <==> f in multiset(Sorted(files, key));
    assert forall f :: f in files <==> f in multiset(files);
  }

  /** Pruning to the same target again changes nothing, whether or not the target was reached. */
  lemma SecondPruneRemovesNothing(d: Disk, target: nat)
    ensures var e := PruneUntilFree(d, target); PruneUntilFree(e.disk, target) == e
  {
    var gone := ToRemove(Oldest(d.files), d.free, target);
    var e := Delete(d, gone);
    if d.free >= target || AllReadable(d.files) {
      ShortestOldestFirst(Oldest(d.files), d.free, target);
      FilterFacts(d.files, NotIn(SetOf(gone)));
      if d.free + Bytes(gone) < target {
        FilterFacts(Oldest(d.files), IsDeletable);
        MembersOfSorted(d.files, AgeKey);
        MembersOfSorted(e.files, AgeKey);
        forall i | 0 <= i < |Oldest(e.files)|
          ensures !IsDeletable(Oldest(e.files)[i])
        {
          var f := Oldest(e.files)[i];
          assert f in e.files;
          assert NotIn(SetOf(gone))(f);
          assert f in Oldest(d.files);
        }
        NothingRemovable(Oldest(e.files), e.free, target);
      }
      DeleteNothing(e);
    }
  }

  /**
    Reaching the target keeps the next run from pruning, for every amount of free
    space that reaches it, exactly on disks of at least ten bytes (or none).
   */
  lemma TargetHoldsOffTheNextRunIff(total: nat)
    ensures (forall free: nat :: free >= Target(total) ==> !CriticallyFull(free, total)) <==> total == 0 || total >= 10
  {
    if 0 < total < 10 {
      assert 0 >= Target(total) && CriticallyFull(0, total);
    }
    if total >= 10 {
      forall free: nat | free >= Target(total)
        ensures !CriticallyFull(free, total)
      {
        assert total == total / 10 * 10 + total % 10;
      }
    }
  }

  // ---------------------------------------------------------------- the job settles

  ghost predicate AllRemovable(gone: set<Fragment>) {
    forall f :: f in gone ==> IsDeletable(f)
  }

  /** A file that a pass over its stream cannot get past. */
  predicate BlocksSweep(f: Fragment, cutoff: int) {
    !f.readable || (!f.removable && f.mtime < cutoff)
  }

  lemma {:induction false} SweepRemovesDeletable(files: seq<Fragment>, cutoff: int)
    ensures forall f :: f in Swept(files, cutoff).removed ==> f in files && IsDeletable(f) && f.mtime < cutoff
  {
    if files == [] {
    } else {
      SweepRemovesDeletable(files[1..], cutoff);
      assert files == [files[0]] + files[1..];
    }
  }

  lemma {:induction false} SweepMissesNothing(files: seq<Fragment>, cutoff: int, f: Fragment)
    requires f in files && !Swept(files, cutoff).stuck
    ensures !BlocksSweep(f, cutoff) && (f.mtime < cutoff ==> f in Swept(files, cutoff).removed)
  {
    if f != files[0] {
      assert files == [files[0]] + files[1..];
      SweepMissesNothing(files[1..], cutoff, f);
    }
  }

  lemma {:induction false} SweepIsBlocked(files: seq<Fragment>, cutoff: int) returns (f: Fragment)
    requires Swept(files, cutoff).stuck
    ensures f in files && BlocksSweep(f, cutoff)
  {
    if BlocksSweep(files[0], cutoff) {
      f := files[0];
    } else {
      f := SweepIsBlocked(files[1..], cutoff);
    }
  }

  /** What a pass removes, when it gets stuck, and that it misses nothing otherwise. */
  lemma SweepFacts(files: seq<Fragment>, cutoff: int)
    ensures forall f :: f in Swept(files, cutoff).removed ==> f in files && IsDeletable(f) && f.mtime < cutoff
    ensures Swept(files, cutoff).stuck <==> exists f :: f in files && BlocksSweep(f, cutoff)
    ensures !Swept(files, cutoff).stuck ==> forall f :: f in files && f.mtime < cutoff ==> f in Swept(files, cutoff).removed
  {
    hide Swept, BlocksSweep, IsDeletable;
    SweepRemovesDeletable(files, cutoff);
    if Swept(files, cutoff).stuck {
      var f := SweepIsBlocked(files, cutoff);
    } else {
      forall f | f in files
        ensures !BlocksSweep(f, cutoff) && (f.mtime < cutoff ==> f in Swept(files, cutoff).removed)
      {
        SweepMissesNothing(files, cutoff, f);
      }
    }
  }

  /** Once what it removes is gone, a pass finds nothing more, and gets stuck where it was stuck. */
  lemma {:induction false} SweepAfterRemoval(files: seq<Fragment>, cutoff: int, gone: set<Fragment>)
    requires AllRemovable(gone) && SetOf(Swept(files, cutoff).removed) <= gone
    ensures Swept(Minus(files, gone), cutoff) == Sweep([], Swept(files, cutoff).stuck)
  {
    if files == [] {
    } else {
      var f, rest := files[0], files[1..];
      var kept := Minus(rest, gone);
      assert ([f] + kept)[1..] == kept && [] + kept == kept;
      if f.readable && f.mtime >= cutoff {
        SweepAfterRemoval(rest, cutoff, gone);
      } else if IsDeletable(f) {
        assert f in Swept(files, cutoff).removed;
        assert forall g :: g in Swept(rest, cutoff).removed ==> g in Swept(files, cutoff).removed;
        assert SetOf(Swept(rest, cutoff).removed) <= gone;
        SweepAfterRemoval(rest, cutoff, gone);
      }
    }
  }

  lemma {:induction false} FiltersCommute(files: seq<Fragment>, p: Fragment -> bool, q: Fragment -> bool)
    ensures Filter(Filter(files, p), q) == Filter(Filter(files, q), p)
  {
    if files == [] {
    } else {
      FiltersCommute(files[1..], p, q);
      var a, b := Filter(files[1..], p), Filter(files[1..], q);
      assert ([files[0]] + a)[1..] == a && [] + a == a;
      assert ([files[0]] + b)[1..] == b && [] + b == b;
    }
  }

  lemma ListingAfterRemoval(files: seq<Fragment>, stream: nat, gone: set<Fragment>)
    ensures Listed(Minus(files, gone), stream) == Minus(Listed(files, stream), gone)
  {
    FiltersCommute(files, OfStream(stream), NotIn(gone));
    SortedCommutesWithFilter(Filter(files, OfStream(stream)), NotIn(gone), NameKey);
  }

  /** Everything a run of expiries removes. */
  ghost function GoneBy(d: Disk, now: int, subs: seq<Subscription>): set<Fragment>
    decreases |subs|
  {
    if subs == [] then {}
    else
      var s := Swept(Listed(d.files, subs[0].stream), Cutoff(now, subs[0]));
      SetOf(s.removed) + if s.stuck then {} else GoneBy(Delete(d, s.removed), now, subs[1..])
  }

  lemma {:induction false} ExpiryIsRemoval(d: Disk, now: int, subs: seq<Subscription>)
    ensures ExpireAll(d, now, subs).disk.files == Minus(d.files, GoneBy(d, now, subs))
    ensures AllRemovable(GoneBy(d, now, subs))
    ensures ExpireAll(d, now, subs).disk.total == d.total
    decreases |subs|
  {
    if subs == [] {
      MinusNothing(d.files);
    } else {
      var list, cutoff := Listed(d.files, subs[0].stream), Cutoff(now, subs[0]);
      var s := Swept(list, cutoff);
      SweepFacts(list, cutoff);
      hide Swept, Listed, Minus;
      if s.stuck {
        assert SetOf(s.removed) + {} == SetOf(s.removed);
      } else {
        var d' := Delete(d, s.removed);
        ExpiryIsRemoval(d', now, subs[1..]);
        MinusTwice(d.files, SetOf(s.removed), GoneBy(d', now, subs[1..]));
      }
    }
  }

  /** Expiring again, after anything removable has gone as well, does nothing and raises where it raised. */
  lemma {:induction false} ExpiringAgain(d: Disk, now: int, subs: seq<Subscription>, e: Disk, gone: set<Fragment>)
    requires AllRemovable(gone) && GoneBy(d, now, subs) <= gone && e.files == Minus(d.files, gone)
    ensures ExpireAll(e, now, subs) == Outcome(e, ExpireAll(d, now, subs).raised)
    decreases |subs|
  {
    if subs == [] {
    } else {
      var list, cutoff := Listed(d.files, subs[0].stream), Cutoff(now, subs[0]);
      var s := Swept(list, cutoff);
      SweepAfterRemoval(list, cutoff, gone);
      ListingAfterRemoval(d.files, subs[0].stream, gone);
      DeleteNothing(e);
      hide Swept, Listed, Minus;
      if !s.stuck {
        MinusTwice(d.files, SetOf(s.removed), gone);
        assert SetOf(s.removed) + gone == gone;
        ExpiringAgain(Delete(d, s.removed), now, subs[1..], e, gone);
      }
    }
  }

  lemma {:induction false} PrunedAreRemovable(files: seq<Fragment>, free: nat, target: nat)
    ensures forall f :: f in ToRemove(files, free, target) ==> IsDeletable(f)
  {
    if files == [] {
    } else {
      PrunedAreRemovable(files[1..], free, target);
      PrunedAreRemovable(files[1..], free + files[0].size, target);
    }
  }

  /** Running the whole job again at once changes nothing, however it ended. */
  lemma JobSettles(d: Disk, now: int, subs: seq<Subscription>, autoPrune: bool)
    ensures Job(Job(d, now, subs, autoPrune).disk, now, subs, autoPrune) == Job(d, now, subs, autoPrune)
  {
    var e := ExpireAll(d, now, subs);
    var gone := GoneBy(d, now, subs);
    ExpiryIsRemoval(d, now, subs);
    hide ExpireAll, GoneBy, ToRemove, Minus;
    ExpiringAgain(d, now, subs, e.disk, gone);
    if !e.raised && autoPrune && CriticallyFull(e.disk.free, e.disk.total) {
      var more := ToRemove(Oldest(e.disk.files), e.disk.free, Target(e.disk.total));
      PrunedAreRemovable(Oldest(e.disk.files), e.disk.free, Target(e.disk.total));
      MinusTwice(d.files, gone, SetOf(more));
      ExpiringAgain(d, now, subs, Delete(e.disk, more), gone + SetOf(more));
      SecondPruneRemovesNothing(e.disk, Target(e.disk.total));
    }
  }

  // ------------------------------------------------------------ when the job raises

  ghost predicate Expired(f: Fragment, now: int, subs: seq<Subscription>) {
    exists i :: 0 <= i < |subs| && subs[i].stream == f.stream && f.mtime < Cutoff(now, subs[i])
  }

  lemma MembersOfListed(files: seq<Fragment>, stream: nat)
    ensures forall f :: f in Listed(files, stream) <==> f in files && f.stream == stream
  {
    FilterFacts(files, OfStream(stream));
    MembersOfSorted(Filter(files, OfStream(stream)), NameKey);
    forall f
      ensures f in Listed(files, stream) <==> f in files && f.stream == stream
    {
      assert OfStream(stream)(f) <==> f.stream == stream;
    }
  }

  lemma MembersOfMinus(files: seq<Fragment>, gone: set<Fragment>)
    ensures forall f :: f in Minus(files, gone) <==> f in files && f !in gone
  {
    FilterFacts(files, NotIn(gone));
    forall f
      ensures f in Minus(files, gone) <==> f in files && f !in gone
    {
      assert NotIn(gone)(f) <==> f !in gone;
    }
  }

  /** Some subscription's pass cannot get past this file. */
  ghost predicate Blocks(f: Fragment, now: int, subs: seq<Subscription>) {
    exists i :: 0 <= i < |subs| && subs[i].stream == f.stream && BlocksSweep(f, Cutoff(now, subs[i]))
  }

  lemma ExpiredByHead(f: Fragment, now: int, subs: seq<Subscription>)
    requires subs != []
    ensures Expired(f, now, subs)
       <==> (subs[0].stream == f.stream && f.mtime < Cutoff(now, subs[0])) || Expired(f, now, subs[1..])
  {
    if i :| 0 <= i < |subs| && subs[i].stream == f.stream && f.mtime < Cutoff(now, subs[i]) {
      assert i > 0 ==> subs[1..][i - 1] == subs[i];
    }
    if i :| 0 <= i < |subs| - 1 && subs[1..][i].stream == f.stream && f.mtime < Cutoff(now, subs[1..][i]) {
      assert subs[i + 1] == subs[1..][i];
    }
  }

  lemma BlocksByHead(f: Fragment, now: int, subs: seq<Subscription>)
    requires subs != []
    ensures Blocks(f, now, subs)
       <==> (subs[0].stream == f.stream && BlocksSweep(f, Cutoff(now, subs[0]))) || Blocks(f, now, subs[1..])
  {
    if i :| 0 <= i < |subs| && subs[i].stream == f.stream && BlocksSweep(f, Cutoff(now, subs[i])) {
      assert i > 0 ==> subs[1..][i - 1] == subs[i];
    }
    if i :| 0 <= i < |subs| - 1 && subs[1..][i].stream == f.stream && BlocksSweep(f, Cutoff(now, subs[1..][i])) {
      assert subs[i + 1] == subs[1..][i];
    }
  }

  /**
    Exactly the expired fragments go, and the rest stays; unless one of a
    subscribed stream cannot be read, or is expired and cannot be removed: then,
    and only then, the expiry raises.
   */
  lemma {:induction false} ExpiryIsExact(d: Disk, now: int, subs: seq<Subscription>)
    ensures var r := ExpireAll(d, now, subs);
            && (r.raised <==> exists f :: f in d.files && Blocks(f, now, subs))
            && (forall f :: f in r.disk.files ==> f in d.files)
            && (forall f :: f in d.files && (!Expired(f, now, subs) || !IsDeletable(f)) ==> f in r.disk.files)
            && (!r.raised ==> forall f :: f in r.disk.files ==> !Expired(f, now, subs))
    decreases |subs|
  {
    if subs == [] {
    } else {
      var list, cutoff := Listed(d.files, subs[0].stream), Cutoff(now, subs[0]);
      var s := Swept(list, cutoff);
      var d' := Delete(d, s.removed);
      MembersOfListed(d.files, subs[0].stream);
      MembersOfMinus(d.files, SetOf(s.removed));
      SweepFacts(list, cutoff);
      forall f
        ensures Expired(f, now, subs) <==> (subs[0].stream == f.stream && f.mtime < cutoff) || Expired(f, now, subs[1..])
        ensures Blocks(f, now, subs) <==> (subs[0].stream == f.stream && BlocksSweep(f, cutoff)) || Blocks(f, now, subs[1..])
      {
        ExpiredByHead(f, now, subs);
        BlocksByHead(f, now, subs);
      }
      hide Swept, Listed, Minus, Expired, Cutoff, Blocks;
      if !s.stuck {
        ExpiryIsExact(d', now, subs[1..]);
        BlockersSurvive(d, d', now, subs, s);
      }
    }
  }

  /** What blocks a later subscription's pass is still there for it. */
  lemma BlockersSurvive(d: Disk, d': Disk, now: int, subs: seq<Subscription>, s: Sweep)
    requires subs != []
    requires forall f :: f in d'.files <==> f in d.files && f !in SetOf(s.removed)
    requires forall f :: f in s.removed ==> IsDeletable(f)
    requires forall f :: f in d.files && subs[0].stream == f.stream ==> !BlocksSweep(f, Cutoff(now, subs[0]))
    requires forall f :: Blocks(f, now, subs) <==> (subs[0].stream == f.stream && BlocksSweep(f, Cutoff(now, subs[0]))) || Blocks(f, now, subs[1..])
    ensures (exists f :: f in d.files && Blocks(f, now, subs)) <==> (exists f :: f in d'.files && Blocks(f, now, subs[1..]))
  {
    assert forall f :: f in s.removed ==> !Blocks(f, now, subs[1..]);
    hide Blocks, Cutoff, BlocksSweep;
    if f :| f in d.files && Blocks(f, now, subs) {
      assert f in d'.files;
    }
    if f :| f in d'.files && Blocks(f, now, subs[1..]) {
      assert f in d.files;
    }
  }

  /** One fragment the expiry cannot get past ends the job before it looks at a full disk. */
  lemma OneStuckFragmentBlocksPruning(d: Disk, now: int, subs: seq<Subscription>, autoPrune: bool, f: Fragment)
    requires f in d.files && Blocks(f, now, subs)
    ensures Job(d, now, subs, autoPrune) == ExpireAll(d, now, subs) && Job(d, now, subs, autoPrune).raised
  {
    ExpiryIsExact(d, now, subs);
  }

  /** One fragment that cannot be read, of whatever stream, keeps the job from removing anything that has not expired. */
  lemma UnreadableFragmentBlocksPruning(d: Disk, now: int, subs: seq<Subscription>, autoPrune: bool, f: Fragment)
    requires f in d.files && !f.readable
    ensures Job(d, now, subs, autoPrune).disk == ExpireAll(d, now, subs).disk
  {
    ExpiryIsExact(d, now, subs);
    var e := ExpireAll(d, now, subs).disk;
    DeleteNothing(e);
    assert !AllReadable(e.files);
  }

  // ---------------------------------------------------------------- conservation

  /** Every path is listed once. */
  ghost predicate NoRepeats(files: seq<Fragment>) {
    forall f :: multiset(files)[f] <= 1
  }

  lemma {:induction false} MinusAbsent(files: seq<Fragment>, g: Fragment)
    requires g !in files
    ensures Minus(files, {g}) == files
  {
    if files == [] {
    } else {
      MinusAbsent(files[1..], g);
      assert files == [files[0]] + files[1..];
    }
  }

  lemma HeadAndRest(files: seq<Fragment>)
    requires files != []
    ensures multiset(files) == multiset{files[0]} + multiset(files[1..])
    ensures Bytes(files) == files[0].size + Bytes(files[1..])
  {
    assert files == [files[0]] + files[1..];
  }

  lemma MinusAtHead(files: seq<Fragment>, g: Fragment)
    requires files != []
    ensures files[0] == g ==> Minus(files, {g}) == Minus(files[1..], {g})
    ensures files[0] != g ==> Minus(files, {g}) == [files[0]] + Minus(files[1..], {g})
  {
    var rest := Minus(files[1..], {g});
    assert [] + rest == rest;
  }

  lemma {:induction false} RemoveOne(files: seq<Fragment>, g: Fragment)
    requires multiset(files)[g] == 1
    ensures Bytes(Minus(files, {g})) + g.size == Bytes(files)
    ensures multiset(Minus(files, {g})) + multiset{g} == multiset(files)
  {
    hide *;
    HeadAndRest(files);
    MinusAtHead(files, g);
    if files[0] == g {
      assert multiset(files[1..])[g] == 0;
      MinusAbsent(files[1..], g);
    } else {
      assert multiset(files[1..])[g] == 1;
      RemoveOne(files[1..], g);
      var rest := Minus(files[1..], {g});
      var kept := [files[0]] + rest;
      assert kept[1..] == rest;
      HeadAndRest(kept);
    }
  }

  /** Deleting files that are there turns their bytes into free space. */
  lemma {:induction false} DeletingConserves(d: Disk, gone: seq<Fragment>)
    requires NoRepeats(d.files) && multiset(gone) <= multiset(d.files)
    ensures Bytes(Delete(d, gone).files) + Delete(d, gone).free == Bytes(d.files) + d.free
    ensures NoRepeats(Delete(d, gone).files)
    decreases |gone|
  {
    if gone == [] {
      DeleteNothing(d);
    } else {
      hide *;
      var g, rest := gone[0], gone[1..];
      var e := Disk(Minus(d.files, {g}), d.free + g.size, d.total);
      HeadAndRest(gone);
      OneIsThere(d.files, gone, g);
      RemoveOne(d.files, g);
      StillThere(d.files, e.files, rest, g);
      DeletingConserves(e, rest);
      DeleteInTurn(d, gone);
    }
  }

  lemma OneIsThere(files: seq<Fragment>, gone: seq<Fragment>, g: Fragment)
    requires NoRepeats(files) && multiset(gone) <= multiset(files) && g in multiset(gone)
    ensures multiset(files)[g] == 1
  {}

  lemma StillThere(files: seq<Fragment>, kept: seq<Fragment>, rest: seq<Fragment>, g: Fragment)
    requires NoRepeats(files) && multiset(kept) + multiset{g} == multiset(files)
    requires multiset{g} + multiset(rest) <= multiset(files)
    ensures NoRepeats(kept) && multiset(rest) <= multiset(kept)
  {
    forall f
      ensures multiset(kept)[f] <= 1 && multiset(rest)[f] <= multiset(kept)[f]
    {
      assert (multiset(kept) + multiset{g})[f] == multiset(files)[f];
      assert (multiset{g} + multiset(rest))[f] <= multiset(files)[f];
    }
  }

  lemma DeleteInTurn(d: Disk, gone: seq<Fragment>)
    requires gone != []
    ensures var e := Disk(Minus(d.files, {gone[0]}), d.free + gone[0].size, d.total);
            Delete(d, gone) == Delete(e, gone[1..])
  {
    hide Minus;
    MinusTwice(d.files, {gone[0]}, SetOf(gone[1..]));
    assert gone == [gone[0]] + gone[1..];
    assert SetOf(gone) == {gone[0]} + SetOf(gone[1..]);
  }

  lemma {:induction false} RemovedAreListed(files: seq<Fragment>, free: nat, target: nat, cutoff: int)
    ensures multiset(ToRemove(files, free, target)) <= multiset(files)
    ensures multiset(Swept(files, cutoff).removed) <= multiset(files)
  {
    if files == [] {
    } else {
      var f, rest := files[0], files[1..];
      RemovedAreListed(rest, free, target, cutoff);
      RemovedAreListed(rest, free + f.size, target, cutoff);
      assert ToRemove(files, free, target) in {[], ToRemove(rest, free, target), [f] + ToRemove(rest, free + f.size, target)};
      assert Swept(files, cutoff).removed in {[], Swept(rest, cutoff).removed, [f] + Swept(rest, cutoff).removed};
      hide *;
      HeadAndRest(files);
      OneMoreListed(f, ToRemove(rest, free + f.size, target), rest);
      OneMoreListed(f, Swept(rest, cutoff).removed, rest);
    }
  }

  lemma OneMoreListed(f: Fragment, part: seq<Fragment>, rest: seq<Fragment>)
    requires multiset(part) <= multiset(rest)
    ensures multiset([f] + part) <= multiset{f} + multiset(rest)
  {}

  lemma {:induction false} FilterIsListed(files: seq<Fragment>, keep: Fragment -> bool)
    ensures multiset(Filter(files, keep)) <= multiset(files)
  {
    if files == [] {
    } else {
      assert files == [files[0]] + files[1..];
      FilterIsListed(files[1..], keep);
    }
  }

  lemma {:induction false} ExpiryConserves(d: Disk, now: int, subs: seq<Subscription>)
    requires NoRepeats(d.files)
    ensures var e := ExpireAll(d, now, subs).disk;
            Bytes(e.files) + e.free == Bytes(d.files) + d.free && NoRepeats(e.files)
    decreases |subs|
  {
    if subs == [] {
    } else {
      var list, cutoff := Listed(d.files, subs[0].stream), Cutoff(now, subs[0]);
      var s := Swept(list, cutoff);
      SortedFacts(Filter(d.files, OfStream(subs[0].stream)), NameKey);
      FilterIsListed(d.files, OfStream(subs[0].stream));
      RemovedAreListed(list, 0, 0, cutoff);
      hide Swept, Delete, Bytes;
      DeletingConserves(d, s.removed);
      if !s.stuck {
        ExpiryConserves(Delete(d, s.removed), now, subs[1..]);
      }
    }
  }

  /** Over the whole job, bytes in files plus free bytes stay the same. */
  lemma JobConserves(d: Disk, now: int, subs: seq<Subscription>, autoPrune: bool)
    requires NoRepeats(d.files)
    ensures var e := Job(d, now, subs, autoPrune).disk;
            Bytes(e.files) + e.free == Bytes(d.files) + d.free && NoRepeats(e.files)
  {
    ExpiryConserves(d, now, subs);
    var e := ExpireAll(d, now, subs).disk;
    SortedFacts(e.files, AgeKey);
    RemovedAreListed(Oldest(e.files), e.free, Target(e.total), 0);
    hide Bytes, ToRemove, ExpireAll, NoRepeats;
    DeletingConserves(e, ToRemove(Oldest(e.files), e.free, Target(e.total)));
  }
}
