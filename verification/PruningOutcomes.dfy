/**
  What retention does to the fragments, said of their times, days and sizes.
 */
module PruningOutcomes {
  import opened StableSort
  import opened PruningSpec

  // ------------------------------------------------------------ oldest until free

  predicate ByTime(files: seq<Fragment>) {
    forall i, j :: 0 <= i < j < |files| ==> files[i].mtime <= files[j].mtime
  }

  lemma OldestIsByTime(files: seq<Fragment>)
    ensures ByTime(Oldest(files)) && forall f :: f in Oldest(files) <==> f in files
  {
    SortedFacts(files, AgeKey);
    MembersOfSorted(files, AgeKey);
    hide Sorted, SameOrderPerKey;
  }

  lemma HeadIsOldest(files: seq<Fragment>)
    requires ByTime(files) && files != []
    ensures forall g :: g in files ==> files[0].mtime <= g.mtime
    ensures ByTime(files[1..])
  {}

  /** In a list by time: what is older than a removed file, and could be, has been removed too. */
  lemma {:induction false} OlderGoFirst(files: seq<Fragment>, free: nat, target: nat, f: Fragment, g: Fragment)
    requires ByTime(files) && f in ToRemove(files, free, target)
    requires g in files && g.readable && g.removable && g.mtime < f.mtime
    ensures g in ToRemove(files, free, target)
  {
    var head, rest := files[0], files[1..];
    assert files == [head] + rest;
    HeadIsOldest(files);
    if g != head {
      if !IsDeletable(head) {
        OlderGoFirst(rest, free, target, f, g);
      } else if f != head {
        OlderGoFirst(rest, free + head.size, target, f, g);
      }
    }
  }

  lemma {:induction false} RemovedByTime(files: seq<Fragment>, free: nat, target: nat)
    requires ByTime(files)
    ensures ByTime(ToRemove(files, free, target))
  {
    if files == [] {
    } else {
      HeadIsOldest(files);
      RemovedByTime(files[1..], free, target);
      RemovedByTime(files[1..], free + files[0].size, target);
      RemovedAreDeletable(files[1..], free + files[0].size, target);
      TimeByHead(files[0], ToRemove(files[1..], free + files[0].size, target));
    }
  }

  lemma TimeByHead(head: Fragment, rest: seq<Fragment>)
    requires ByTime(rest)
    ensures (forall f :: f in rest ==> head.mtime <= f.mtime) ==> ByTime([head] + rest)
  {}

  lemma {:induction false} RemovedAreDeletable(files: seq<Fragment>, free: nat, target: nat)
    ensures forall f :: f in ToRemove(files, free, target) ==> f in files && f.readable && f.removable
  {
    if files == [] {
    } else {
      RemovedAreDeletable(files[1..], free, target);
      RemovedAreDeletable(files[1..], free + files[0].size, target);
      assert files == [files[0]] + files[1..];
    }
  }

  /** Without the last file removed the target was not reached; if it is not reached with it, nothing more could be removed. */
  lemma {:induction false} NoFurtherThanNeeded(files: seq<Fragment>, free: nat, target: nat)
    ensures var gone := ToRemove(files, free, target);
            && (gone != [] ==> free + Bytes(gone) - gone[|gone| - 1].size < target)
            && (free + Bytes(gone) < target ==> forall f :: f in files && f.readable && f.removable ==> f in gone)
  {
    if files == [] || free >= target {
    } else {
      var head, rest := files[0], files[1..];
      assert files == [head] + rest;
      if IsDeletable(head) {
        NoFurtherThanNeeded(rest, free + head.size, target);
        var gone := ToRemove(rest, free + head.size, target);
        assert ([head] + gone)[1..] == gone;
        assert gone != [] ==> ([head] + gone)[|gone|] == gone[|gone| - 1];
      } else {
        NoFurtherThanNeeded(rest, free, target);
      }
    }
  }

  lemma DeletedMembers(d: Disk, gone: seq<Fragment>)
    ensures forall f :: f in Delete(d, gone).files <==> f in d.files && f !in gone
    ensures Delete(d, gone).free == d.free + Bytes(gone) && Delete(d, gone).total == d.total
  {
    MembersOfMinus(d.files, SetOf(gone));
  }

  /**
    Pruning to a target.  It raises exactly if the target is not reached already
    and some file cannot be read, and then removes nothing.  Otherwise: only files
    that can be deleted go; with a file, every older one that can be deleted goes;
    the target is reached, or nothing deletable is left; and if any space was
    freed, it would be missed without the newest of the files removed.
   */
  lemma PruningMeans(d: Disk, target: nat)
    ensures var e := PruneUntilFree(d, target);
            && (e.raised <==> d.free < target && exists f :: f in d.files && !f.readable)
            && (e.raised ==> e.disk == d)
            && e.disk.total == d.total
            && (forall f :: f in e.disk.files ==> f in d.files)
            && (forall f :: f in d.files && f !in e.disk.files ==> f.readable && f.removable)
            && (forall f, g :: f in d.files && f !in e.disk.files && g in d.files && g.readable && g.removable && g.mtime < f.mtime ==>
                  g !in e.disk.files)
            && (!e.raised ==> e.disk.free >= target || forall f :: f in e.disk.files ==> !(f.readable && f.removable))
            && (d.free >= target ==> e.disk == d)
            && (e.disk.free != d.free ==>
                  exists f :: f in d.files && f !in e.disk.files && e.disk.free - f.size < target
                              && forall g :: g in d.files && g !in e.disk.files ==> g.mtime <= f.mtime)
  {
    var list := Oldest(d.files);
    var gone := ToRemove(list, d.free, target);
    OldestIsByTime(d.files);
    RemovedAreDeletable(list, d.free, target);
    NoFurtherThanNeeded(list, d.free, target);
    DeletedMembers(d, gone);
    DeleteNothing(d);
    RemovedByTime(list, d.free, target);
    LastIsNewest(gone);
    hide Delete, Oldest, ToRemove, Minus, ByTime;
    forall f, g | f in gone && g in d.files && g.readable && g.removable && g.mtime < f.mtime
      ensures g in gone
    {
      OlderGoFirst(list, d.free, target, f, g);
    }
    if d.free >= target {
      NothingToRemove(list, d.free, target);
    } else if gone != [] {
      assert gone[|gone| - 1] in gone;
    } else {
      assert Bytes(gone) == 0;
    }
  }

  lemma LastIsNewest(gone: seq<Fragment>)
    requires ByTime(gone)
    ensures gone != [] ==> forall g :: g in gone ==> g.mtime <= gone[|gone| - 1].mtime
  {}

  lemma NothingToRemove(list: seq<Fragment>, free: nat, target: nat)
    requires free >= target
    ensures ToRemove(list, free, target) == []
  {}

  // ------------------------------------------------------------------ expiry by days

  /** Kept for longer than one of the days its stream's subscriptions allow. */
  ghost predicate TooOld(f: Fragment, now: int, subs: seq<Subscription>) {
    exists i :: 0 <= i < |subs| && subs[i].stream == f.stream && f.mtime < now - 86400 * subs[i].retentionDays
  }

  /** In a subscribed stream, and unreadable, or too old and not to be removed. */
  ghost predicate InTheWay(f: Fragment, now: int, subs: seq<Subscription>) {
    exists i :: 0 <= i < |subs| && subs[i].stream == f.stream
                && (!f.readable || (!f.removable && f.mtime < now - 86400 * subs[i].retentionDays))
  }

  lemma DaysMean(f: Fragment, now: int, subs: seq<Subscription>)
    ensures Expired(f, now, subs) <==> TooOld(f, now, subs)
    ensures Blocks(f, now, subs) <==> InTheWay(f, now, subs)
  {
    assert forall i :: 0 <= i < |subs| ==> Cutoff(now, subs[i]) == now - 86400 * subs[i].retentionDays;
  }

  /** Exactly the fragments kept too long go, in days; unless one of a subscribed stream is in the way. */
  lemma ExpiryMeans(d: Disk, now: int, subs: seq<Subscription>)
    ensures var r := ExpireAll(d, now, subs);
            && (r.raised <==> exists f :: f in d.files && InTheWay(f, now, subs))
            && (forall f :: f in r.disk.files ==> f in d.files)
            && (forall f :: f in d.files && f !in r.disk.files ==> TooOld(f, now, subs) && f.readable && f.removable)
            && (!r.raised ==> forall f :: f in r.disk.files ==> !TooOld(f, now, subs))
  {
    ExpiryIsExact(d, now, subs);
    forall f
      ensures Expired(f, now, subs) <==> TooOld(f, now, subs)
      ensures Blocks(f, now, subs) <==> InTheWay(f, now, subs)
    {
      DaysMean(f, now, subs);
    }
    hide ExpireAll, Expired, TooOld, Blocks, InTheWay;
  }

  /** One pass that is stopped has removed exactly what expired by path before the first file in its way. */
  lemma {:induction false} PassGoesByPath(files: seq<Fragment>, cutoff: int, f: Fragment)
    requires forall i, j :: 0 <= i < j < |files| ==> files[i].name < files[j].name
    requires f in files
    ensures f in Swept(files, cutoff).removed
       <==> f.readable && f.removable && f.mtime < cutoff
            && forall g :: g in files && g.name < f.name ==> g.readable && (g.mtime < cutoff ==> g.removable)
  {
    var head, rest := files[0], files[1..];
    assert files == [head] + rest;
    FirstByName(files, f);
    if f == head {
      assert f !in rest;
    } else {
      assert f in rest;
      PassGoesByPath(rest, cutoff, f);
      assert head in files && head.name < f.name;
    }
    SweepFacts(rest, cutoff);
  }

  lemma FirstByName(files: seq<Fragment>, f: Fragment)
    requires files != [] && f in files && forall i, j :: 0 <= i < j < |files| ==> files[i].name < files[j].name
    ensures f != files[0] ==> files[0].name < f.name
    ensures f == files[0] ==> f !in files[1..] && forall g :: g in files ==> f.name <= g.name
  {
    var k :| 0 <= k < |files| && files[k] == f;
  }

  /** The list a pass goes through: the stream's files, by path. */
  lemma PassListMeans(files: seq<Fragment>, stream: nat)
    requires forall i, j :: 0 <= i < j < |files| ==> files[i].name != files[j].name
    ensures forall f :: f in Listed(files, stream) <==> f in files && f.stream == stream
    ensures forall i, j :: 0 <= i < j < |Listed(files, stream)| ==> Listed(files, stream)[i].name <= Listed(files, stream)[j].name
  {
    MembersOfListed(files, stream);
    SortedFacts(Filter(files, OfStream(stream)), NameKey);
    hide Sorted, Filter, SameOrderPerKey;
  }

  // ----------------------------------------------------- how far a stopped expiry got

  /** The files' paths are what tells them apart. */
  ghost predicate OwnPaths(files: seq<Fragment>) {
    forall i, j :: 0 <= i < j < |files| ==> files[i].name != files[j].name
  }

  lemma PathsByHead(head: Fragment, rest: seq<Fragment>)
    ensures OwnPaths([head] + rest) <==> OwnPaths(rest) && forall f :: f in rest ==> f.name != head.name
  {
    var all := [head] + rest;
    if OwnPaths(all) {
      forall i, j | 0 <= i < j < |rest|
        ensures rest[i].name != rest[j].name
      {
        assert all[i + 1].name != all[j + 1].name;
      }
      forall i | 0 <= i < |rest|
        ensures rest[i].name != head.name
      {
        assert all[0].name != all[i + 1].name;
      }
    }
    assert forall i :: 1 <= i < |all| ==> all[i] == rest[i - 1];
  }

  lemma {:induction false} FilterKeepsPaths(files: seq<Fragment>, keep: Fragment -> bool)
    requires OwnPaths(files)
    ensures OwnPaths(Filter(files, keep))
  {
    if files == [] {
    } else {
      assert files == [files[0]] + files[1..];
      PathsByHead(files[0], files[1..]);
      FilterKeepsPaths(files[1..], keep);
      FilterFacts(files[1..], keep);
      PathsByHead(files[0], Filter(files[1..], keep));
      assert [] + Filter(files[1..], keep) == Filter(files[1..], keep);
    }
  }

  lemma {:induction false} InsertKeepsPaths(f: Fragment, files: seq<Fragment>)
    requires OwnPaths(files) && forall g :: g in files ==> g.name != f.name
    ensures OwnPaths(Insert(f, files, NameKey)) && forall g :: g in Insert(f, files, NameKey) <==> g == f || g in files
  {
    PathsByHead(f, files);
    if files != [] && f.name > files[0].name {
      assert files == [files[0]] + files[1..];
      PathsByHead(files[0], files[1..]);
      InsertKeepsPaths(f, files[1..]);
      PathsByHead(files[0], Insert(f, files[1..], NameKey));
    }
  }

  lemma {:induction false} SortingKeepsPaths(files: seq<Fragment>)
    requires OwnPaths(files)
    ensures OwnPaths(Sorted(files, NameKey)) && forall g :: g in Sorted(files, NameKey) <==> g in files
  {
    if files == [] {
    } else {
      assert files == [files[0]] + files[1..];
      PathsByHead(files[0], files[1..]);
      SortingKeepsPaths(files[1..]);
      InsertKeepsPaths(files[0], Sorted(files[1..], NameKey));
    }
  }

  lemma ListedByPath(files: seq<Fragment>, stream: nat)
    requires OwnPaths(files)
    ensures var l := Listed(files, stream); forall i, j :: 0 <= i < j < |l| ==> l[i].name < l[j].name
  {
    PassListMeans(files, stream);
    FilterKeepsPaths(files, OfStream(stream));
    SortingKeepsPaths(Filter(files, OfStream(stream)));
    hide Sorted, Filter;
  }

  /** Stops the pass of one subscription. */
  predicate Stops(f: Fragment, now: int, sub: Subscription) {
    f.stream == sub.stream && (!f.readable || (!f.removable && f.mtime < now - 86400 * sub.retentionDays))
  }

  /** The i-th subscription's pass is reached and reaches f, which is too old for it. */
  ghost predicate GoesInPass(f: Fragment, files: seq<Fragment>, now: int, subs: seq<Subscription>, i: int) {
    && 0 <= i < |subs| && f.stream == subs[i].stream && f.readable && f.removable
    && f.mtime < now - 86400 * subs[i].retentionDays
    && (forall j, g :: 0 <= j < i && g in files ==> !Stops(g, now, subs[j]))
    && (forall g :: g in files && g.name < f.name ==> !Stops(g, now, subs[i]))
  }

  lemma FirstPass(files: seq<Fragment>, now: int, sub: Subscription, f: Fragment)
    requires OwnPaths(files) && f in files
    ensures var s := Swept(Listed(files, sub.stream), Cutoff(now, sub));
            && (f in s.removed <==> GoesInPass(f, files, now, [sub], 0))
            && (s.stuck <==> exists g :: g in files && Stops(g, now, sub))
  {
    var list, cutoff := Listed(files, sub.stream), Cutoff(now, sub);
    ListedByPath(files, sub.stream);
    PassListMeans(files, sub.stream);
    SweepFacts(list, cutoff);
    if f in list {
      PassGoesByPath(list, cutoff, f);
    }
    hide Swept, Listed;
    assert forall g :: g in files ==> (Stops(g, now, sub) <==> g in list && BlocksSweep(g, cutoff));
  }

  /**
    Which fragments go, however the expiry ended: those too old for a subscription
    whose pass was reached and reached them, that is, with nothing in the way in an
    earlier pass, nor at an earlier path in their own.
   */
  lemma {:induction false} ExpiryGoesInOrder(d: Disk, now: int, subs: seq<Subscription>, f: Fragment)
    requires OwnPaths(d.files) && f in d.files
    ensures f !in ExpireAll(d, now, subs).disk.files <==> exists i :: GoesInPass(f, d.files, now, subs, i)
    decreases |subs|
  {
    if subs == [] {
    } else {
      var s := Swept(Listed(d.files, subs[0].stream), Cutoff(now, subs[0]));
      var d' := Delete(d, s.removed);
      FirstPass(d.files, now, subs[0], f);
      DeletedMembers(d, s.removed);
      FilterKeepsPaths(d.files, NotIn(SetOf(s.removed)));
      forall g | g in d.files && g !in d'.files
        ensures g.readable && g.removable
      {
        FirstPass(d.files, now, subs[0], g);
      }
      hide Swept, Listed, Cutoff, Delete, OwnPaths;
      assert GoesInPass(f, d.files, now, [subs[0]], 0) <==> GoesInPass(f, d.files, now, subs, 0);
      if !s.stuck {
        if f in d'.files {
          ExpiryGoesInOrder(d', now, subs[1..], f);
        } else {
          StaysGone(d', now, subs[1..], f);
        }
        LaterPasses(f, d.files, d'.files, now, subs);
      }
    }
  }

  lemma StaysGone(d: Disk, now: int, subs: seq<Subscription>, f: Fragment)
    requires f !in d.files
    ensures f !in ExpireAll(d, now, subs).disk.files
  {
    ExpiryIsExact(d, now, subs);
  }

  /** What the first pass removed stood in nobody's way. */
  lemma LaterPasses(f: Fragment, files: seq<Fragment>, left: seq<Fragment>, now: int, subs: seq<Subscription>)
    requires subs != [] && forall g :: g in files ==> !Stops(g, now, subs[0])
    requires forall g :: g in left ==> g in files
    requires forall g :: g in files && g !in left ==> g.readable && g.removable
    ensures (exists i :: GoesInPass(f, files, now, subs, i))
       <==> GoesInPass(f, files, now, subs, 0) || exists i :: GoesInPass(f, left, now, subs[1..], i)
  {
    forall i
      ensures i >= 1 ==> (GoesInPass(f, files, now, subs, i) <==> GoesInPass(f, left, now, subs[1..], i - 1))
    {
      if i >= 1 {
        LaterPass(f, files, left, now, subs, i);
      }
    }
    if i :| GoesInPass(f, left, now, subs[1..], i) {
      assert GoesInPass(f, left, now, subs[1..], (i + 1) - 1);
      assert GoesInPass(f, files, now, subs, i + 1);
    }
    if i :| GoesInPass(f, files, now, subs, i) {
      assert i >= 1 ==> GoesInPass(f, left, now, subs[1..], i - 1);
    }
  }

  lemma LaterPass(f: Fragment, files: seq<Fragment>, left: seq<Fragment>, now: int, subs: seq<Subscription>, i: int)
    requires i >= 1 && subs != [] && forall g :: g in files ==> !Stops(g, now, subs[0])
    requires forall g :: g in left ==> g in files
    requires forall g :: g in files && g !in left ==> g.readable && g.removable
    ensures GoesInPass(f, files, now, subs, i) <==> GoesInPass(f, left, now, subs[1..], i - 1)
  {
    assert forall j :: 0 <= j < |subs| - 1 ==> subs[1..][j] == subs[j + 1];
    assert forall g, sub :: g in files && Stops(g, now, sub) ==> g in left;
    hide Stops;
    if GoesInPass(f, left, now, subs[1..], i - 1) {
      forall j, g | 0 <= j < i && g in files
        ensures !Stops(g, now, subs[j])
      {
        if j > 0 && g in left {
          assert !Stops(g, now, subs[1..][j - 1]);
        }
      }
    }
  }

  // -------------------------------------------------------------------- the whole job

  /**
    With auto-prune on, every file readable and nothing in the way of the expiry,
    a disk that is then less than 5% free ends up at least 10% free, or with
    nothing left to delete; and whatever went that was not too old was, of the
    deletable files, among the oldest.
   */
  lemma FullDiskIsPruned(d: Disk, now: int, subs: seq<Subscription>)
    requires forall f :: f in d.files ==> f.readable && !InTheWay(f, now, subs)
    ensures var e, r := ExpireAll(d, now, subs).disk, Job(d, now, subs, true);
            && !r.raised
            && (e.total > 20 * e.free ==> r.disk.free >= e.total / 10 || forall f :: f in r.disk.files ==> !f.removable)
            && (e.total <= 20 * e.free ==> r.disk == e)
            && (forall f, g :: f in e.files && f !in r.disk.files && g in e.files && g.removable && g.mtime < f.mtime ==> g !in r.disk.files)
  {
    ExpiryMeans(d, now, subs);
    var e := ExpireAll(d, now, subs).disk;
    PruningMeans(e, Target(e.total));
    hide ExpireAll, PruneUntilFree, InTheWay, TooOld;
  }

  /** With auto-prune off, or enough space, the job is the expiry. */
  lemma OnlyExpiryOtherwise(d: Disk, now: int, subs: seq<Subscription>, autoPrune: bool)
    requires !autoPrune || ExpireAll(d, now, subs).disk.total <= 20 * ExpireAll(d, now, subs).disk.free
    ensures Job(d, now, subs, autoPrune) == ExpireAll(d, now, subs)
  {
    hide ExpireAll;
  }
}
