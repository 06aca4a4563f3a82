/**
  The buffer manager and the retention job in their own form: loops that delete
  one file after the other and keep running totals.
 */
module Pruning {
  import opened Wrappers
  import opened PruningSpec

  class BufferManager {
    var files: seq<Fragment>
    var free: nat
    const total: nat

    ghost function Contents(): Disk
      reads this
    {
      Disk(files, free, total)
    }

    constructor (files: seq<Fragment>, free: nat, total: nat)
      ensures Contents() == Disk(files, free, total)
    {
      this.files, this.free, this.total := files, free, total;
    }

    /** unlink() of a file that can be removed; its bytes become free. */
    method Unlink(f: Fragment, ghost before: Disk, ghost gone: seq<Fragment>)
      requires IsDeletable(f) && Contents() == Delete(before, gone)
      modifies this`files, this`free
      ensures Contents() == Delete(before, gone + [f]) && free == old(free) + f.size
      ensures Bytes(gone + [f]) == Bytes(gone) + f.size
    {
      hide Minus, Bytes;
      DeleteMore(before, gone, f);
      files := Minus(files, {f});
      free := free + f.size;
    }

    /** The bytes freed; None if a file could not be removed, which is not caught here. */
    method PruneOlderThan(stream: nat, cutoff: int) returns (freed: Option<nat>)
      modifies this`files, this`free
      ensures var s := Swept(Listed(old(files), stream), cutoff);
              && Contents() == Delete(old(Contents()), s.removed)
              && freed == if s.stuck then None else Some(Bytes(s.removed))
    {
      hide *;
      var list := Listed(files, stream);
      ghost var gone: seq<Fragment> := [];
      DeleteNothing(Contents());
      StartOfSweep(list, cutoff);
      var sum := 0;
      var i := 0;
      while i < |list|
        invariant i <= |list|
        invariant Contents() == Delete(old(Contents()), gone) && sum == Bytes(gone)
        invariant Swept(list, cutoff) == Rest(gone, Swept(list[i..], cutoff))
      {
        SweepGoesOn(list, cutoff, i, gone);
        if !list[i].readable {
          return None;
        }
        if list[i].mtime < cutoff {
          if !list[i].removable {
            return None;
          }
          Unlink(list[i], old(Contents()), gone);
          sum := sum + list[i].size;
          gone := gone + [list[i]];
        }
        i := i + 1;
      }
      EndOfSweep(list, cutoff, gone);
      return Some(sum);
    }

    /**
      The bytes freed; None if a file could not be read while listing, which is
      not caught here.  `measurable`: the disk usage can be read.
     */
    method PruneOldestUntilFree(target: nat, measurable: bool) returns (freed: Option<nat>)
      modifies this`files, this`free
      ensures !measurable ==> Contents() == old(Contents()) && freed == Some(0)
      ensures measurable ==>
                && Outcome(Contents(), freed.None?) == PruneUntilFree(old(Contents()), target)
                && (freed.Some? ==> freed.value == Bytes(ToRemove(Oldest(old(files)), old(free), target))
                                    && free == old(free) + freed.value)
    {
      if !measurable || free >= target {
        NothingToPrune(Contents(), target);
        return Some(0);
      }
      if !AllReadable(files) {
        return None;
      }
      hide ToRemove, Delete, Oldest, Bytes;
      var sum := RemoveInOrder(Oldest(files), target);
      return Some(sum);
    }

    /** The loop: one file after the other until enough is free; what cannot be removed is passed over. */
    method RemoveInOrder(list: seq<Fragment>, target: nat) returns (sum: nat)
      modifies this`files, this`free
      ensures var gone := ToRemove(list, old(free), target);
              && Contents() == Delete(old(Contents()), gone) && sum == Bytes(gone) && free == old(free) + sum
    {
      hide *;
      ghost var gone: seq<Fragment> := [];
      DeleteNothing(Contents());
      StartOfRemoval(list, free, target);
      var avail := free;
      sum := 0;
      var i := 0;
      while i < |list| && avail < target
        invariant i <= |list|
        invariant Contents() == Delete(old(Contents()), gone) && sum == Bytes(gone)
        invariant avail == free == old(free) + sum
        invariant ToRemove(list, old(free), target) == gone + ToRemove(list[i..], avail, target)
      {
        RemovalGoesOn(list, avail, target, i, gone);
        if IsDeletable(list[i]) {
          Unlink(list[i], old(Contents()), gone);
          sum := sum + list[i].size;
          avail := avail + list[i].size;
          gone := gone + [list[i]];
        }
        i := i + 1;
      }
      EndOfRemoval(list[i..], avail, target, gone);
    }

    /** One run of the job; a raised exception ends it. */
    method Prune(now: int, subs: seq<Subscription>, autoPrune: bool, measurable: bool) returns (raised: bool)
      modifies this`files, this`free
      ensures Outcome(Contents(), raised) == Job(old(Contents()), now, subs, autoPrune && measurable)
    {
      hide Swept, Listed, Delete, ToRemove, Oldest;
      assert subs[0..] == subs;
      var i := 0;
      while i < |subs|
        invariant i <= |subs|
        invariant ExpireAll(old(Contents()), now, subs) == ExpireAll(Contents(), now, subs[i..])
      {
        assert subs[i..][0] == subs[i] && subs[i..][1..] == subs[i + 1..];
        var freed := PruneOlderThan(subs[i].stream, Cutoff(now, subs[i]));
        if freed.None? {
          return true;
        }
        i := i + 1;
      }
      if autoPrune && measurable && CriticallyFull(free, total) {
        var freed := PruneOldestUntilFree(Target(total), measurable);
        return freed.None?;
      }
      return false;
    }
  }

  lemma NothingToPrune(d: Disk, target: nat)
    ensures d.free >= target ==> PruneUntilFree(d, target) == Outcome(d, false) && Bytes(ToRemove(Oldest(d.files), d.free, target)) == 0
  {
    DeleteNothing(d);
  }

  lemma DeleteMore(d: Disk, gone: seq<Fragment>, f: Fragment)
    ensures Disk(Minus(Delete(d, gone).files, {f}), Delete(d, gone).free + f.size, d.total) == Delete(d, gone + [f])
    ensures Bytes(gone + [f]) == Bytes(gone) + f.size
  {
    hide Minus;
    MinusTwice(d.files, SetOf(gone), {f});
    assert SetOf(gone + [f]) == SetOf(gone) + {f};
    BytesConcat(gone, [f]);
    assert Bytes([f]) == f.size;
  }

  /** What a pass comes to, given what it has removed and what the rest of it will. */
  ghost function Rest(gone: seq<Fragment>, s: Sweep): Sweep {
    Sweep(gone + s.removed, s.stuck)
  }

  lemma StartOfSweep(list: seq<Fragment>, cutoff: int)
    ensures Swept(list, cutoff) == Rest([], Swept(list[0..], cutoff)) && Bytes([]) == 0
  {
    assert list[0..] == list;
    assert [] + Swept(list, cutoff).removed == Swept(list, cutoff).removed;
  }

  lemma SweepGoesOn(list: seq<Fragment>, cutoff: int, i: nat, gone: seq<Fragment>)
    requires i < |list|
    ensures var f, rest := list[i], Swept(list[i + 1..], cutoff);
            Rest(gone, Swept(list[i..], cutoff)) == if !f.readable then Sweep(gone, true)
              else if f.mtime >= cutoff then Rest(gone, rest)
              else if f.removable then Rest(gone + [f], rest) else Sweep(gone, true)
    ensures IsDeletable(list[i]) <==> list[i].readable && list[i].removable
  {
    assert list[i..][1..] == list[i + 1..];
    var f, rest := list[i], Swept(list[i + 1..], cutoff);
    assert gone + ([f] + rest.removed) == gone + [f] + rest.removed;
  }

  lemma EndOfSweep(list: seq<Fragment>, cutoff: int, gone: seq<Fragment>)
    ensures Rest(gone, Swept(list[|list|..], cutoff)) == Sweep(gone, false)
  {}

  lemma StartOfRemoval(list: seq<Fragment>, free: nat, target: nat)
    ensures ToRemove(list, free, target) == [] + ToRemove(list[0..], free, target) && Bytes([]) == 0
  {
    assert list[0..] == list;
  }

  lemma RemovalGoesOn(list: seq<Fragment>, free: nat, target: nat, i: nat, gone: seq<Fragment>)
    requires i < |list| && free < target
    ensures var f := list[i];
            gone + ToRemove(list[i..], free, target)
              == if IsDeletable(f) then gone + [f] + ToRemove(list[i + 1..], free + f.size, target)
                 else gone + ToRemove(list[i + 1..], free, target)
  {
    assert list[i..][1..] == list[i + 1..];
    var rest := ToRemove(list[i + 1..], free + list[i].size, target);
    assert gone + ([list[i]] + rest) == gone + [list[i]] + rest;
  }

  lemma EndOfRemoval(rest: seq<Fragment>, free: nat, target: nat, gone: seq<Fragment>)
    requires rest == [] || free >= target
    ensures gone + ToRemove(rest, free, target) == gone
  {}
}
