/**
  Browsing a channel's cached backlog: title filter, sort and page, all over the
  whole cached list, and what a browser that collects the pages ends up with.
 */
module BacklogBrowse {
  import opened Wrappers
  import opened BacklogRefreshSpec
  import opened StableSort

  datatype SortMode = Newest | Longest | Oldest | MostViewed | MostLiked

  // ----------------------------------------------------------------- sort keys

  /** Characters as digits, so that equally long strings compare as numbers. */
  function Rank(s: string): nat {
    if s == "" then 0 else Rank(s[..|s| - 1]) * 0x110000 + s[|s| - 1] as int
  }

  /** Dates are ISO dates, all of one length; a missing one compares as the empty string. */
  function OldestKey(it: Item): int {
    match it.upload.uploadDate
    case Some(date) => if date == "" then -1 else Rank(date)
    case None => -1
  }

  function LongestKey(it: Item): int {
    -(if it.upload.durationS.Some? then it.upload.durationS.value else 0)
  }

  function CountKey(count: Option<int>): int {
    -(if count.Some? then count.value else -1)
  }

  function ViewsKey(it: Item): int {
    CountKey(it.viewCount)
  }

  function LikesKey(it: Item): int {
    CountKey(it.likeCount)
  }

  /** The list arrives newest first. */
  function SortedBy(items: seq<Item>, mode: SortMode): seq<Item> {
    match mode
    case Newest => items
    case Oldest => Sorted(items, OldestKey)
    case Longest => Sorted(items, LongestKey)
    case MostViewed => Sorted(items, ViewsKey)
    case MostLiked => Sorted(items, LikesKey)
  }

  predicate LexicallyBelow(a: string, b: string)
    requires |a| == |b|
  {
    exists k :: 0 <= k < |a| && a[..k] == b[..k] && a[k] < b[k]
  }

  lemma LexicalByLast(a: string, b: string)
    requires |a| == |b| > 0
    ensures var n := |a| - 1;
            LexicallyBelow(a, b) <==> LexicallyBelow(a[..n], b[..n]) || (a[..n] == b[..n] && a[n] < b[n])
  {
    var n := |a| - 1;
    if k :| 0 <= k < n && a[..n][..k] == b[..n][..k] && a[..n][k] < b[..n][k] {
      assert a[..k] == a[..n][..k] && b[..k] == b[..n][..k];
    }
    if k :| 0 <= k < |a| && a[..k] == b[..k] && a[k] < b[k] {
      if k < n {
        assert a[..k] == a[..n][..k] && b[..k] == b[..n][..k] && a[..n][k] < b[..n][k];
      }
    }
  }

  lemma DigitsCompare(x: nat, c: nat, y: nat, d: nat)
    requires c < 0x110000 && d < 0x110000
    ensures x * 0x110000 + c < y * 0x110000 + d <==> x < y || (x == y && c < d)
    ensures x * 0x110000 + c == y * 0x110000 + d <==> x == y && c == d
  {}

  /** Comparing ranks is comparing strings of one length. */
  lemma {:induction false} RankIsLexical(a: string, b: string)
    requires |a| == |b|
    ensures Rank(a) < Rank(b) <==> LexicallyBelow(a, b)
    ensures Rank(a) == Rank(b) <==> a == b
  {
    hide LexicallyBelow;
    if a == "" {
      NothingBelow();
    } else {
      var n := |a| - 1;
      RankIsLexical(a[..n], b[..n]);
      LexicalByLast(a, b);
      DigitsCompare(Rank(a[..n]), a[n] as int, Rank(b[..n]), b[n] as int);
      assert a == a[..n] + [a[n]] && b == b[..n] + [b[n]];
    }
  }

  lemma NothingBelow()
    ensures !LexicallyBelow("", "")
  {}

  /** By views and by likes the higher count comes first; what has no count ranks as -1. */
  lemma SortsByCount(items: seq<Item>)
    ensures var r := SortedBy(items, MostViewed);
            forall i, j :: 0 <= i < j < |r| && r[j].viewCount.Some? ==>
              if r[i].viewCount.Some? then r[i].viewCount.value >= r[j].viewCount.value else r[j].viewCount.value < 0
    ensures var r := SortedBy(items, MostViewed);
            forall i, j :: 0 <= i < j < |r| && r[i].viewCount.Some? && r[j].viewCount.None? ==> r[i].viewCount.value >= -1
    ensures var r := SortedBy(items, MostLiked);
            forall i, j :: 0 <= i < j < |r| && r[j].likeCount.Some? ==>
              if r[i].likeCount.Some? then r[i].likeCount.value >= r[j].likeCount.value else r[j].likeCount.value < 0
    ensures var r := SortedBy(items, MostLiked);
            forall i, j :: 0 <= i < j < |r| && r[i].likeCount.Some? && r[j].likeCount.None? ==> r[i].likeCount.value >= -1
  {
    SortedFacts(items, ViewsKey);
    SortedFacts(items, LikesKey);
    hide Sorted, SameOrderPerKey;
  }

  /** The oldest date first and undated items before all; the longest first, and unknown durations among those of 0. */
  lemma SortsByDateAndDuration(items: seq<Item>)
    ensures var r := SortedBy(items, Oldest);
            forall i, j :: 0 <= i < j < |r| && r[j].upload.uploadDate.None? ==>
              r[i].upload.uploadDate.None? || r[i].upload.uploadDate.value == ""
    ensures var r := SortedBy(items, Oldest);
            forall i, j :: 0 <= i < j < |r| && r[i].upload.uploadDate.Some? && r[j].upload.uploadDate.Some? ==>
              var a, b := r[i].upload.uploadDate.value, r[j].upload.uploadDate.value;
              |a| == |b| ==> a == b || exists k :: 0 <= k < |a| && a[..k] == b[..k] && a[k] < b[k]
    ensures var r := SortedBy(items, Longest);
            forall i, j :: 0 <= i < j < |r| && r[j].upload.durationS.Some? ==>
              if r[i].upload.durationS.Some? then r[i].upload.durationS.value >= r[j].upload.durationS.value
              else 0 >= r[j].upload.durationS.value
    ensures var r := SortedBy(items, Longest);
            forall i, j :: 0 <= i < j < |r| && r[i].upload.durationS.Some? && r[j].upload.durationS.None? ==>
              r[i].upload.durationS.value >= 0
  {
    SortedFacts(items, OldestKey);
    SortedFacts(items, LongestKey);
    var r := Sorted(items, OldestKey);
    hide Sorted, SameOrderPerKey, Rank;
    forall i, j | 0 <= i < j < |r| && r[i].upload.uploadDate.Some? && r[j].upload.uploadDate.Some?
                  && |r[i].upload.uploadDate.value| == |r[j].upload.uploadDate.value|
      ensures var a, b := r[i].upload.uploadDate.value, r[j].upload.uploadDate.value;
              a == b || exists k :: 0 <= k < |a| && a[..k] == b[..k] && a[k] < b[k]
    {
      RankIsLexical(r[i].upload.uploadDate.value, r[j].upload.uploadDate.value);
    }
  }

  function WithViews(n: Option<int>): Item -> bool {
    (it: Item) => it.viewCount == n
  }

  function WithLikes(n: Option<int>): Item -> bool {
    (it: Item) => it.likeCount == n
  }

  function OfDuration(n: Option<int>): Item -> bool {
    (it: Item) => it.upload.durationS == n
  }

  function OfDate(date: Option<string>): Item -> bool {
    (it: Item) => it.upload.uploadDate == date
  }

  /** Items that a mode does not tell apart stay in the cached order; the newest-first mode keeps all of it. */
  lemma TiesKeepTheCachedOrder(items: seq<Item>, n: Option<int>, date: Option<string>)
    ensures SortedBy(items, Newest) == items
    ensures Filter(SortedBy(items, MostViewed), WithViews(n)) == Filter(items, WithViews(n))
    ensures Filter(SortedBy(items, MostLiked), WithLikes(n)) == Filter(items, WithLikes(n))
    ensures Filter(SortedBy(items, Longest), OfDuration(n)) == Filter(items, OfDuration(n))
    ensures Filter(SortedBy(items, Oldest), OfDate(date)) == Filter(items, OfDate(date))
  {
    EqualKeysStay(items, WithViews(n), ViewsKey);
    EqualKeysStay(items, WithLikes(n), LikesKey);
    EqualKeysStay(items, OfDuration(n), LongestKey);
    EqualKeysStay(items, OfDate(date), OldestKey);
  }

  lemma EqualKeysStay(items: seq<Item>, keep: Item -> bool, key: Item -> int)
    requires forall a, b :: keep(a) && keep(b) ==> key(a) == key(b)
    ensures Filter(Sorted(items, key), keep) == Filter(items, keep)
  {
    SortedCommutesWithFilter(items, keep, key);
    FilterFacts(items, keep);
    OneKeyIsSorted(Filter(items, keep), key);
  }

  lemma {:induction false} OneKeyIsSorted(xs: seq<Item>, key: Item -> int)
    requires forall i, j :: 0 <= i < |xs| && 0 <= j < |xs| ==> key(xs[i]) == key(xs[j])
    ensures Sorted(xs, key) == xs
  {
    if xs == [] {
    } else {
      OneKeyIsSorted(xs[1..], key);
      assert xs[1..] != [] ==> xs[1..][0] == xs[1];
      assert xs == [xs[0]] + xs[1..];
    }
  }

  function KeyOf(mode: SortMode): Item -> int {
    match mode
    case Newest => KeepOrder
    case Oldest => OldestKey
    case Longest => LongestKey
    case MostViewed => ViewsKey
    case MostLiked => LikesKey
  }

  function KeepOrder(it: Item): int {
    0
  }

  /** Ties keep the cached order, in every mode; so each mode has one possible outcome. */
  lemma SortsAreStable(items: seq<Item>, mode: SortMode, other: seq<Item>)
    ensures var r := SortedBy(items, mode);
            multiset(r) == multiset(items) && Ascending(r, KeyOf(mode)) && SameOrderPerKey(items, r, KeyOf(mode))
    ensures Ascending(other, KeyOf(mode)) && SameOrderPerKey(items, other, KeyOf(mode)) ==> other == SortedBy(items, mode)
  {
    SortedFacts(items, KeyOf(mode));
    var r := SortedBy(items, mode);
    assert Ascending(items, KeepOrder);
    if Ascending(other, KeyOf(mode)) && SameOrderPerKey(items, other, KeyOf(mode)) {
      forall k
        ensures Having(r, KeyOf(mode), k) == Having(other, KeyOf(mode), k)
      {
        assert Having(items, KeyOf(mode), k) == Having(other, KeyOf(mode), k);
        assert Having(items, KeyOf(mode), k) == Having(r, KeyOf(mode), k);
      }
      StableOrderIsUnique(r, other, KeyOf(mode));
    }
  }

  // ------------------------------------------------------------ filter and pages

  predicate Contains(s: string, part: string) {
    exists i :: 0 <= i <= |s| && part <= s[i..]
  }

  /** The case-insensitive substring test; an empty query keeps everything. */
  function TitleMatch(q: string, lower: string -> string): Item -> bool {
    (it: Item) => q == "" || Contains(lower(it.upload.title), lower(q))
  }

  function Matching(items: seq<Item>, q: string, lower: string -> string): seq<Item> {
    Filter(items, TitleMatch(q, lower))
  }

  /**
    With a query, exactly the items whose lower-cased title has the lower-cased
    query in it, wherever that is; without one, all of them.
   */
  lemma MatchingMeans(items: seq<Item>, q: string, lower: string -> string, it: Item)
    ensures it in Matching(items, q, lower) <==>
              it in items && (q == "" || exists before, after :: lower(it.upload.title) == before + lower(q) + after)
  {
    FilterFacts(items, TitleMatch(q, lower));
    var title, part := lower(it.upload.title), lower(q);
    if before, after :| title == before + part + after {
      assert title[|before|..] == part + after;
    }
    if i :| 0 <= i <= |title| && part <= title[i..] {
      assert title == title[..i] + part + title[i..][|part|..];
    }
  }

  /** items[offset : offset + limit] */
  function Page<T>(xs: seq<T>, offset: nat, limit: nat): seq<T> {
    if offset >= |xs| then [] else if offset + limit >= |xs| then xs[offset..] else xs[offset..offset + limit]
  }

  /** One answer of GET /backlog. */
  function Browsed(items: seq<Item>, q: string, lower: string -> string, mode: SortMode, offset: nat, limit: nat): seq<Item> {
    Page(SortedBy(Matching(items, q, lower), mode), offset, limit)
  }

  /** The first n answers at offsets 0, limit, 2 * limit and so on, one after the other. */
  function Collected(items: seq<Item>, q: string, lower: string -> string, mode: SortMode, limit: nat, n: nat): seq<Item> {
    if n == 0 then [] else
      Collected(items, q, lower, mode, limit, n - 1) + Browsed(items, q, lower, mode, (n - 1) * limit, limit)
  }

  function UpTo<T>(xs: seq<T>, n: nat): seq<T> {
    if n <= |xs| then xs[..n] else xs
  }

  lemma PageExtends<T>(xs: seq<T>, n: nat, limit: nat)
    ensures UpTo(xs, n) + Page(xs, n, limit) == UpTo(xs, n + limit)
  {}

  /** n pages are the first n * limit items of the sorted, filtered list. */
  lemma {:induction false} PagesAreAPrefix(items: seq<Item>, q: string, lower: string -> string, mode: SortMode, limit: nat, n: nat)
    ensures Collected(items, q, lower, mode, limit, n) == UpTo(SortedBy(Matching(items, q, lower), mode), n * limit)
  {
    hide SortedBy, Matching, UpTo, Page;
    var all := SortedBy(Matching(items, q, lower), mode);
    if n == 0 {
      NoPages(all);
      assert 0 * limit == 0;
    } else {
      PagesAreAPrefix(items, q, lower, mode, limit, n - 1);
      assert n * limit == (n - 1) * limit + limit;
      PageExtends(all, (n - 1) * limit, limit);
    }
  }

  lemma NoPages<T>(xs: seq<T>)
    ensures UpTo(xs, 0) == []
  {}

  /** A page is empty exactly when the pages before it already hold everything. */
  lemma EmptyPageIsTheEnd(items: seq<Item>, q: string, lower: string -> string, mode: SortMode, limit: nat, n: nat)
    requires limit >= 1
    ensures Browsed(items, q, lower, mode, n * limit, limit) == []
       <==> Collected(items, q, lower, mode, limit, n) == SortedBy(Matching(items, q, lower), mode)
  {
    PagesAreAPrefix(items, q, lower, mode, limit, n);
    hide SortedBy, Matching, Collected;
  }

  lemma {:induction false} NoQueryKeepsAll(items: seq<Item>, lower: string -> string)
    ensures Matching(items, "", lower) == items
  {
    if items == [] {
    } else {
      NoQueryKeepsAll(items[1..], lower);
      assert items == [items[0]] + items[1..];
    }
  }

  lemma FilterThenSort(items: seq<Item>, keep: Item -> bool, mode: SortMode)
    ensures SortedBy(Filter(items, keep), mode) == Filter(SortedBy(items, mode), keep)
  {
    if mode != Newest {
      SortedCommutesWithFilter(items, keep, KeyOf(mode));
    }
  }

  /**
    All pages together are the filtered list, each item exactly once; and it makes
    no difference whether the server filters before it sorts and pages, or the
    browser filters the pages it has collected.
   */
  lemma PagesReassemble(items: seq<Item>, q: string, lower: string -> string, mode: SortMode, limit: nat, n: nat, m: nat)
    requires n * limit >= |items| && m * limit >= |items|
    ensures multiset(Collected(items, q, lower, mode, limit, n)) == multiset(Matching(items, q, lower))
    ensures Matching(Collected(items, "", lower, mode, limit, m), q, lower) == Collected(items, q, lower, mode, limit, n)
  {
    PagesAreAPrefix(items, q, lower, mode, limit, n);
    PagesAreAPrefix(items, "", lower, mode, limit, m);
    NoQueryKeepsAll(items, lower);
    FilterThenSort(items, TitleMatch(q, lower), mode);
    SortsAreStable(Matching(items, q, lower), mode, []);
    SortsAreStable(items, mode, []);
    FilterIsShorter(items, TitleMatch(q, lower));
    hide SortedBy, Collected, Filter, SameOrderPerKey, TitleMatch;
    SameSize(SortedBy(items, mode), items);
    SameSize(SortedBy(Matching(items, q, lower), mode), Matching(items, q, lower));
    WholeList(SortedBy(items, mode), m * limit);
    WholeList(SortedBy(Matching(items, q, lower), mode), n * limit);
  }

  lemma WholeList<T>(xs: seq<T>, n: nat)
    requires n >= |xs|
    ensures UpTo(xs, n) == xs
  {}

  lemma SameSize(a: seq<Item>, b: seq<Item>)
    requires multiset(a) == multiset(b)
    ensures |a| == |b|
  {
    assert |multiset(a)| == |a| && |multiset(b)| == |b|;
  }

  lemma {:induction false} FilterIsShorter(items: seq<Item>, keep: Item -> bool)
    ensures |Filter(items, keep)| <= |items|
  {
    if items == [] {
    } else {
      FilterIsShorter(items[1..], keep);
    }
  }
}
