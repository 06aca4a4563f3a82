/**
  Finding a setlist in a description or in the comments.
 */
module SetlistDetector {
  import opened Wrappers
  import opened Decimals
  import opened SetlistText
  import opened SetlistStamps
  import opened SetlistRoundTrip
  import opened StableSort

  const MAX_CANDIDATES := 20
  const RAW_TEXT_LIMIT := 2000

  datatype SetlistEntry = SetlistEntry(start: nat, title: string)
  datatype Detected = Detected(entries: seq<SetlistEntry>, rawText: string)
  datatype Comment = Comment(pinned: bool, likes: Option<int>, text: string)

  // ------------------------------------------------------------------ one line

  function TsToSeconds(h: nat, m: nat, s: Option<nat>): Option<nat> {
    var ss := if s.Some? then s.value else 0;
    if m >= 60 || ss >= 60 then None
    else if s.None? then Some(h * 60 + m)
    else Some(h * 3600 + m * 60 + ss)
  }

  /** A time is accepted exactly when its sixtieths are below 60, and then it can be read off the result. */
  lemma TimesAreReadable(h: nat, m: nat, s: Option<nat>)
    ensures TsToSeconds(h, m, s).Some? <==> m < 60 && (s.Some? ==> s.value < 60)
    ensures var t := TsToSeconds(h, m, s);
            t.Some? ==> if s.None? then t.value / 60 == h && t.value % 60 == m
                        else t.value / 3600 == h && t.value % 3600 / 60 == m && t.value % 60 == s.value
  {
    if s.Some? && m < 60 && s.value < 60 {
      var rest := m * 60 + s.value;
      assert (h * 3600 + rest) / 3600 == h && (h * 3600 + rest) % 3600 == rest;
      assert (h * 3600 + rest) % 60 == s.value;
    }
  }

  /** rstrip(",.") */
  function DropTrailingMarks(s: string): string {
    if s != "" && s[|s| - 1] in ",." then DropTrailingMarks(s[..|s| - 1]) else s
  }

  function CleanTitle(s: string): string {
    Strip(DropTrailingMarks(Strip(s)))
  }

  function NumberOf(digits: string): nat
    requires AllDigits(digits)
  {
    NumbersAreNatural(digits);
    Number(digits)
  }

  function EntryOf(line: string): Option<SetlistEntry> {
    var m := MatchStamp(line);
    if m.None? then None else
      HeadIsSound(line);
      var head := m.value.0;
      var secs := TsToSeconds(NumberOf(head.h), NumberOf(head.m), if head.sec == "" then None else Some(NumberOf(head.sec)));
      var title := CleanTitle(m.value.1.title);
      if secs.None? || title == "" then None else Some(SetlistEntry(secs.value, title))
  }

  function EntriesOf(lines: seq<string>): seq<SetlistEntry> {
    if lines == [] then [] else
      var e := EntryOf(lines[|lines| - 1]);
      EntriesOf(lines[..|lines| - 1]) + if e.Some? then [e.value] else []
  }

  method ExtractEntries(text: string) returns (entries: seq<SetlistEntry>)
    ensures entries == EntriesOf(SplitLines(text))
  {
    hide EntryOf, SplitLines;
    var lines := SplitLines(text);
    entries := [];
    var i := 0;
    while i < |lines|
      invariant i <= |lines| && entries == EntriesOf(lines[..i])
    {
      assert lines[..i + 1][..i] == lines[..i];
      var e := EntryOf(lines[i]);
      if e.Some? {
        entries := entries + [e.value];
      }
      i := i + 1;
    }
    assert lines[..i] == lines;
  }

  // -------------------------------------------------------- the longest run in order

  predicate InOrder(entries: seq<SetlistEntry>) {
    forall i :: 0 <= i < |entries| - 1 ==> entries[i].start <= entries[i + 1].start
  }

  predicate IsRun(entries: seq<SetlistEntry>, lo: int, hi: int) {
    0 <= lo <= hi <= |entries| && InOrder(entries[lo..hi])
  }

  /** entries[lo..hi] is in order; no other such slice is longer, and none as long starts earlier. */
  ghost predicate IsLongestRun(entries: seq<SetlistEntry>, lo: nat, hi: nat) {
    && IsRun(entries, lo, hi)
    && forall a, b :: a <= b && IsRun(entries, a, b) ==>
         b - a < hi - lo || (b - a == hi - lo && (lo <= a || a == b))
  }

  /** What the loop knows of a prefix: the best run but for the one it is in. */
  ghost predicate BestBefore(entries: seq<SetlistEntry>, lo: nat, hi: nat, from: nat) {
    && hi <= from && IsRun(entries, lo, hi)
    && forall a, b :: a < b <= from && IsRun(entries, a, b) ==>
         b - a < hi - lo || (b - a == hi - lo && lo <= a)
  }

  /** A run is a stretch without a descent. */
  lemma RunMeans(entries: seq<SetlistEntry>, lo: nat, hi: nat)
    requires lo <= hi <= |entries|
    ensures IsRun(entries, lo, hi) <==> forall i :: lo <= i < hi - 1 ==> entries[i].start <= entries[i + 1].start
  {
    var s := entries[lo..hi];
    assert forall i :: 0 <= i < |s| ==> s[i] == entries[lo + i];
    if InOrder(s) {
      forall i | lo <= i < hi - 1
        ensures entries[i].start <= entries[i + 1].start
      {
        assert s[i - lo].start <= s[i - lo + 1].start;
      }
    }
  }

  predicate IsSlice(entries: seq<SetlistEntry>, s: seq<SetlistEntry>, lo: nat) {
    lo + |s| <= |entries| && s == entries[lo..lo + |s|]
  }

  ghost predicate IsLongestBlock(entries: seq<SetlistEntry>, block: seq<SetlistEntry>, lo: nat) {
    IsSlice(entries, block, lo) && IsLongestRun(entries, lo, lo + |block|)
  }

  method LongestContiguousBlock(entries: seq<SetlistEntry>) returns (block: seq<SetlistEntry>, lo: nat)
    ensures IsLongestBlock(entries, block, lo)
  {
    hide *;
    if entries == [] {
      NoEntriesNoRun();
      return [], 0;
    }
    var best := [];
    lo := 0;
    var current, from := [entries[0]], 0;
    var i := 1;
    StartOfRun(entries, 0);
    while i < |entries|
      invariant 0 <= from < i <= |entries| && |current| == i - from && lo + |best| <= from
      invariant IsSlice(entries, current, from) && IsRun(entries, from, i)
      invariant IsSlice(entries, best, lo) && BestBefore(entries, lo, lo + |best|, from)
      invariant AfterDescent(entries, from)
    {
      var e := entries[i];
      LastOfSlice(entries, current, from);
      if e.start >= current[|current| - 1].start {
        current := current + [e];
        RunGoesOn(entries, from, i);
      } else {
        RunEnds(entries, lo, lo + |best|, from, i);
        if |current| > |best| {
          best, lo := current, from;
        }
        current, from := [e], i;
        StartOfRun(entries, i);
      }
      i := i + 1;
    }
    RunEnds(entries, lo, lo + |best|, from, i);
    block := best;
    if |current| > |best| {
      block, lo := current, from;
    }
    BestOfAll(entries, lo, lo + |block|);
  }

  predicate AfterDescent(entries: seq<SetlistEntry>, i: nat) {
    i == 0 || i >= |entries| || entries[i - 1].start > entries[i].start
  }

  lemma StartOfRun(entries: seq<SetlistEntry>, i: nat)
    requires i < |entries|
    ensures IsRun(entries, i, i + 1) && IsSlice(entries, [entries[i]], i)
    ensures i == 0 ==> BestBefore(entries, 0, 0, 0) && IsSlice(entries, [], 0) && AfterDescent(entries, 0)
  {}

  lemma NoEntriesNoRun()
    ensures IsLongestBlock([], [], 0)
  {}

  lemma LastOfSlice(entries: seq<SetlistEntry>, s: seq<SetlistEntry>, lo: nat)
    requires IsSlice(entries, s, lo) && s != []
    ensures lo + |s| <= |entries| && s[|s| - 1] == entries[lo + |s| - 1]
    ensures lo + |s| < |entries| ==> IsSlice(entries, s + [entries[lo + |s|]], lo)
  {}

  lemma RunGoesOn(entries: seq<SetlistEntry>, from: nat, i: nat)
    requires from < i < |entries| && IsRun(entries, from, i) && entries[i - 1].start <= entries[i].start
    ensures IsRun(entries, from, i + 1)
  {
    RunMeans(entries, from, i);
    RunMeans(entries, from, i + 1);
  }

  lemma BestOfAll(entries: seq<SetlistEntry>, lo: nat, hi: nat)
    requires BestBefore(entries, lo, hi, |entries|) && entries != []
    ensures IsLongestRun(entries, lo, hi)
    ensures forall block :: |block| == hi - lo && IsSlice(entries, block, lo) ==> IsLongestBlock(entries, block, lo)
  {
    StartOfRun(entries, 0);
    assert IsRun(entries, 0, 1);
    hide InOrder;
  }

  lemma NoRunAcross(entries: seq<SetlistEntry>, a: nat, d: nat, b: nat)
    requires a < d < b <= |entries| && entries[d - 1].start > entries[d].start
    ensures !IsRun(entries, a, b)
  {
    RunMeans(entries, a, b);
    assert entries[d - 1 + 1] == entries[d];
  }

  /** When the current run ends at i, the longer of the two, the earlier if equal, is the best so far. */
  lemma RunEnds(entries: seq<SetlistEntry>, lo: nat, hi: nat, from: nat, i: nat)
    requires BestBefore(entries, lo, hi, from) && from <= i && IsRun(entries, from, i) && AfterDescent(entries, from)
    ensures if i - from > hi - lo then BestBefore(entries, from, i, i) else BestBefore(entries, lo, hi, i)
    ensures 0 < i < |entries| && entries[i - 1].start > entries[i].start ==> AfterDescent(entries, i)
  {
    hide InOrder;
    forall a, b | 0 <= a < b <= i && from < b && IsRun(entries, a, b)
      ensures from <= a
    {
      if a < from {
        hide IsRun;
        NoRunAcross(entries, a, from, b);
      }
    }
  }

  /** There is one longest run, so the method's answer is determined. */
  lemma LongestRunIsUnique(entries: seq<SetlistEntry>, lo: nat, hi: nat, lo2: nat, hi2: nat)
    requires IsLongestRun(entries, lo, hi) && IsLongestRun(entries, lo2, hi2)
    ensures entries[lo..hi] == entries[lo2..hi2]
  {}

  ghost predicate AdjacentInOrder(entries: seq<SetlistEntry>) {
    exists i :: 0 <= i < |entries| - 1 && entries[i].start <= entries[i + 1].start
  }

  lemma LongRunsHaveAPair(entries: seq<SetlistEntry>, lo: nat, hi: nat)
    requires IsLongestRun(entries, lo, hi)
    ensures hi - lo >= 2 <==> AdjacentInOrder(entries)
  {
    RunMeans(entries, lo, hi);
    if hi - lo >= 2 {
      assert entries[lo].start <= entries[lo + 1].start;
    }
    if i :| 0 <= i < |entries| - 1 && entries[i].start <= entries[i + 1].start {
      RunMeans(entries, i, i + 2);
    }
  }

  // ------------------------------------------------------------------- the sources

  /** A text is a setlist if two adjacent of its entries are in order. */
  ghost predicate Detectable(text: string) {
    AdjacentInOrder(EntriesOf(SplitLines(text)))
  }

  ghost predicate IsDetected(d: Detected, text: string) {
    var entries := EntriesOf(SplitLines(text));
    && d.rawText == (if |text| > 2000 then text[..2000] else text)
    && exists lo :: IsLongestBlock(entries, d.entries, lo)
  }

  method DetectInText(text: string) returns (r: Option<Detected>)
    ensures r.Some? <==> Detectable(text)
    ensures r.Some? ==> IsDetected(r.value, text)
  {
    hide EntriesOf, SplitLines, IsLongestRun, AdjacentInOrder;
    var entries := ExtractEntries(text);
    var block, lo := LongestContiguousBlock(entries);
    LongRunsHaveAPair(entries, lo, lo + |block|);
    if |block| < 2 {
      return None;
    }
    return Some(Detected(block, if |text| > RAW_TEXT_LIMIT then text[..RAW_TEXT_LIMIT] else text));
  }

  /** detect_in_description: a missing or empty description has nothing to detect. */
  method DetectInDescription(description: Option<string>) returns (r: Option<Detected>)
    ensures r.Some? <==> description.Some? && Detectable(description.value)
    ensures r.Some? ==> IsDetected(r.value, description.value)
  {
    hide EntriesOf, SplitLines, AdjacentInOrder;
    if description.None? {
      return None;
    }
    r := DetectInText(description.value);
  }

  // ------------------------------------------------------------------ the comments

  function LikeKey(c: Comment): int {
    -(if c.likes.Some? then c.likes.value else 0)
  }

  predicate IsPinned(c: Comment) {
    c.pinned
  }

  predicate IsUnpinned(c: Comment) {
    !c.pinned
  }

  /** Pinned comments in their own order, then the others by falling likes. */
  function Candidates(comments: seq<Comment>): seq<Comment> {
    Filter(comments, IsPinned) + Sorted(Filter(comments, IsUnpinned), LikeKey)
  }

  function Considered(comments: seq<Comment>): seq<Comment> {
    var all := Candidates(comments);
    if |all| > MAX_CANDIDATES then all[..MAX_CANDIDATES] else all
  }

  /** The first of the considered comments that holds a setlist. */
  method DetectInComments(comments: seq<Comment>) returns (r: Option<Detected>, k: nat)
    ensures var cs := if |Candidates(comments)| > 20 then Candidates(comments)[..20] else Candidates(comments);
            && (r.Some? <==> exists i :: 0 <= i < |cs| && Detectable(cs[i].text))
            && (r.Some? ==> k < |cs| && IsDetected(r.value, cs[k].text) && Detectable(cs[k].text)
                            && forall i :: 0 <= i < k ==> !Detectable(cs[i].text))
  {
    hide Detectable, IsDetected, Candidates;
    var cs := Considered(comments);
    k := 0;
    while k < |cs|
      invariant k <= |cs|
      invariant forall i :: 0 <= i < k ==> !Detectable(cs[i].text)
    {
      r := DetectInText(cs[k].text);
      if r.Some? {
        return;
      }
      k := k + 1;
    }
    return None, 0;
  }

  /** No comment is lost or repeated, pinned ones come first, and more liked ones before less liked ones. */
  lemma CandidatesAreRanked(comments: seq<Comment>)
    ensures multiset(Candidates(comments)) == multiset(comments)
    ensures forall i, j :: 0 <= i < j < |Candidates(comments)| ==> RanksBefore(Candidates(comments)[i], Candidates(comments)[j])
  {
    var pinned, ranked := Filter(comments, IsPinned), Sorted(Filter(comments, IsUnpinned), LikeKey);
    PartsMakeTheWhole(comments);
    SortedFacts(Filter(comments, IsUnpinned), LikeKey);
    FilterFacts(comments, IsPinned);
    NoneRankedIsPinned(comments);
    hide Filter, Sorted, SameOrderPerKey;
    var all := Candidates(comments);
    forall i, j | 0 <= i < j < |all|
      ensures RanksBefore(all[i], all[j])
    {
      if i < |pinned| {
        assert all[i] == pinned[i];
      } else {
        assert all[i] == ranked[i - |pinned|] && all[j] == ranked[j - |pinned|];
      }
    }
  }

  /** No likes and no number of likes are the same. */
  function Likes(c: Comment): int {
    match c.likes
    case Some(n) => n
    case None => 0
  }

  predicate RanksBefore(a: Comment, b: Comment) {
    a.pinned || (!b.pinned && Likes(a) >= Likes(b))
  }

  // ---------------------------------------------------------------------------- ties

  function UnpinnedWith(n: int): Comment -> bool {
    (c: Comment) => !c.pinned && Likes(c) == n
  }

  lemma {:induction false} FilterOfBoth(a: seq<Comment>, b: seq<Comment>, keep: Comment -> bool)
    ensures Filter(a + b, keep) == Filter(a, keep) + Filter(b, keep)
  {
    if a == [] {
      assert a + b == b;
    } else {
      assert (a + b)[1..] == a[1..] + b;
      FilterOfBoth(a[1..], b, keep);
    }
  }

  lemma {:induction false} FilterOfNone(a: seq<Comment>, keep: Comment -> bool)
    requires forall i :: 0 <= i < |a| ==> !keep(a[i])
    ensures Filter(a, keep) == []
  {
    if a == [] {
    } else {
      FilterOfNone(a[1..], keep);
    }
  }

  lemma {:induction false} FilterOfAll(a: seq<Comment>, keep: Comment -> bool)
    requires forall i :: 0 <= i < |a| ==> keep(a[i])
    ensures Filter(a, keep) == a
  {
    if a == [] {
    } else {
      FilterOfAll(a[1..], keep);
      assert a == [a[0]] + a[1..];
    }
  }

  /** Among unpinned comments, those with n likes are those of key -n. */
  lemma {:induction false} WithLikes(a: seq<Comment>, n: int)
    requires forall i :: 0 <= i < |a| ==> !a[i].pinned
    ensures Filter(a, UnpinnedWith(n)) == Having(a, LikeKey, -n)
  {
    if a == [] {
    } else {
      WithLikes(a[1..], n);
    }
  }

  lemma {:induction false} UnpinnedFirst(a: seq<Comment>, n: int)
    ensures Filter(Filter(a, IsUnpinned), UnpinnedWith(n)) == Filter(a, UnpinnedWith(n))
  {
    if a == [] {
    } else {
      UnpinnedFirst(a[1..], n);
      var rest := Filter(a[1..], IsUnpinned);
      assert ([a[0]] + rest)[1..] == rest && [] + rest == rest;
    }
  }

  /** Pinned comments, and unpinned ones with equally many likes, are tried in the order in which they came. */
  lemma TiesKeepTheirOrder(comments: seq<Comment>, n: int)
    ensures Filter(Candidates(comments), IsPinned) == Filter(comments, IsPinned)
    ensures Filter(Candidates(comments), UnpinnedWith(n)) == Filter(comments, UnpinnedWith(n))
  {
    var pinned, others := Filter(comments, IsPinned), Filter(comments, IsUnpinned);
    var ranked := Sorted(others, LikeKey);
    FilterFacts(comments, IsPinned);
    FilterFacts(comments, IsUnpinned);
    NoneRankedIsPinned(comments);
    UnpinnedFirst(comments, n);
    SortedKeepsOrderPerKey(others, LikeKey, -n);
    hide Sorted, Filter, Having;
    FilterOfBoth(pinned, ranked, IsPinned);
    FilterOfAll(pinned, IsPinned);
    FilterOfNone(ranked, IsPinned);
    assert pinned + [] == pinned;
    FilterOfBoth(pinned, ranked, UnpinnedWith(n));
    FilterOfNone(pinned, UnpinnedWith(n));
    WithLikes(ranked, n);
    WithLikes(others, n);
    assert [] + Filter(ranked, UnpinnedWith(n)) == Filter(ranked, UnpinnedWith(n));
  }

  lemma NoneRankedIsPinned(comments: seq<Comment>)
    ensures forall i :: 0 <= i < |Sorted(Filter(comments, IsUnpinned), LikeKey)| ==>
              !Sorted(Filter(comments, IsUnpinned), LikeKey)[i].pinned
  {
    var others := Filter(comments, IsUnpinned);
    var ranked := Sorted(others, LikeKey);
    SortedFacts(others, LikeKey);
    FilterFacts(comments, IsUnpinned);
    hide Filter, Sorted, SameOrderPerKey;
    forall i | 0 <= i < |ranked|
      ensures !ranked[i].pinned
    {
      assert ranked[i] in multiset(ranked);
      var j :| 0 <= j < |others| && others[j] == ranked[i];
      assert IsUnpinned(others[j]);
    }
  }

  lemma {:induction false} PartsMakeTheWhole(comments: seq<Comment>)
    ensures multiset(Filter(comments, IsPinned)) + multiset(Filter(comments, IsUnpinned)) == multiset(comments)
  {
    if comments == [] {
    } else {
      assert comments == [comments[0]] + comments[1..];
      PartsMakeTheWhole(comments[1..]);
    }
  }

  /**
    With at most twenty comments, nothing is found only if no comment holds a
    setlist; and the comment chosen is pinned if any pinned one holds a setlist,
    and otherwise the most liked of those that do.
   */
  lemma BestCommentWins(comments: seq<Comment>, k: nat)
    requires |comments| <= 20 && k <= |Considered(comments)|
    requires forall i :: 0 <= i < k ==> !Detectable(Considered(comments)[i].text)
    ensures k == |Considered(comments)| ==> forall c :: c in comments ==> !Detectable(c.text)
    ensures k < |Considered(comments)| ==>
              forall c :: c in comments && Detectable(c.text) ==>
                var w := Considered(comments)[k];
                w == c || RanksBefore(w, c)
  {
    hide Detectable, Candidates;
    CandidatesAreRanked(comments);
    var cs := Candidates(comments);
    assert |cs| == |multiset(cs)| == |multiset(comments)| == |comments|;
    forall c | c in comments && Detectable(c.text)
      ensures exists i :: k <= i < |cs| && cs[i] == c
    {
      assert c in multiset(cs);
      var i :| 0 <= i < |cs| && cs[i] == c;
      assert i >= k;
    }
  }
}
