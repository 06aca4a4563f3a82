/**
  One poll of a watched channel for new uploads.  Each probe suspends the poll,
  and meanwhile other code may commit streams of its own.
 */
module ChannelPollerSpec {
  import opened Wrappers
  import SetlistChars
  import SetlistText
  import BacklogBrowse

  /** An entry of the channel's recent uploads; dates are counted in days. */
  datatype Upload = Upload(youtubeId: string, title: string, isLive: bool, date: Option<int>)

  datatype Info = Info(youtubeId: string, title: string, isLive: bool)

  datatype Watcher = Watcher(addedOn: Option<int>, titleFilter: Option<string>, autoPublish: bool)

  /** What the outside world does during one poll; a probe that raises gives None. */
  datatype World = World(
    uploads: seq<Upload>,
    probe: nat -> Option<Info>,
    arrivals: nat -> seq<string>,       // youtube ids others commit while upload i is probed
    taken: nat -> nat,                  // recording ids others use up meanwhile
    search: (string, string) -> Option<bool>,  // re.search; None if the pattern is no regex
    lower: string -> string,
    findsArtist: string -> bool)

  datatype Created = Created(index: nat, youtubeId: string, recording: nat, autoPublish: bool)

  datatype State = State(streams: seq<string>, known: set<string>, created: seq<Created>, nextRecording: nat)

  /** _matches_filter. */
  predicate MatchesFilter(title: string, pattern: Option<string>, world: World) {
    if pattern.None? || SetlistText.Strip(pattern.value) == "" then true
    else match world.search(pattern.value, title)
      case Some(found) => found
      case None => BacklogBrowse.Contains(world.lower(title), world.lower(pattern.value))
  }

  /** Strictly after the day the watcher was added; without a date an upload cannot be. */
  predicate IsForward(date: Option<int>, addedOn: Option<int>) {
    addedOn.None? || (date.Some? && date.value > addedOn.value)
  }

  predicate Eligible(u: Upload, w: Watcher, world: World) {
    !u.isLive && IsForward(u.date, w.addedOn) && MatchesFilter(u.title, w.titleFilter, world)
  }

  /** Rows others commit; the UNIQUE constraint refuses the ids that are there. */
  function Committed(streams: seq<string>, ids: seq<string>): (r: seq<string>)
    ensures streams <= r
    ensures forall y :: y in r <==> y in streams || y in ids
    decreases |ids|
  {
    if ids == [] then streams
    else
      var rest := if ids[0] in streams then streams else streams + [ids[0]];
      assert ids == [ids[0]] + ids[1..];
      Committed(rest, ids[1..])
  }

  function Start(streams: seq<string>, nextRecording: nat): State {
    State(streams, set y | y in streams, [], nextRecording)
  }

  /** What becomes of upload i. */
  function Handle(s: State, i: nat, w: Watcher, world: World): State
    requires i < |world.uploads|
  {
    var u := world.uploads[i];
    if !Eligible(u, w, world) || u.youtubeId in s.known then s
    else
      var streams := Committed(s.streams, world.arrivals(i));
      var t := s.(streams := streams, nextRecording := s.nextRecording + world.taken(i));
      var info := world.probe(i);
      if info.None? || info.value.isLive || info.value.youtubeId in streams then t
      else
        var id := info.value.youtubeId;
        State(streams + [id], s.known + {id},
              s.created + [Created(i, id, t.nextRecording, w.autoPublish && world.findsArtist(info.value.title))],
              t.nextRecording + 1)
  }

  function HandleFirst(s: State, n: nat, w: Watcher, world: World): State
    requires n <= |world.uploads|
  {
    if n == 0 then s else Handle(HandleFirst(s, n - 1, w, world), n - 1, w, world)
  }

  function Polled(s: State, w: Watcher, world: World): State {
    HandleFirst(s, |world.uploads|, w, world)
  }

  // ------------------------------------------------------------- what a poll creates

  ghost predicate NoDuplicates(ids: seq<string>) {
    forall i, j :: 0 <= i < j < |ids| ==> ids[i] != ids[j]
  }

  lemma {:induction false} CommittingKeepsUnique(streams: seq<string>, ids: seq<string>)
    requires NoDuplicates(streams)
    ensures NoDuplicates(Committed(streams, ids))
    decreases |ids|
  {
    if ids == [] {
    } else {
      CommittingKeepsUnique(if ids[0] in streams then streams else streams + [ids[0]], ids[1..]);
    }
  }

  /** There is one stream per youtube id, whatever others commit in between. */
  lemma {:induction false} StreamsStayUnique(s: State, n: nat, w: Watcher, world: World)
    requires NoDuplicates(s.streams) && n <= |world.uploads|
    ensures NoDuplicates(HandleFirst(s, n, w, world).streams)
  {
    if n == 0 {
    } else {
      StreamsStayUnique(s, n - 1, w, world);
      CommittingKeepsUnique(HandleFirst(s, n - 1, w, world).streams, world.arrivals(n - 1));
      hide Eligible;
    }
  }

  /**
    What the title filter lets through: everything without a filter or with a
    blank one, else what the search finds; and where the filter is no regular
    expression, titles that contain it, letter case aside.
   */
  ghost predicate Wanted(title: string, pattern: Option<string>, world: World) {
    || pattern.None?
    || (forall i :: 0 <= i < |pattern.value| ==> SetlistChars.IsSpace(pattern.value[i]))
    || (match world.search(pattern.value, title)
        case Some(found) => found
        case None => exists a, b :: world.lower(title) == a + (world.lower(pattern.value) + b))
  }

  lemma BlankIff(s: string)
    ensures SetlistText.Strip(s) == "" <==> forall i :: 0 <= i < |s| ==> SetlistChars.IsSpace(s[i])
  {
    hide SetlistChars.IsSpace;
    var c := SetlistText.TakeSpaces(s);
    assert c.rest == "" ==> c.taken + c.rest == c.taken;
    if c.rest != "" {
      assert s[|c.taken|] == c.rest[0];
      var r := SetlistText.DropTrailingSpaces(c.rest);
      assert c.rest[0..] == c.rest && !SetlistText.AllSpace(c.rest);
    }
  }

  lemma ContainsIff(s: string, part: string)
    ensures BacklogBrowse.Contains(s, part) <==> exists a, b :: s == a + (part + b)
  {
    if i :| 0 <= i <= |s| && part <= s[i..] {
      var tail := s[i..];
      assert tail == part + tail[|part|..] && s == s[..i] + tail;
    }
    if a, b :| s == a + (part + b) {
      assert s[|a|..] == part + b;
    }
  }

  lemma FilterMeans(title: string, pattern: Option<string>, world: World)
    ensures MatchesFilter(title, pattern, world) <==> Wanted(title, pattern, world)
  {
    hide SetlistChars.IsSpace, SetlistText.Strip, BacklogBrowse.Contains;
    if pattern.Some? {
      BlankIff(pattern.value);
      ContainsIff(world.lower(title), world.lower(pattern.value));
    }
  }

  /** What entitled upload c.index to become a recording. */
  ghost predicate Justified(c: Created, before: seq<string>, w: Watcher, world: World) {
    && c.index < |world.uploads|
    && var u := world.uploads[c.index];
    && !u.isLive && u.youtubeId !in before && c.youtubeId !in before
    && (w.addedOn.Some? ==> u.date.Some? && u.date.value > w.addedOn.value)
    && Wanted(u.title, w.titleFilter, world)
    && world.probe(c.index).Some? && !world.probe(c.index).value.isLive
    && c.youtubeId == world.probe(c.index).value.youtubeId
    && (c.autoPublish <==> w.autoPublish && world.findsArtist(world.probe(c.index).value.title))
  }

  /** In the order of the list, under fresh recording ids, each video once. */
  ghost predicate InListOrder(created: seq<Created>, first: nat) {
    forall i, j :: 0 <= i < j < |created| ==>
      && first <= created[i].recording < created[j].recording
      && created[i].index < created[j].index
      && created[i].youtubeId != created[j].youtubeId
  }

  ghost predicate Sound(s: State, t: State, n: nat, w: Watcher, world: World) {
    && s.streams <= t.streams
    && (forall k :: 0 <= k < |t.created| ==>
          && t.created[k].index < n && Justified(t.created[k], s.streams, w, world)
          && t.created[k].youtubeId in t.streams
          && s.nextRecording <= t.created[k].recording < t.nextRecording)
    && InListOrder(t.created, s.nextRecording)
    && s.nextRecording <= t.nextRecording
    && (forall y :: y in s.streams ==> y in t.known)
    && (forall y :: y in t.known ==> y in t.streams)
  }

  /** What turning upload i into a recording leaves; and if it is none, what is created stays. */
  lemma HandleCases(t: State, i: nat, w: Watcher, world: World)
    requires i < |world.uploads|
    ensures var u, info, r := world.uploads[i], world.probe(i), Handle(t, i, w, world);
            && t.streams <= r.streams && t.nextRecording <= r.nextRecording
            && if r.created == t.created then r.known == t.known
               else && |r.created| == |t.created| + 1 && r.created[..|t.created|] == t.created
                    && Eligible(u, w, world) && u.youtubeId !in t.known && info.Some? && !info.value.isLive
                    && info.value.youtubeId !in t.streams && info.value.youtubeId in r.streams
                    && r.known == t.known + {info.value.youtubeId}
                    && var c := r.created[|t.created|];
                       && c.index == i && c.youtubeId == info.value.youtubeId
                       && c.recording == t.nextRecording + world.taken(i) && r.nextRecording == c.recording + 1
                       && (c.autoPublish <==> w.autoPublish && world.findsArtist(info.value.title))
  {
    hide Eligible, Committed;
  }

  lemma EligibleMeans(u: Upload, w: Watcher, world: World)
    ensures Eligible(u, w, world)
       <==> !u.isLive && (w.addedOn.Some? ==> u.date.Some? && u.date.value > w.addedOn.value) && Wanted(u.title, w.titleFilter, world)
  {
    FilterMeans(u.title, w.titleFilter, world);
    hide MatchesFilter, Wanted;
  }

  lemma HandleIsSound(s: State, t: State, i: nat, w: Watcher, world: World)
    requires i < |world.uploads| && Sound(s, t, i, w, world)
    ensures Sound(s, Handle(t, i, w, world), i + 1, w, world)
  {
    HandleCases(t, i, w, world);
    EligibleMeans(world.uploads[i], w, world);
    hide Eligible, Wanted, Handle;
    var r := Handle(t, i, w, world);
    if r.created != t.created {
      assert Justified(r.created[|t.created|], s.streams, w, world);
      hide Justified;
      assert forall k :: 0 <= k < |t.created| ==> r.created[k] == t.created[k];
    }
  }

  lemma {:induction false} PollIsSound(streams: seq<string>, next: nat, n: nat, w: Watcher, world: World)
    requires n <= |world.uploads|
    ensures Sound(Start(streams, next), HandleFirst(Start(streams, next), n, w, world), n, w, world)
  {
    hide Handle, Justified;
    if n == 0 {
    } else {
      PollIsSound(streams, next, n - 1, w, world);
      HandleIsSound(Start(streams, next), HandleFirst(Start(streams, next), n - 1, w, world), n - 1, w, world);
    }
  }

  /**
    Forward only: every recording one poll creates comes from a listed upload that
    is not live, dated strictly after the watcher's day, matches the title filter
    and was not known, and from a probe that agrees it is not live; in list order,
    each video once.
   */
  lemma PollIsForwardOnly(streams: seq<string>, next: nat, w: Watcher, world: World)
    ensures var t := Polled(Start(streams, next), w, world);
            && (forall k :: 0 <= k < |t.created| ==> Justified(t.created[k], streams, w, world) && t.created[k].youtubeId in t.streams)
            && InListOrder(t.created, next)
  {
    PollIsSound(streams, next, |world.uploads|, w, world);
    hide Justified, InListOrder;
  }

  // -------------------------------------------------------- what a poll leaves behind

  /** Upload i is of no interest any more. */
  ghost predicate Settled(i: nat, streams: seq<string>, w: Watcher, world: World)
    requires i < |world.uploads|
  {
    var u, info := world.uploads[i], world.probe(i);
    || !Eligible(u, w, world) || u.youtubeId in streams
    || info.None? || info.value.isLive || info.value.youtubeId in streams
  }

  lemma {:induction false} PollSettlesAll(s: State, n: nat, w: Watcher, world: World)
    requires n <= |world.uploads| && forall y :: y in s.known ==> y in s.streams
    ensures var t := HandleFirst(s, n, w, world);
            && s.streams <= t.streams
            && (forall y :: y in t.known ==> y in t.streams)
            && (forall i :: 0 <= i < n ==> Settled(i, t.streams, w, world))
  {
    if n == 0 {
    } else {
      PollSettlesAll(s, n - 1, w, world);
      HandleSettles(HandleFirst(s, n - 1, w, world), n - 1, w, world);
      hide Eligible, Handle, Settled;
      forall i | 0 <= i < n - 1
        ensures Settled(i, HandleFirst(s, n, w, world).streams, w, world)
      {
        StaysSettled(i, HandleFirst(s, n - 1, w, world).streams, HandleFirst(s, n, w, world).streams, w, world);
      }
    }
  }

  lemma HandleSettles(s: State, i: nat, w: Watcher, world: World)
    requires i < |world.uploads| && forall y :: y in s.known ==> y in s.streams
    ensures var t := Handle(s, i, w, world);
            s.streams <= t.streams && (forall y :: y in t.known ==> y in t.streams) && Settled(i, t.streams, w, world)
  {
    hide Eligible, Committed;
  }

  lemma StaysSettled(i: nat, streams: seq<string>, more: seq<string>, w: Watcher, world: World)
    requires i < |world.uploads| && streams <= more && Settled(i, streams, w, world)
    ensures Settled(i, more, w, world)
  {
    hide Eligible;
    assert forall y :: y in streams ==> y in more;
  }

  /**
    A poll that follows with the same list and the same probes creates nothing,
    even if others have added streams since, or add some meanwhile.
   */
  lemma SecondPollCreatesNothing(streams: seq<string>, next: nat, streams2: seq<string>, next2: nat,
                                 w: Watcher, world: World, world2: World)
    requires world2 == world.(arrivals := world2.arrivals, taken := world2.taken)
    requires forall y :: y in Polled(Start(streams, next), w, world).streams ==> y in streams2
    ensures Polled(Start(streams2, next2), w, world2).created == []
  {
    PollSettlesAll(Start(streams, next), |world.uploads|, w, world);
    forall i | 0 <= i < |world.uploads|
      ensures Settled(i, streams2, w, world2)
    {
      assert Settled(i, Polled(Start(streams, next), w, world).streams, w, world);
      SameFilter(world.uploads[i], w, world, world2);
      hide Eligible;
    }
    NothingToCreate(Start(streams2, next2), |world2.uploads|, w, world2);
  }

  lemma SameFilter(u: Upload, w: Watcher, world: World, world2: World)
    requires world2 == world.(arrivals := world2.arrivals, taken := world2.taken)
    ensures Eligible(u, w, world) == Eligible(u, w, world2)
  {
    hide SetlistText.Strip, BacklogBrowse.Contains;
  }

  lemma {:induction false} NothingToCreate(s: State, n: nat, w: Watcher, world: World)
    requires n <= |world.uploads| && (forall y :: y in s.streams ==> y in s.known) && s.created == []
    requires forall i :: 0 <= i < |world.uploads| ==> Settled(i, s.streams, w, world)
    ensures var t := HandleFirst(s, n, w, world);
            t.created == [] && t.known == s.known && s.streams <= t.streams
  {
    hide Eligible;
    if n == 0 {
    } else {
      NothingToCreate(s, n - 1, w, world);
      assert Settled(n - 1, s.streams, w, world);
      var t := HandleFirst(s, n - 1, w, world);
      assert forall y :: y in s.streams ==> y in Committed(t.streams, world.arrivals(n - 1));
    }
  }

  /** The probe reports the id the list gave. */
  ghost predicate Honest(world: World) {
    forall i :: 0 <= i < |world.uploads| && world.probe(i).Some? ==> world.probe(i).value.youtubeId == world.uploads[i].youtubeId
  }

  ghost predicate Undisturbed(world: World) {
    forall i :: world.arrivals(i) == []
  }

  /** Upload i is listed and probed as not live, after the watcher's day, and wanted. */
  ghost predicate Proper(i: nat, world: World, w: Watcher)
    requires i < |world.uploads|
  {
    var u := world.uploads[i];
    && !u.isLive && (w.addedOn.Some? ==> u.date.Some? && u.date.value > w.addedOn.value)
    && Wanted(u.title, w.titleFilter, world)
    && world.probe(i).Some? && !world.probe(i).value.isLive
  }

  ghost predicate Offers(world: World, w: Watcher, y: string) {
    exists i :: 0 <= i < |world.uploads| && world.uploads[i].youtubeId == y && Proper(i, world, w)
  }

  ghost predicate Creates(t: State, y: string) {
    exists k :: 0 <= k < |t.created| && t.created[k].youtubeId == y
  }

  /** Without interference, exactly the eligible videos that were not there and can be probed are created. */
  lemma ExactlyTheNewOnes(streams: seq<string>, next: nat, w: Watcher, world: World, y: string)
    requires Honest(world) && Undisturbed(world)
    ensures Creates(Polled(Start(streams, next), w, world), y) <==> y !in streams && Offers(world, w, y)
  {
    var s := Start(streams, next);
    var t := Polled(s, w, world);
    PollIsSound(streams, next, |world.uploads|, w, world);
    PollSettlesAll(s, |world.uploads|, w, world);
    StreamsAreOldOrCreated(s, |world.uploads|, w, world);
    hide MatchesFilter, HandleFirst, InListOrder, Wanted;
    if k :| 0 <= k < |t.created| && t.created[k].youtubeId == y {
      assert Justified(t.created[k], streams, w, world);
      assert Proper(t.created[k].index, world, w);
      assert world.uploads[t.created[k].index].youtubeId == y;
    }
    if y !in streams {
      if i :| 0 <= i < |world.uploads| && world.uploads[i].youtubeId == y && Proper(i, world, w) {
        EligibleMeans(world.uploads[i], w, world);
        assert Settled(i, t.streams, w, world);
      }
    }
  }

  lemma {:induction false} StreamsAreOldOrCreated(s: State, n: nat, w: Watcher, world: World)
    requires n <= |world.uploads| && Undisturbed(world)
    ensures var t := HandleFirst(s, n, w, world);
            forall y :: y in t.streams ==> y in s.streams || Creates(t, y)
  {
    hide Eligible;
    if n == 0 {
    } else {
      StreamsAreOldOrCreated(s, n - 1, w, world);
      var before, t := HandleFirst(s, n - 1, w, world), HandleFirst(s, n, w, world);
      forall y | y in t.streams && y !in s.streams
        ensures Creates(t, y)
      {
        if y in before.streams {
          var k :| 0 <= k < |before.created| && before.created[k].youtubeId == y;
          assert t.created[k] == before.created[k];
        } else {
          assert t.created[|t.created| - 1].youtubeId == y;
        }
      }
    }
  }
}

/** The poll in its own form. */
module ChannelPoller {
  import opened Wrappers
  import opened ChannelPollerSpec

  /** A vod_queued recording row. */
  datatype Row = Row(youtubeId: string, autoPublish: bool)

  function IdsOf(created: seq<Created>): (ids: seq<nat>)
    ensures |ids| == |created| && forall i :: 0 <= i < |ids| ==> ids[i] == created[i].recording
  {
    seq(|created|, i requires 0 <= i < |created| => created[i].recording)
  }

  function WithRows(rows: map<nat, Row>, created: seq<Created>): map<nat, Row> {
    if created == [] then rows else
      var c := created[|created| - 1];
      WithRows(rows, created[..|created| - 1])[c.recording := Row(c.youtubeId, c.autoPublish)]
  }

  class Poller {
    var streams: seq<string>
    var recordings: map<nat, Row>
    var nextRecording: nat
    var queue: seq<nat>

    /** _check_for_new_vod_uploads; `listed` is false if the listing raised. */
    method CheckForNewUploads(w: Watcher, listed: bool, world: World)
      modifies this
      ensures !listed ==> streams == old(streams) && recordings == old(recordings) && queue == old(queue)
                          && nextRecording == old(nextRecording)
      ensures listed ==>
                var t := Polled(Start(old(streams), old(nextRecording)), w, world);
                && streams == t.streams && nextRecording == t.nextRecording
                && recordings == WithRows(old(recordings), t.created)
                && queue == old(queue) + IdsOf(t.created)
    {
      if !listed {
        return;
      }
      hide Handle, WithRows, IdsOf, Polled;
      PolledInTurn(Start(streams, nextRecording), w, world);
      hide HandleFirst;
      ghost var s := Start(streams, nextRecording);
      var known := set y | y in streams;
      var newIds: seq<nat> := [];
      ghost var created: seq<Created> := [];
      NothingCreated(recordings);
      var i := 0;
      while i < |world.uploads|
        invariant i <= |world.uploads|
        invariant State(streams, known, created, nextRecording) == HandleFirst(s, i, w, world)
        invariant newIds == IdsOf(created) && recordings == WithRows(old(recordings), created) && queue == old(queue)
      {
        var one;
        known, one := HandleUpload(i, w, world, known, created);
        if one.Some? {
          OneMore(old(recordings), created, one.value);
          newIds := newIds + [one.value.recording];
          created := created + [one.value];
        }
        i := i + 1;
      }
      EnqueueAll(newIds);
    }

    /** The loop after the last session: the rows are committed. */
    method EnqueueAll(ids: seq<nat>)
      modifies this`queue
      ensures queue == old(queue) + ids
    {
      var k := 0;
      while k < |ids|
        invariant k <= |ids| && queue == old(queue) + ids[..k]
      {
        queue := queue + [ids[k]];
        k := k + 1;
      }
      assert ids[..k] == ids;
    }

    /** One turn of the loop: the filters, the probe, and the session that adds a stream and its recording. */
    method HandleUpload(i: nat, w: Watcher, world: World, known0: set<string>, ghost created: seq<Created>)
      returns (known: set<string>, one: Option<Created>)
      requires i < |world.uploads|
      modifies this`streams, this`recordings, this`nextRecording
      ensures State(streams, known, if one.Some? then created + [one.value] else created, nextRecording)
           == Handle(State(old(streams), known0, created, old(nextRecording)), i, w, world)
      ensures recordings == if one.None? then old(recordings)
                else old(recordings)[one.value.recording := Row(one.value.youtubeId, one.value.autoPublish)]
    {
      hide Eligible, Committed;
      known, one := known0, None;
      var u := world.uploads[i];
      if !Eligible(u, w, world) || u.youtubeId in known {
        return;
      }
      var info := world.probe(i);
      streams := Committed(streams, world.arrivals(i));
      nextRecording := nextRecording + world.taken(i);
      if info.None? || info.value.isLive || info.value.youtubeId in streams {
        return;
      }
      var id := info.value.youtubeId;
      var auto := w.autoPublish && world.findsArtist(info.value.title);
      one := Some(Created(i, id, nextRecording, auto));
      streams := streams + [id];
      recordings := recordings[nextRecording := Row(id, auto)];
      nextRecording := nextRecording + 1;
      known := known + {id};
    }
  }

  lemma PolledInTurn(s: State, w: Watcher, world: World)
    ensures HandleFirst(s, 0, w, world) == s
    ensures forall i :: 0 <= i < |world.uploads| ==>
              HandleFirst(s, i + 1, w, world) == Handle(HandleFirst(s, i, w, world), i, w, world)
    ensures Polled(s, w, world) == HandleFirst(s, |world.uploads|, w, world)
  {}

  lemma NothingCreated(rows: map<nat, Row>)
    ensures WithRows(rows, []) == rows && IdsOf([]) == []
  {}

  lemma OneMore(rows: map<nat, Row>, created: seq<Created>, c: Created)
    ensures WithRows(rows, created + [c]) == WithRows(rows, created)[c.recording := Row(c.youtubeId, c.autoPublish)]
    ensures IdsOf(created + [c]) == IdsOf(created) + [c.recording]
  {
    assert (created + [c])[..|created|] == created;
  }

  /** What is enqueued is committed: each id has the row the poll made for it. */
  lemma {:induction false} EnqueuedAreCommitted(rows: map<nat, Row>, created: seq<Created>, k: nat)
    requires k < |created| && forall i, j :: 0 <= i < j < |created| ==> created[i].recording < created[j].recording
    ensures created[k].recording in WithRows(rows, created)
    ensures WithRows(rows, created)[created[k].recording] == Row(created[k].youtubeId, created[k].autoPublish)
  {
    var n := |created| - 1;
    if k == n {
    } else {
      EnqueuedAreCommitted(rows, created[..n], k);
    }
  }
}
