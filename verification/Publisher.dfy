/**
  Publishing segments and deleting their source.  publish() marks the segment,
  suspends while ffmpeg cuts, and comes back to mark it published and perhaps to
  delete the recording's source; any number of publishes may be in between.
 */
module PublisherSpec {
  import opened Wrappers

  datatype SegmentStatus = Draft | Publishing | Published | PublishFailed

  datatype Segment = Segment(recording: nat, status: SegmentStatus, error: Option<string>)

  /** A publish() call suspended between its two sessions. */
  datatype Flight = Flight(segment: nat, recording: nat)

  datatype State = State(
    segments: map<nat, Segment>,
    sourceDeleted: map<nat, bool>,  // one entry for each recording row
    issued: set<nat>,               // every recording id ever handed out
    flights: map<nat, Flight>)

  /** The watcher's preference if the recording has a watcher with one, else the global setting. */
  datatype Policy = Policy(watcher: Option<bool>, setting: bool)

  datatype Action =
    | CreateRecording(r: nat)
    | DropRecording(r: nat)
    | CreateSegment(g: nat, r: nat)
    | DropSegment(g: nat)
    | Start(f: nat, g: nat)
    | Finish(f: nat, policy: Policy, removed: bool)  // removed: the file removal did not fail
    | Fail(f: nat, message: string)
    | DeleteSource(r: nat, removed: bool)            // DELETE /recordings/{id}/source
    | Crash

  datatype Reply = Deleted204 | Missing404 | Conflict409 | Failed500

  function Wants(p: Policy): bool {
    if p.watcher.Some? then p.watcher.value else p.setting
  }

  predicate AllPublished(segments: map<nat, Segment>, r: nat) {
    forall g :: g in segments && segments[g].recording == r ==> segments[g].status == Published
  }

  predicate HasSegments(segments: map<nat, Segment>, r: nat) {
    exists g :: g in segments && segments[g].recording == r
  }

  /** A database session: its uncommitted rows, and whether its body raised. */
  datatype Session = Session(segments: map<nat, Segment>, raised: bool)

  /** Leaving a session commits its rows, or rolls them all back if its body raised. */
  function Closed(committed: map<nat, Segment>, session: Session): map<nat, Segment> {
    if session.raised then committed else session.segments
  }

  /** The body of publish()'s first session, write by write. */
  function FirstSession(s: State, g: nat): Session {
    if g !in s.segments then Session(s.segments, true)
    else
      var marked := s.segments[g := s.segments[g].(status := Publishing, error := None)];
      if marked[g].recording !in s.sourceDeleted
      then Session(marked[g := marked[g].(status := PublishFailed, error := Some("recording missing"))], true)
      else Session(marked, false)
  }

  /** publish() up to its first await: it goes on to cut only if the session did not raise. */
  function Started(s: State, f: nat, g: nat): State {
    var session := FirstSession(s, g);
    var t := s.(segments := Closed(s.segments, session));
    if session.raised then t else t.(flights := t.flights[f := Flight(g, t.segments[g].recording)])
  }

  /** The session after the last await: mark the segment, then decide on the source. */
  function Finished(s: State, f: nat, policy: Policy, removed: bool): State
    requires f in s.flights
  {
    var g := s.flights[f].segment;
    var t := s.(flights := s.flights - {f});
    if g !in s.segments then t
    else
      var u := t.(segments := t.segments[g := t.segments[g].(status := Published)]);
      var r := s.segments[g].recording;
      if r in u.sourceDeleted && !u.sourceDeleted[r] && AllPublished(u.segments, r) && Wants(policy) && removed
      then u.(sourceDeleted := u.sourceDeleted[r := true])
      else u
  }

  function Failed(s: State, f: nat, message: string): State
    requires f in s.flights
  {
    var g := s.flights[f].segment;
    var t := s.(flights := s.flights - {f});
    if g in s.segments
    then t.(segments := t.segments[g := t.segments[g].(status := PublishFailed, error := Some(message))])
    else t
  }

  function DeleteReply(s: State, r: nat, removed: bool): Reply {
    if r !in s.sourceDeleted then Missing404
    else if s.sourceDeleted[r] || !HasSegments(s.segments, r) || !AllPublished(s.segments, r) then Conflict409
    else if !removed then Failed500
    else Deleted204
  }

  predicate Enabled(s: State, a: Action) {
    match a
    case CreateRecording(r) => r !in s.issued
    case CreateSegment(g, r) => g !in s.segments && r in s.sourceDeleted
    case Start(f, _) => f !in s.flights
    case Finish(f, _, _) => f in s.flights
    case Fail(f, _) => f in s.flights
    case _ => true
  }

  function Step(s: State, a: Action): State
    requires Enabled(s, a)
  {
    match a
    case CreateRecording(r) => s.(sourceDeleted := s.sourceDeleted[r := false], issued := s.issued + {r})
    case DropRecording(r) => s.(sourceDeleted := s.sourceDeleted - {r})
    case CreateSegment(g, r) => s.(segments := s.segments[g := Segment(r, Draft, None)])
    case DropSegment(g) => s.(segments := s.segments - {g})
    case Start(f, g) => Started(s, f, g)
    case Finish(f, policy, removed) => Finished(s, f, policy, removed)
    case Fail(f, message) => Failed(s, f, message)
    case DeleteSource(r, removed) =>
      if DeleteReply(s, r, removed) == Deleted204 then s.(sourceDeleted := s.sourceDeleted[r := true]) else s
    case Crash => s.(flights := map[])
  }

  // ---------------------------------------------------------------- the invariant

  /** No second publish of a segment in flight, and no deletion of a segment in flight. */
  ghost predicate Disciplined(s: State, a: Action) {
    match a
    case Start(_, g) => forall f :: f in s.flights ==> s.flights[f].segment != g
    case DropSegment(g) => forall f :: f in s.flights ==> s.flights[f].segment != g
    case _ => true
  }

  ghost predicate Inv(s: State) {
    && s.sourceDeleted.Keys <= s.issued
    && (forall f :: f in s.flights ==>
          && s.flights[f].segment in s.segments
          && s.segments[s.flights[f].segment].status == Publishing
          && s.segments[s.flights[f].segment].recording == s.flights[f].recording)
    && (forall f, h :: f in s.flights && h in s.flights && f != h ==> s.flights[f].segment != s.flights[h].segment)
  }

  /** The row's status is a guard a caller can check. */
  lemma StatusIsAGuard(s: State, g: nat)
    requires Inv(s) && g in s.segments && s.segments[g].status != Publishing
    ensures forall f :: Disciplined(s, Start(f, g))
    ensures Disciplined(s, DropSegment(g))
  {
    assert forall f :: f in s.flights ==> s.flights[f].segment != g;
  }

  lemma StepKeepsInv(s: State, a: Action)
    requires Inv(s) && Enabled(s, a) && Disciplined(s, a)
    ensures Inv(Step(s, a))
  {}

  ghost predicate Legal(s: State, run: seq<Action>)
    decreases run
  {
    run == [] || (Enabled(s, run[0]) && Disciplined(s, run[0]) && Legal(Step(s, run[0]), run[1..]))
  }

  ghost function After(s: State, run: seq<Action>): State
    requires Legal(s, run)
    decreases run
  {
    if run == [] then s else After(Step(s, run[0]), run[1..])
  }

  // ---------------------------------------------------------- source-deletion safety

  ghost predicate Cutting(s: State, r: nat) {
    exists f :: f in s.flights && s.flights[f].recording == r
  }

  ghost predicate IsDeleted(s: State, r: nat) {
    r in s.sourceDeleted && s.sourceDeleted[r]
  }

  lemma NoCutWhenAllPublished(s: State, r: nat)
    requires Inv(s) && AllPublished(s.segments, r)
    ensures !Cutting(s, r)
  {}

  /** Over one step, by either route. */
  lemma DeletionStepIsSafe(s: State, a: Action, r: nat)
    requires Inv(s) && Enabled(s, a) && Disciplined(s, a)
    requires !IsDeleted(s, r) && IsDeleted(Step(s, a), r)
    ensures var t := Step(s, a); HasSegments(t.segments, r) && AllPublished(t.segments, r) && !Cutting(t, r)
  {
    StepKeepsInv(s, a);
    var t := Step(s, a);
    if a.Finish? {
      assert t.segments[s.flights[a.f].segment].recording == r;
    }
    NoCutWhenAllPublished(t, r);
  }

  /** A segment is published only by the end of its own publish, and failed only by its failure, with its message. */
  lemma OnlyItsOwnPublishDecides(s: State, a: Action, g: nat)
    requires Inv(s) && Enabled(s, a) && g in s.segments && g in Step(s, a).segments
    requires Step(s, a).segments[g].status != s.segments[g].status
    ensures match Step(s, a).segments[g].status
            case Draft => false
            case Publishing => a.Start? && a.g == g
            case Published => a.Finish? && s.flights[a.f].segment == g && s.segments[g].status == Publishing
            case PublishFailed => a.Fail? && s.flights[a.f].segment == g && Step(s, a).segments[g].error == Some(a.message)
  {}

  /** The last publish deletes the source exactly when it is wanted, possible, and all other segments are published. */
  lemma LastPublishDeletesIff(s: State, f: nat, policy: Policy, removed: bool)
    requires Inv(s) && f in s.flights && s.flights[f].recording in s.sourceDeleted && !s.sourceDeleted[s.flights[f].recording]
    ensures IsDeleted(Step(s, Finish(f, policy, removed)), s.flights[f].recording)
       <==> removed && (if policy.watcher.Some? then policy.watcher.value else policy.setting)
            && forall x :: x in s.segments && x != s.flights[f].segment && s.segments[x].recording == s.flights[f].recording ==>
                 s.segments[x].status == Published
  {
    var g, r := s.flights[f].segment, s.flights[f].recording;
    var after := s.segments[g := s.segments[g].(status := Published)];
    assert forall x :: x in s.segments && x != g ==> x in s.segments - {g} && after[x] == s.segments[x];
  }

  /** It never turns back: only the recording itself can go away, and its id is not reused. */
  lemma DeletedStaysDeleted(s: State, a: Action, r: nat)
    requires Inv(s) && Enabled(s, a) && r in s.issued && (r in s.sourceDeleted ==> s.sourceDeleted[r])
    ensures r in Step(s, a).issued
    ensures r in Step(s, a).sourceDeleted ==> r in s.sourceDeleted && Step(s, a).sourceDeleted[r]
  {}

  /**
    In every disciplined run from every good state: whatever step turns a
    recording's source_deleted on, the recording has segments, all are published
    and none of its publishes is still cutting; and it stays on to the end.
   */
  lemma {:induction false} SourceDeletionIsSafe(s: State, run: seq<Action>, k: nat, r: nat)
    requires Inv(s) && Legal(s, run) && k < |run|
    ensures Legal(s, run[..k]) && Legal(s, run[..k + 1])
    ensures var before, after := After(s, run[..k]), After(s, run[..k + 1]);
            && Inv(after)
            && (!IsDeleted(before, r) && IsDeleted(after, r) ==>
                  && (exists g :: g in after.segments && after.segments[g].recording == r)
                  && (forall g :: g in after.segments && after.segments[g].recording == r ==> after.segments[g].status == Published)
                  && (forall f :: f in after.flights ==> after.flights[f].recording != r))
            && (IsDeleted(after, r) ==> r !in After(s, run).sourceDeleted || IsDeleted(After(s, run), r))
    decreases run
  {
    var t := Step(s, run[0]);
    StepKeepsInv(s, run[0]);
    assert run[..k + 1][0] == run[0] && run[..k + 1][1..] == run[1..][..k];
    hide Step, Inv;
    if k == 0 {
      assert After(s, run[..1]) == After(t, []);
      if !IsDeleted(s, r) && IsDeleted(t, r) {
        DeletionStepIsSafe(s, run[0], r);
      }
      if IsDeleted(t, r) {
        KeysAreIssued(t, r);
        DeletedForGood(t, run[1..], r);
      }
    } else {
      assert run[..k][0] == run[0] && run[..k][1..] == run[1..][..k - 1];
      SourceDeletionIsSafe(t, run[1..], k - 1, r);
    }
  }

  lemma KeysAreIssued(s: State, r: nat)
    requires Inv(s) && r in s.sourceDeleted
    ensures r in s.issued
  {}

  lemma {:induction false} DeletedForGood(s: State, run: seq<Action>, r: nat)
    requires Inv(s) && Legal(s, run) && r in s.issued && (r in s.sourceDeleted ==> s.sourceDeleted[r])
    ensures var t := After(s, run); r in t.sourceDeleted ==> t.sourceDeleted[r]
    decreases run
  {
    if run == [] {
    } else {
      StepKeepsInv(s, run[0]);
      DeletedStaysDeleted(s, run[0], r);
      hide Step, Inv;
      DeletedForGood(Step(s, run[0]), run[1..], r);
    }
  }

  // ---------------------------------------------------- segments without a recording

  /** The session marks an orphan as failed, and takes that back when it raises. */
  lemma OrphanSessionIsRolledBack(s: State, f: nat, g: nat)
    requires g in s.segments && s.segments[g].recording !in s.sourceDeleted
    ensures FirstSession(s, g).segments[g].status == PublishFailed && FirstSession(s, g).raised
    ensures Started(s, f, g) == s
  {}

  lemma OrphanStep(s: State, a: Action, g: nat)
    requires Inv(s) && Enabled(s, a) && a != DropSegment(g)
    requires g in s.segments && s.segments[g].recording in s.issued && s.segments[g].recording !in s.sourceDeleted
    requires forall f :: f in s.flights ==> s.flights[f].segment != g
    ensures var t := Step(s, a);
            && g in t.segments && t.segments[g] == s.segments[g]
            && s.segments[g].recording in t.issued && s.segments[g].recording !in t.sourceDeleted
            && (forall f :: f in t.flights ==> t.flights[f].segment != g)
  {
    if a.Start? && a.g == g {
      OrphanSessionIsRolledBack(s, a.f, g);
    }
  }

  /**
    A segment whose recording is gone and of which no publish is in flight keeps
    its row to the end, status and error, however often it is published: the
    failure the code writes for it is never seen.
   */
  lemma {:induction false} OrphansNeverChange(s: State, run: seq<Action>, g: nat)
    requires Inv(s) && Legal(s, run) && forall i :: 0 <= i < |run| ==> run[i] != DropSegment(g)
    requires g in s.segments && s.segments[g].recording in s.issued && s.segments[g].recording !in s.sourceDeleted
    requires forall f :: f in s.flights ==> s.flights[f].segment != g
    ensures g in After(s, run).segments && After(s, run).segments[g] == s.segments[g]
    decreases run
  {
    if run == [] {
    } else {
      StepKeepsInv(s, run[0]);
      OrphanStep(s, run[0], g);
      hide Step, Inv;
      OrphansNeverChange(Step(s, run[0]), run[1..], g);
    }
  }

  // -------------------------------------------------- what the discipline is needed for

  /**
    Two publishes of one segment, started from a good state with every other
    segment published: the first to finish deletes the source under the second.
   */
  lemma SecondPublishLosesItsSource(s: State, f: nat, h: nat, g: nat, policy: Policy)
    requires Inv(s) && f !in s.flights && h !in s.flights && f != h && g in s.segments && Wants(policy)
    requires var r := s.segments[g].recording;
             r in s.sourceDeleted && !s.sourceDeleted[r] && AllPublished(s.segments - {g}, r)
    ensures var r := s.segments[g].recording;
            var both := Step(Step(s, Start(f, g)), Start(h, g));
            && Enabled(both, Finish(f, policy, true))
            && IsDeleted(Step(both, Finish(f, policy, true)), r) && Cutting(Step(both, Finish(f, policy, true)), r)
  {
    var both := Step(Step(s, Start(f, g)), Start(h, g));
    assert both.flights[f] == both.flights[h] == Flight(g, s.segments[g].recording);
    assert forall x :: x in both.segments && x != g ==> x in s.segments - {g} && both.segments[x] == s.segments[x];
    DeletedUnderACut(both, f, h, policy);
  }

  /** Whatever else is in flight: the end of one publish deletes the source under another of the same recording. */
  lemma DeletedUnderACut(s: State, f: nat, h: nat, policy: Policy)
    requires f in s.flights && h in s.flights && f != h && s.flights[f].recording == s.flights[h].recording
    requires var g, r := s.flights[f].segment, s.flights[f].recording;
             && g in s.segments && s.segments[g].recording == r
             && r in s.sourceDeleted && !s.sourceDeleted[r] && Wants(policy)
             && forall x :: x in s.segments && x != g && s.segments[x].recording == r ==> s.segments[x].status == Published
    ensures var t := Step(s, Finish(f, policy, true));
            IsDeleted(t, s.flights[f].recording) && Cutting(t, s.flights[f].recording)
  {
    var t := Step(s, Finish(f, policy, true));
    assert h in t.flights;
  }

  /** Deleting a segment in flight: the other segments' last publish, or the manual route, deletes under it. */
  lemma DroppedSegmentLosesItsSource(s: State, f: nat)
    requires f in s.flights && s.flights[f].segment in s.segments
    requires var g, r := s.flights[f].segment, s.flights[f].recording;
             && s.segments[g].recording == r
             && r in s.sourceDeleted && !s.sourceDeleted[r]
             && HasSegments(s.segments - {g}, r) && AllPublished(s.segments - {g}, r)
    ensures var r := s.flights[f].recording;
            var t := Step(Step(s, DropSegment(s.flights[f].segment)), DeleteSource(r, true));
            IsDeleted(t, r) && Cutting(t, r)
  {
    var t := Step(s, DropSegment(s.flights[f].segment));
    assert f in t.flights;
  }
}

/** The publisher and the manual route in their own form. */
module Publisher {
  import opened Wrappers
  import opened PublisherSpec

  class PublishWorker {
    var segments: map<nat, Segment>
    var sourceDeleted: map<nat, bool>
    ghost var issued: set<nat>
    var flights: map<nat, Flight>

    ghost function Abs(): State
      reads this
    {
      State(segments, sourceDeleted, issued, flights)
    }

    /** publish() up to its first await. */
    method Begin(f: nat, g: nat) returns (r: Result<(), string>)
      requires Enabled(Abs(), Start(f, g))
      modifies this
      ensures Abs() == Step(old(Abs()), Start(f, g))
      ensures r.Ok? <==> g in old(segments) && old(segments)[g].recording in old(sourceDeleted)
      ensures old(Inv(Abs())) && Disciplined(old(Abs()), Start(f, g)) ==> Inv(Abs())
    {
      KeepsInv(Start(f, g));
      hide Inv;
      if g !in segments {
        return Err("segment not found");
      }
      var rec := segments[g].recording;
      var working := segments[g := segments[g].(status := Publishing, error := None)];
      if rec !in sourceDeleted {
        working := working[g := working[g].(status := PublishFailed, error := Some("recording missing"))];
        LeaveSession(working, true);
        return Err("recording not found");
      }
      LeaveSession(working, false);
      flights := flights[f := Flight(g, rec)];
      return Ok(());
    }

    /** Database.session() on the way out: commit, or roll back and let the exception through. */
    method LeaveSession(working: map<nat, Segment>, raised: bool)
      modifies this`segments
      ensures segments == Closed(old(segments), Session(working, raised))
    {
      if !raised {
        segments := working;
      }
    }

    /** The clip is cut and Emby is told. */
    method Land(f: nat, policy: Policy, removed: bool)
      requires Enabled(Abs(), Finish(f, policy, removed))
      modifies this
      ensures Abs() == Step(old(Abs()), Finish(f, policy, removed))
      ensures old(Inv(Abs())) ==> Inv(Abs())
      ensures old(Inv(Abs())) ==> forall h :: h in flights && !IsDeleted(old(Abs()), flights[h].recording) ==>
                !IsDeleted(Abs(), flights[h].recording)
    {
      KeepsInv(Finish(f, policy, removed));
      hide Inv;
      var g := flights[f].segment;
      flights := flights - {f};
      if g in segments {
        segments := segments[g := segments[g].(status := Published)];
        var rec := segments[g].recording;
        if rec in sourceDeleted && !sourceDeleted[rec] {
          var all := EverySegmentPublished(rec);
          if all {
            var delete := policy.setting;
            if policy.watcher.Some? {
              delete := policy.watcher.value;
            }
            if delete && removed {
              sourceDeleted := sourceDeleted[rec := true];
            }
          }
        }
      }
    }

    method EverySegmentPublished(rec: nat) returns (all: bool)
      ensures all == AllPublished(segments, rec)
    {
      var todo := segments.Keys;
      while todo != {}
        invariant todo <= segments.Keys
        invariant forall g :: g in segments && g !in todo && segments[g].recording == rec ==> segments[g].status == Published
        decreases todo
      {
        var g :| g in todo;
        if segments[g].recording == rec && segments[g].status != Published {
          return false;
        }
        todo := todo - {g};
      }
      return true;
    }

    method Abort(f: nat, message: string)
      requires Enabled(Abs(), Fail(f, message))
      modifies this
      ensures Abs() == Step(old(Abs()), Fail(f, message))
      ensures old(Inv(Abs())) ==> Inv(Abs())
    {
      KeepsInv(Fail(f, message));
      hide Inv;
      var g := flights[f].segment;
      flights := flights - {f};
      if g in segments {
        segments := segments[g := segments[g].(status := PublishFailed, error := Some(message))];
      }
    }

    /** DELETE /recordings/{id}/source. */
    method RemoveSource(r: nat, removed: bool) returns (reply: Reply)
      modifies this
      ensures reply == DeleteReply(old(Abs()), r, removed)
      ensures Abs() == Step(old(Abs()), DeleteSource(r, removed))
      ensures old(Inv(Abs())) ==> Inv(Abs())
      ensures old(Inv(Abs())) && reply == Deleted204 ==> forall h :: h in flights ==> flights[h].recording != r
    {
      KeepsInv(DeleteSource(r, removed));
      hide Inv;
      if r !in sourceDeleted {
        return Missing404;
      }
      if sourceDeleted[r] {
        return Conflict409;
      }
      if !exists g :: g in segments && segments[g].recording == r {
        return Conflict409;
      }
      var all := EverySegmentPublished(r);
      if !all {
        return Conflict409;
      }
      if !removed {
        return Failed500;
      }
      sourceDeleted := sourceDeleted[r := true];
      return Deleted204;
    }

    /** What the invariant makes of a disciplined step: it is kept, and no source goes under a cut. */
    lemma KeepsInv(a: Action)
      requires Enabled(Abs(), a)
      ensures Inv(Abs()) && Disciplined(Abs(), a) ==>
                && Inv(Step(Abs(), a))
                && forall h, r :: !IsDeleted(Abs(), r) && IsDeleted(Step(Abs(), a), r) && h in Step(Abs(), a).flights ==>
                     Step(Abs(), a).flights[h].recording != r
    {
      if Inv(Abs()) && Disciplined(Abs(), a) {
        StepKeepsInv(Abs(), a);
        hide Inv, Step;
        forall h, r | !IsDeleted(Abs(), r) && IsDeleted(Step(Abs(), a), r) && h in Step(Abs(), a).flights
          ensures Step(Abs(), a).flights[h].recording != r
        {
          DeletionStepIsSafe(Abs(), a, r);
        }
      }
    }
  }
}
