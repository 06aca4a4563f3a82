/**
  What becomes of a publish: a segment reads "publishing" exactly while it is
  being published, and how a publish ended stays on its row.
 */
module PublisherOutcomes {
  import opened Wrappers
  import opened PublisherSpec

  ghost predicate InFlight(s: State, g: nat) {
    exists f :: f in s.flights && s.flights[f].segment == g
  }

  /** The rows tell which publishes are in flight, and those carry no error. */
  ghost predicate Tracked(s: State) {
    && (forall g :: g in s.segments ==> (s.segments[g].status == Publishing <==> InFlight(s, g)))
    && (forall g :: g in s.segments && s.segments[g].status == Publishing ==> s.segments[g].error == None)
  }

  ghost predicate NoCrash(run: seq<Action>) {
    forall i :: 0 <= i < |run| ==> !run[i].Crash?
  }

  lemma StartKeepsTracked(s: State, f: nat, g: nat)
    requires Inv(s) && Tracked(s) && Enabled(s, Start(f, g)) && Disciplined(s, Start(f, g))
    ensures Tracked(Started(s, f, g))
  {
    var t := Started(s, f, g);
    forall x | x in t.segments
      ensures InFlight(t, x) <==> InFlight(s, x) || (x == g && t != s)
    {
      if t != s {
        assert t.flights[f].segment == g;
      }
      if h :| h in s.flights && s.flights[h].segment == x {
        assert t.flights[h].segment == x;
      }
      if h :| h in t.flights && t.flights[h].segment == x {
        assert h == f || s.flights[h].segment == x;
      }
    }
    hide InFlight;
  }

  /** When a flight ends, its segment is in flight no more, and the others are as before. */
  lemma FlightEnds(s: State, t: State, f: nat)
    requires Inv(s) && f in s.flights && t.flights == s.flights - {f}
    ensures forall x :: InFlight(t, x) <==> InFlight(s, x) && x != s.flights[f].segment
  {
    forall x
      ensures InFlight(t, x) <==> InFlight(s, x) && x != s.flights[f].segment
    {
      if h :| h in s.flights && s.flights[h].segment == x {
        assert h != f ==> t.flights[h].segment == x;
      }
      if h :| h in t.flights && t.flights[h].segment == x {
        assert s.flights[h].segment == x;
      }
    }
  }

  lemma EndRow(s: State, a: Action)
    requires Inv(s) && Enabled(s, a) && (a.Finish? || a.Fail?)
    ensures var g, t := s.flights[a.f].segment, Step(s, a);
            && g in s.segments && g in t.segments && t.segments == s.segments[g := t.segments[g]]
            && t.segments[g].status in {Published, PublishFailed} && t.flights == s.flights - {a.f}
  {}

  lemma EndKeepsTracked(s: State, a: Action)
    requires Inv(s) && Tracked(s) && Enabled(s, a) && (a.Finish? || a.Fail?)
    ensures Tracked(Step(s, a))
  {
    EndRow(s, a);
    FlightEnds(s, Step(s, a), a.f);
    hide InFlight, Inv, Step;
  }

  lemma StepKeepsTracked(s: State, a: Action)
    requires Inv(s) && Tracked(s) && Enabled(s, a) && Disciplined(s, a) && !a.Crash?
    ensures Tracked(Step(s, a))
  {
    if a.Start? {
      StartKeepsTracked(s, a.f, a.g);
    } else if a.Finish? || a.Fail? {
      EndKeepsTracked(s, a);
    } else {
      assert Step(s, a).flights == s.flights;
      assert forall x :: InFlight(Step(s, a), x) <==> InFlight(s, x);
      NoFlightOfNewSegments(s, a);
      hide InFlight;
    }
  }

  lemma NoFlightOfNewSegments(s: State, a: Action)
    requires Inv(s)
    ensures a.CreateSegment? && a.g !in s.segments ==> !InFlight(s, a.g)
  {}

  lemma {:induction false} RunsKeepTracked(s: State, run: seq<Action>)
    requires Inv(s) && Tracked(s) && Legal(s, run) && NoCrash(run)
    ensures Inv(After(s, run)) && Tracked(After(s, run))
    decreases run
  {
    if run == [] {
    } else {
      StepKeepsInv(s, run[0]);
      StepKeepsTracked(s, run[0]);
      hide Step, Inv, Tracked;
      RunsKeepTracked(Step(s, run[0]), run[1..]);
    }
  }

  /** Nothing is being published: how the program starts when it was shut down in order. */
  ghost predicate Quiet(s: State) {
    && s.flights == map[] && s.sourceDeleted.Keys <= s.issued
    && forall g :: g in s.segments ==> s.segments[g].status != Publishing
  }

  /** In every disciplined run without a crash, a segment reads "publishing" exactly while a publish of it is in flight. */
  lemma PublishingWhileInFlight(s: State, run: seq<Action>, g: nat)
    requires Quiet(s) && Legal(s, run) && NoCrash(run) && g in After(s, run).segments
    ensures var t := After(s, run);
            t.segments[g].status == Publishing <==> exists f :: f in t.flights && t.flights[f].segment == g
  {
    assert Inv(s) && Tracked(s);
    RunsKeepTracked(s, run);
    hide Legal, After, Inv;
    assert InFlight(After(s, run), g) <==> exists f :: f in After(s, run).flights && After(s, run).flights[f].segment == g;
  }

  // ------------------------------------------------------------- how a publish ended

  /** No later publish of the segment, and no deletion of it. */
  ghost predicate LeavesAlone(run: seq<Action>, g: nat) {
    forall i :: 0 <= i < |run| ==> run[i] != DropSegment(g) && (run[i].Start? ==> run[i].g != g)
  }

  lemma RestingStep(s: State, a: Action, g: nat)
    requires Inv(s) && Enabled(s, a) && a != DropSegment(g) && (a.Start? ==> a.g != g)
    requires g in s.segments && !InFlight(s, g)
    ensures g in Step(s, a).segments && Step(s, a).segments[g] == s.segments[g] && !InFlight(Step(s, a), g)
  {}

  lemma {:induction false} RestingRun(s: State, run: seq<Action>, g: nat)
    requires Inv(s) && Legal(s, run) && LeavesAlone(run, g) && g in s.segments && !InFlight(s, g)
    ensures g in After(s, run).segments && After(s, run).segments[g] == s.segments[g]
    decreases run
  {
    if run == [] {
    } else {
      StepKeepsInv(s, run[0]);
      RestingStep(s, run[0], g);
      hide Step, Inv, InFlight;
      RestingRun(Step(s, run[0]), run[1..], g);
    }
  }

  /** A publish that failed leaves its own message on the row, through crashes too, until the next publish of that segment. */
  lemma FailureStays(s: State, f: nat, message: string, run: seq<Action>)
    requires Inv(s) && f in s.flights && Legal(Step(s, Fail(f, message)), run) && LeavesAlone(run, s.flights[f].segment)
    ensures var g, u := s.flights[f].segment, After(Step(s, Fail(f, message)), run);
            g in u.segments && u.segments[g] == Segment(s.flights[f].recording, PublishFailed, Some(message))
  {
    var t := Step(s, Fail(f, message));
    StepKeepsInv(s, Fail(f, message));
    FlightEnds(s, t, f);
    RestingRun(t, run, s.flights[f].segment);
  }

  /** And one that succeeded leaves it published, without an error. */
  lemma SuccessStays(s: State, f: nat, policy: Policy, removed: bool, run: seq<Action>)
    requires Inv(s) && Tracked(s) && f in s.flights && Legal(Step(s, Finish(f, policy, removed)), run)
    requires LeavesAlone(run, s.flights[f].segment)
    ensures var g, u := s.flights[f].segment, After(Step(s, Finish(f, policy, removed)), run);
            g in u.segments && u.segments[g] == Segment(s.flights[f].recording, Published, None)
  {
    var t := Step(s, Finish(f, policy, removed));
    StepKeepsInv(s, Finish(f, policy, removed));
    FlightEnds(s, t, f);
    RestingRun(t, run, s.flights[f].segment);
  }

  /** A crash in mid-publish leaves the segment "publishing" for good, unless it is published again. */
  lemma CrashLeavesItPublishing(s: State, f: nat, run: seq<Action>)
    requires Inv(s) && f in s.flights && Legal(Step(s, Crash), run) && LeavesAlone(run, s.flights[f].segment)
    ensures var g, u := s.flights[f].segment, After(Step(s, Crash), run);
            g in u.segments && u.segments[g].status == Publishing
  {
    StepKeepsInv(s, Crash);
    RestingRun(Step(s, Crash), run, s.flights[f].segment);
  }

  /** A publish() that does not raise marks its segment, clears its error, and is in flight. */
  lemma StartMarks(s: State, f: nat, g: nat)
    requires Enabled(s, Start(f, g)) && g in s.segments && s.segments[g].recording in s.sourceDeleted
    ensures var t, r := Step(s, Start(f, g)), s.segments[g].recording;
            t.segments == s.segments[g := Segment(r, Publishing, None)] && t.flights == s.flights[f := Flight(g, r)]
            && t.sourceDeleted == s.sourceDeleted
  {}

  // ---------------------------------------------------------------- the manual route

  /** The manual route deletes exactly when the row is there, its source too, it has segments, all are published, and the removal succeeds. */
  lemma ManualRouteIff(s: State, r: nat, removed: bool)
    ensures DeleteReply(s, r, removed) == Deleted204
       <==> && r in s.sourceDeleted && !s.sourceDeleted[r] && removed
            && (exists g :: g in s.segments && s.segments[g].recording == r)
            && (forall g :: g in s.segments && s.segments[g].recording == r ==> s.segments[g].status == Published)
    ensures DeleteReply(s, r, removed) == Missing404 <==> r !in s.sourceDeleted
    ensures DeleteReply(s, r, removed) == Failed500 <==> DeleteReply(s, r, true) == Deleted204 && !removed
    ensures Step(s, DeleteSource(r, removed))
         == if DeleteReply(s, r, removed) == Deleted204 then s.(sourceDeleted := s.sourceDeleted[r := true]) else s
  {}

  /** Segments begin as drafts, recordings with their source; and rows that are deleted take nothing with them. */
  lemma RowsComeAndGo(s: State, g: nat, r: nat)
    ensures r !in s.issued ==>
              Step(s, CreateRecording(r)) == State(s.segments, s.sourceDeleted[r := false], s.issued + {r}, s.flights)
    ensures g !in s.segments && r in s.sourceDeleted ==>
              Step(s, CreateSegment(g, r)) == State(s.segments[g := Segment(r, Draft, None)], s.sourceDeleted, s.issued, s.flights)
    ensures Step(s, DropSegment(g)) == State(s.segments - {g}, s.sourceDeleted, s.issued, s.flights)
    ensures Step(s, DropRecording(r)) == State(s.segments, s.sourceDeleted - {r}, s.issued, s.flights)
    ensures Step(s, Crash) == State(s.segments, s.sourceDeleted, s.issued, map[])
  {}
}
