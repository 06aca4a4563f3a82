/**
  The discipline of the publisher cannot be relaxed: every step against it, on a
  recording whose source is still there, has a disciplined continuation that
  deletes the source under a cut.
 */
module PublisherNecessity {
  import opened Wrappers
  import opened PublisherSpec

  const KEEP := Policy(Some(false), false)
  const DELETE := Policy(Some(true), true)

  lemma {:induction false} RunsCompose(s: State, a: seq<Action>, b: seq<Action>)
    requires Legal(s, a) && Legal(After(s, a), b)
    ensures Legal(s, a + b) && After(s, a + b) == After(After(s, a), b)
    decreases a
  {
    if a == [] {
      assert a + b == b;
    } else {
      assert (a + b)[0] == a[0] && (a + b)[1..] == a[1..] + b;
      hide Step, Enabled, Disciplined;
      RunsCompose(Step(s, a[0]), a[1..], b);
    }
  }

  lemma {:induction false} UpperBound(ids: set<nat>) returns (n: nat)
    ensures forall id :: id in ids ==> id < n
  {
    if ids == {} {
      n := 0;
    } else {
      var id :| id in ids;
      var m := UpperBound(ids - {id});
      n := if id < m then m else id + 1;
      assert forall x :: x in ids ==> x == id || x in ids - {id};
    }
  }

  /** Only segment x may differ, and of the flights only those of x. */
  ghost predicate OnlyTouches(s: State, t: State, x: nat) {
    && t.sourceDeleted == s.sourceDeleted
    && t.segments.Keys == s.segments.Keys
    && (forall y :: y in s.segments ==> t.segments[y].recording == s.segments[y].recording)
    && (forall y :: y in s.segments && y != x ==> t.segments[y] == s.segments[y])
    && (forall f :: f in s.flights && s.flights[f].segment != x ==> f in t.flights && t.flights[f] == s.flights[f])
  }

  /** A segment can always be brought to published, without a deletion and without disturbing the others. */
  lemma CanPublish(s: State, x: nat) returns (run: seq<Action>)
    requires x in s.segments && s.segments[x].recording in s.sourceDeleted
    ensures Legal(s, run) && OnlyTouches(s, After(s, run), x) && After(s, run).segments[x].status == Published
  {
    if f :| f in s.flights && s.flights[f].segment == x {
      run := [Finish(f, KEEP, false)];
      OneStep(s, run[0]);
    } else {
      var f := UpperBound(s.flights.Keys);
      assert f !in s.flights;
      run := [Start(f, x), Finish(f, KEEP, false)];
      TwoSteps(s, run[0], run[1]);
    }
  }

  lemma OneStep(s: State, a: Action)
    requires Enabled(s, a) && Disciplined(s, a)
    ensures Legal(s, [a]) && After(s, [a]) == Step(s, a)
  {
    hide Step, Enabled, Disciplined;
    assert [a][1..] == [];
    assert Legal(Step(s, a), []) && After(Step(s, a), []) == Step(s, a);
  }

  lemma TwoSteps(s: State, a: Action, b: Action)
    requires Enabled(s, a) && Disciplined(s, a) && Enabled(Step(s, a), b) && Disciplined(Step(s, a), b)
    ensures Legal(s, [a, b]) && After(s, [a, b]) == Step(Step(s, a), b)
  {
    hide Step, Enabled, Disciplined;
    assert [a, b][1..] == [b];
    OneStep(Step(s, a), b);
  }

  ghost function Unpublished(s: State, r: nat, but: nat): set<nat> {
    set x | x in s.segments && s.segments[x].recording == r && x != but && s.segments[x].status != Published
  }

  /** Every segment of a recording but one can be brought to published, and that one's flights go on. */
  lemma {:induction false} CanPublishAllBut(s: State, r: nat, g: nat) returns (run: seq<Action>)
    requires r in s.sourceDeleted
    ensures Legal(s, run) && Unpublished(After(s, run), r, g) == {}
    ensures OnlyOthersMoved(s, After(s, run), g)
    decreases |Unpublished(s, r, g)|
  {
    if Unpublished(s, r, g) == {} {
      run := [];
    } else {
      var x :| x in Unpublished(s, r, g);
      var first := CanPublish(s, x);
      var t := After(s, first);
      assert Unpublished(t, r, g) == Unpublished(s, r, g) - {x};
      var rest := CanPublishAllBut(t, r, g);
      run := first + rest;
      RunsCompose(s, first, rest);
      hide Legal, After;
      ThenOthersMoved(s, t, After(t, rest), x, g);
    }
  }

  /** Sources and owners are as before, and so are segment g and its flights. */
  ghost predicate OnlyOthersMoved(s: State, t: State, g: nat) {
    && t.sourceDeleted == s.sourceDeleted
    && t.segments.Keys == s.segments.Keys
    && (forall y :: y in s.segments ==> t.segments[y].recording == s.segments[y].recording)
    && (g in s.segments ==> t.segments[g] == s.segments[g])
    && (forall f :: f in s.flights && s.flights[f].segment == g ==> f in t.flights && t.flights[f] == s.flights[f])
  }

  lemma ThenOthersMoved(s: State, t: State, u: State, x: nat, g: nat)
    requires x != g && OnlyTouches(s, t, x) && OnlyOthersMoved(t, u, g)
    ensures OnlyOthersMoved(s, u, g)
  {}

  /** A second publish of a segment in flight. */
  lemma SecondStartCanLoseTheSource(s: State, f: nat, h: nat, g: nat) returns (run: seq<Action>)
    requires Inv(s) && f in s.flights && s.flights[f].segment == g && h !in s.flights
    requires var r := s.segments[g].recording; r in s.sourceDeleted && !s.sourceDeleted[r]
    ensures var r, t := s.segments[g].recording, Step(s, Start(h, g));
            Legal(t, run) && IsDeleted(After(t, run), r) && Cutting(After(t, run), r)
  {
    var r, t := s.segments[g].recording, Step(s, Start(h, g));
    assert t.flights[f] == t.flights[h] == Flight(g, r);
    var others := CanPublishAllBut(t, r, g);
    var u := After(t, others);
    assert forall x :: x in u.segments && x != g && u.segments[x].recording == r && u.segments[x].status != Published ==>
             x in Unpublished(u, r, g);
    DeletedUnderACut(u, f, h, DELETE);
    OneStep(u, Finish(f, DELETE, true));
    RunsCompose(t, others, [Finish(f, DELETE, true)]);
    run := others + [Finish(f, DELETE, true)];
  }

  /** The deletion of a segment in flight. */
  lemma DropCanLoseTheSource(s: State, f: nat, g: nat) returns (run: seq<Action>)
    requires Inv(s) && f in s.flights && s.flights[f].segment == g
    requires var r := s.segments[g].recording; r in s.sourceDeleted && !s.sourceDeleted[r]
    ensures var r, t := s.segments[g].recording, Step(s, DropSegment(g));
            Legal(t, run) && IsDeleted(After(t, run), r) && Cutting(After(t, run), r)
  {
    var r, t := s.segments[g].recording, Step(s, DropSegment(g));
    var x := UpperBound(t.segments.Keys + {g});
    OneStep(t, CreateSegment(x, r));
    var t1 := Step(t, CreateSegment(x, r));
    var others := CanPublishAllBut(t1, r, g);
    var u := After(t1, others);
    assert u.segments[x].recording == r && g !in u.segments && f in u.flights;
    assert AllPublished(u.segments, r) by {
      assert forall y :: y in u.segments && u.segments[y].recording == r && u.segments[y].status != Published ==>
               y in Unpublished(u, r, g);
    }
    OneStep(u, DeleteSource(r, true));
    RunsCompose(t1, others, [DeleteSource(r, true)]);
    RunsCompose(t, [CreateSegment(x, r)], others + [DeleteSource(r, true)]);
    run := [CreateSegment(x, r)] + (others + [DeleteSource(r, true)]);
  }

  /** The recording a step against the discipline is about. */
  function Endangered(s: State, a: Action): Option<nat> {
    match a
    case Start(_, g) => if g in s.segments then Some(s.segments[g].recording) else None
    case DropSegment(g) => if g in s.segments then Some(s.segments[g].recording) else None
    case _ => None
  }

  /**
    From a good state, every enabled step against the discipline that concerns a
    recording with its source still there can be followed, step by disciplined
    step, to a state in which the source is deleted under a cut.
   */
  lemma UndisciplinedStepsCanLoseTheSource(s: State, a: Action)
    requires Inv(s) && Enabled(s, a) && !Disciplined(s, a)
    requires Endangered(s, a).Some? ==> Endangered(s, a).value in s.sourceDeleted && !s.sourceDeleted[Endangered(s, a).value]
    ensures Endangered(s, a).Some?
    ensures exists run :: Legal(Step(s, a), run) && IsDeleted(After(Step(s, a), run), Endangered(s, a).value)
                          && Cutting(After(Step(s, a), run), Endangered(s, a).value)
  {
    var f :| f in s.flights && s.flights[f].segment == a.g;
    var run;
    if a.Start? {
      run := SecondStartCanLoseTheSource(s, f, a.f, a.g);
    } else {
      run := DropCanLoseTheSource(s, f, a.g);
    }
  }
}
