/**
  Pasted setlists: the line grammar as a relation, the matcher as a scan from
  left to right, and printing with the review page's time format.
 */
module SetlistText {
  import opened Wrappers
  import opened Decimals
  import opened SetlistChars

  datatype Entry = Entry(artist: string, start: int, end: int)

  // ----------------------------------------------------------------- strings

  predicate AllSpace(s: string) {
    forall i :: 0 <= i < |s| ==> IsSpace(s[i])
  }

  predicate AllClockChars(s: string) {
    forall i :: 0 <= i < |s| ==> IsClockChar(s[i])
  }

  function TakeSpaces(s: string): (c: Cut)
    ensures c.taken + c.rest == s && AllSpace(c.taken)
    ensures c.rest != "" ==> !IsSpace(c.rest[0])
  {
    if s != "" && IsSpace(s[0]) then
      var c := TakeSpaces(s[1..]);
      SpaceInFront(s[0], c.taken, c.rest);
      assert [s[0]] + s[1..] == s;
      Cut([s[0]] + c.taken, c.rest)
    else Cut("", s)
  }

  lemma SpaceInFront(c: char, taken: string, rest: string)
    requires IsSpace(c) && AllSpace(taken)
    ensures AllSpace([c] + taken) && [c] + taken + rest == [c] + (taken + rest)
  {
    hide IsSpace;
  }

  function DropTrailingSpaces(s: string): (r: string)
    ensures |r| <= |s| && r == s[..|r|] && AllSpace(s[|r|..])
    ensures r != "" ==> !IsSpace(r[|r| - 1])
  {
    if s != "" && IsSpace(s[|s| - 1]) then
      var r := DropTrailingSpaces(s[..|s| - 1]);
      SpacesToTheEnd(s, |r|);
      r
    else s
  }

  lemma SpacesToTheEnd(s: string, k: nat)
    requires k < |s| && IsSpace(s[|s| - 1]) && AllSpace(s[..|s| - 1][k..])
    ensures AllSpace(s[k..])
  {
    hide IsSpace;
    var t := s[..|s| - 1][k..];
    assert forall i :: 0 <= i < |t| ==> s[k..][i] == t[i];
  }

  function Strip(s: string): string {
    DropTrailingSpaces(TakeSpaces(s).rest)
  }

  predicate Trimmed(s: string) {
    s != "" ==> !IsSpace(s[0]) && !IsSpace(s[|s| - 1])
  }

  // ------------------------------------------------------- the grammar of a line

  /** `\d{1,2}:\d{2}(?::\d{2})?` */
  predicate IsClock(t: string) {
    var m := if |t| >= 2 && t[1] == ':' then 1 else 2;
    && (|t| == m + 3 || |t| == m + 6)
    && IsDigit(t[0]) && IsDigit(t[m - 1]) && t[m] == ':' && IsDigit(t[m + 1]) && IsDigit(t[m + 2])
    && (|t| == m + 6 ==> t[m + 3] == ':' && IsDigit(t[m + 4]) && IsDigit(t[m + 5]))
  }

  predicate IsDash(d: string) {
    d == [EN_DASH] || d == "-" || d == "to"
  }

  /** One way to read what follows the artist, piece by piece as in the pattern. */
  datatype Reading = Reading(w1: string, sep: char, w2: string, start: string, w3: string,
                             dash: string, w4: string, end: string, w5: string)
  {
    function Text(): string {
      w1 + ([sep] + (w2 + (start + (w3 + (dash + (w4 + (end + w5)))))))
    }

    predicate Valid() {
      && AllSpace(w1) && IsSeparator(sep) && AllSpace(w2) && IsClock(start) && AllSpace(w3)
      && IsDash(dash) && AllSpace(w4) && IsClock(end) && AllSpace(w5)
    }
  }

  // ------------------------------------------------------------------ the matcher

  /** The longest time at the head of s. */
  function TakeClock(s: string): (c: Option<Cut>)
    ensures c.Some? ==> c.value.taken + c.value.rest == s && IsClock(c.value.taken)
  {
    var m := if |s| >= 2 && s[1] == ':' then 1 else 2;
    if |s| >= m + 3 && IsDigit(s[0]) && IsDigit(s[m - 1]) && s[m] == ':' && IsDigit(s[m + 1]) && IsDigit(s[m + 2]) then
      if |s| >= m + 6 && s[m + 3] == ':' && IsDigit(s[m + 4]) && IsDigit(s[m + 5])
      then Some(Cut(s[..m + 6], s[m + 6..])) else Some(Cut(s[..m + 3], s[m + 3..]))
    else None
  }

  function TakeDash(s: string): (c: Option<Cut>)
    ensures c.Some? ==> c.value.taken + c.value.rest == s && IsDash(c.value.taken)
  {
    if s != "" && (s[0] == EN_DASH || s[0] == '-') then Some(Cut(s[..1], s[1..]))
    else if |s| >= 2 && s[..2] == "to" then Some(Cut(s[..2], s[2..]))
    else None
  }

  /** From the start time on. */
  function MatchTimes(w1: string, sep: char, w2: string, s: string): Option<Reading> {
    var start := TakeClock(s);
    if start.None? then None else
      var w3 := TakeSpaces(start.value.rest);
      var dash := TakeDash(w3.rest);
      if dash.None? then None else
        var w4 := TakeSpaces(dash.value.rest);
        var end := TakeClock(w4.rest);
        if end.None? then None else
          var w5 := TakeSpaces(end.value.rest);
          if w5.rest != "" then None else
            Some(Reading(w1, sep, w2, start.value.taken, w3.taken, dash.value.taken, w4.taken,
                         end.value.taken, w5.taken))
  }

  function MatchRest(s: string): Option<Reading> {
    var w1 := TakeSpaces(s);
    if w1.rest == "" || !IsSeparator(w1.rest[0]) then None else
      var w2 := TakeSpaces(w1.rest[1..]);
      MatchTimes(w1.taken, w1.rest[0], w2.taken, w2.rest)
  }

  /** The lazily shortest artist, of at least n characters, that leaves a rest that matches. */
  function MatchFrom(line: string, n: nat): Option<(string, Reading)>
    requires n <= |line|
    decreases |line| - n
  {
    var rest := MatchRest(line[n..]);
    if rest.Some? then Some((line[..n], rest.value))
    else if n == |line| then None
    else MatchFrom(line, n + 1)
  }

  /** The line pattern applied to a stripped, non-empty line. */
  function MatchLine(line: string): Option<(string, Reading)>
    requires line != ""
  {
    MatchFrom(line, 1)
  }

  // ------------------------------------------- the matcher finds what the pattern says

  lemma MatchRestIsSound(s: string)
    requires MatchRest(s).Some?
    ensures MatchRest(s).value.Valid() && MatchRest(s).value.Text() == s
  {
    hide IsSpace, IsDigit, IsClock, IsDash, AllSpace, TakeSpaces, TakeClock, TakeDash;
    var w1 := TakeSpaces(s);
    assert w1.rest == [w1.rest[0]] + w1.rest[1..];
    var w5 := TakeSpaces(TakeClock(TakeSpaces(TakeDash(TakeSpaces(TakeClock(
      TakeSpaces(w1.rest[1..]).rest).value.rest).rest).value.rest).rest).value.rest);
    assert w5.taken + "" == w5.taken;
  }

  lemma {:induction false} TakesExactly(w: string, rest: string)
    requires AllSpace(w) && (rest != "" ==> !IsSpace(rest[0]))
    ensures TakeSpaces(w + rest) == Cut(w, rest)
  {
    hide IsSpace;
    if w == "" {
      assert w + rest == rest;
    } else {
      assert (w + rest)[1..] == w[1..] + rest;
      TakesExactly(w[1..], rest);
    }
  }

  /** A time is read to its end when neither a colon nor a digit follows. */
  lemma TakesWholeClock(t: string, rest: string)
    requires IsClock(t) && (rest != "" ==> !IsClockChar(rest[0]))
    ensures TakeClock(t + rest) == Some(Cut(t, rest))
  {
    hide IsDigit;
    var s := t + rest;
    assert forall i :: 0 <= i < |t| ==> s[i] == t[i];
    assert rest != "" ==> s[|t|] == rest[0];
    assert s[..|t|] == t && s[|t|..] == rest;
  }

  lemma TakesDash(d: string, rest: string)
    requires IsDash(d)
    ensures TakeDash(d + rest) == Some(Cut(d, rest))
  {
    var s := d + rest;
    assert s[..|d|] == d && s[|d|..] == rest;
  }

  lemma ClockEnds(t: string)
    requires IsClock(t)
    ensures t != "" && !IsSpace(t[0]) && !IsSpace(t[|t| - 1]) && AllClockChars(t)
  {
    SpacesAreNotDigits(t[0]);
    SpacesAreNotDigits(t[|t| - 1]);
    hide IsDigit, IsSpace;
  }

  lemma DashEnds(d: string)
    requires IsDash(d)
    ensures d != "" && !IsSpace(d[0]) && !IsClockChar(d[0])
    ensures !IsSpace(d[|d| - 1]) && !IsClockChar(d[|d| - 1])
  {
    MarksAreNotDigits(d[0]);
    MarksAreNotDigits(d[|d| - 1]);
    hide IsSpace, IsDigit;
  }

  lemma NoClockCharAhead(w: string, rest: string)
    requires AllSpace(w) && (rest != "" ==> !IsClockChar(rest[0]))
    ensures w + rest != "" ==> !IsClockChar((w + rest)[0])
  {
    if w != "" {
      SpacesAreNotDigits(w[0]);
    }
    hide IsSpace, IsDigit;
  }

  /** The end time and the white space after it. */
  lemma EndIsRead(w4: string, end: string, w5: string)
    requires AllSpace(w4) && IsClock(end) && AllSpace(w5)
    ensures TakeSpaces(w4 + (end + w5)) == Cut(w4, end + w5)
    ensures TakeClock(end + w5) == Some(Cut(end, w5)) && TakeSpaces(w5) == Cut(w5, "")
  {
    ClockEnds(end);
    hide IsSpace, IsDigit, IsClock, AllSpace, TakeSpaces, TakeClock;
    TakesExactly(w4, end + w5);
    assert w5 + "" == w5;
    NoClockCharAhead(w5, "");
    TakesWholeClock(end, w5);
    TakesExactly(w5, "");
  }

  /** The start time, the white space after it and the dash. */
  lemma StartIsRead(start: string, w3: string, dash: string, rest: string)
    requires IsClock(start) && AllSpace(w3) && IsDash(dash)
    ensures TakeClock(start + (w3 + (dash + rest))) == Some(Cut(start, w3 + (dash + rest)))
    ensures TakeSpaces(w3 + (dash + rest)) == Cut(w3, dash + rest)
    ensures TakeDash(dash + rest) == Some(Cut(dash, rest))
  {
    DashEnds(dash);
    hide IsSpace, IsDigit, IsClock, IsClockChar, IsDash, AllSpace, TakeSpaces, TakeClock, TakeDash;
    var c := dash + rest;
    assert c[0] == dash[0];
    NoClockCharAhead(w3, c);
    TakesWholeClock(start, w3 + c);
    TakesExactly(w3, c);
    TakesDash(dash, rest);
  }

  lemma TimesAreRead(r: Reading)
    requires r.Valid()
    ensures MatchTimes(r.w1, r.sep, r.w2, r.start + (r.w3 + (r.dash + (r.w4 + (r.end + r.w5))))) == Some(r)
  {
    hide IsSpace, IsDigit, IsClock, IsDash, AllSpace, TakeSpaces, TakeClock, TakeDash;
    StartIsRead(r.start, r.w3, r.dash, r.w4 + (r.end + r.w5));
    EndIsRead(r.w4, r.end, r.w5);
  }

  /** Every reading is the one the matcher finds, so there is at most one. */
  lemma MatchRestIsComplete(r: Reading)
    requires r.Valid()
    ensures MatchRest(r.Text()) == Some(r)
  {
    ClockEnds(r.start);
    MarksAreNotDigits(r.sep);
    TimesAreRead(r);
    hide IsSpace, IsDigit, IsClock, IsSeparator, IsDash, AllSpace, TakeSpaces, TakeClock, TakeDash, MatchTimes;
    var b := r.start + (r.w3 + (r.dash + (r.w4 + (r.end + r.w5))));
    var a := [r.sep] + (r.w2 + b);
    TakesExactly(r.w1, a);
    assert a[1..] == r.w2 + b;
    TakesExactly(r.w2, b);
  }
}
