/**
  Timestamped lines of a description or a comment: the line pattern as a
  relation, the matcher as a scan, and that the scan finds the reading Python's
  matcher would: the longest gap first, and then the shortest title.
 */
module SetlistStamps {
  import opened Wrappers
  import opened Decimals
  import opened SetlistChars
  import opened SetlistText

  const TITLE_LIMIT := 200

  /** `[\s\-–—•·.]` */
  predicate IsGapChar(c: char) {
    IsSpace(c) || c in "-." || c == EN_DASH || c == '\U{2014}' || c == '\U{2022}' || c == MIDDLE_DOT
  }

  predicate AllGap(s: string) {
    forall i :: 0 <= i < |s| ==> IsGapChar(s[i])
  }

  /** `\d{1,2}` */
  predicate IsShort(s: string) {
    1 <= |s| <= 2 && AllDigits(s)
  }

  function Seconds(sec: string): string {
    if sec == "" then "" else ":" + sec
  }

  /** The line up to the gap, and what follows; no seconds are the empty string. */
  datatype Head = Head(w: string, open: string, h: string, m: string, sec: string, close: string, rest: string)
  {
    function Text(): string {
      w + (open + (h + (":" + (m + (Seconds(sec) + (close + rest))))))
    }

    predicate Valid() {
      && AllSpace(w) && open in {"", "["} && IsShort(h) && IsShort(m) && (sec == "" || IsShort(sec)) && close in {"", "]"}
      && rest != "" && IsGapChar(rest[0])
    }
  }

  datatype Body = Body(gap: string, title: string, tail: string)
  {
    function Text(): string {
      gap + (title + tail)
    }

    predicate Valid() {
      gap != "" && AllGap(gap) && 1 <= |title| <= TITLE_LIMIT && AllSpace(tail)
    }

    /** The order in which the alternatives of a body are tried. */
    predicate Before(other: Body) {
      |gap| > |other.gap| || (|gap| == |other.gap| && |title| <= |other.title|)
    }
  }

  // ------------------------------------------------------------------ the matcher

  function TakeIf(s: string, c: char): (r: Cut)
    ensures r.taken + r.rest == s && r.taken in {"", [c]}
  {
    if s != "" && s[0] == c then Cut([c], s[1..]) else Cut("", s)
  }

  function TakeShort(s: string): (r: Option<Cut>)
    ensures r.Some? ==> r.value.taken + r.value.rest == s && IsShort(r.value.taken)
  {
    var c := TakeDigits(s);
    if 1 <= |c.taken| <= 2 then Some(c) else None
  }

  /** The seconds: nothing, or a colon and one or two digits. */
  function TakeSeconds(s: string): (r: Option<Cut>)
    ensures r.Some? ==> Seconds(r.value.taken) + r.value.rest == s && (r.value.taken == "" || IsShort(r.value.taken))
  {
    if s == "" || s[0] != ':' then Some(Cut("", s))
    else
      var c := TakeShort(s[1..]);
      assert c.Some? ==> ":" + c.value.taken + c.value.rest == ":" + (c.value.taken + c.value.rest) == s;
      c
  }

  function MatchTime(w: string, open: string, s: string): Option<Head> {
    var h := TakeShort(s);
    if h.None? || h.value.rest == "" || h.value.rest[0] != ':' then None else
      var m := TakeShort(h.value.rest[1..]);
      if m.None? then None else
        var sec := TakeSeconds(m.value.rest);
        if sec.None? then None else
          var close := TakeIf(sec.value.rest, ']');
          if close.rest == "" || !IsGapChar(close.rest[0]) then None
          else Some(Head(w, open, h.value.taken, m.value.taken, sec.value.taken, close.taken, close.rest))
  }

  function MatchHead(line: string): Option<Head> {
    var w := TakeSpaces(line);
    var open := TakeIf(w.rest, '[');
    MatchTime(w.taken, open.taken, open.rest)
  }

  function GapLength(s: string): (n: nat)
    ensures n <= |s| && AllGap(s[..n]) && (n < |s| ==> !IsGapChar(s[n]))
  {
    if s == "" || !IsGapChar(s[0]) then 0 else
      var n := GapLength(s[1..]);
      assert s[..n + 1] == [s[0]] + s[1..][..n];
      n + 1
  }

  /** The whole gap and the trimmed rest; if there is no rest, the gap gives its last character to the title. */
  function MatchBody(s: string): Option<Body> {
    var n := GapLength(s);
    if n == |s| then if n >= 2 then Some(Body(s[..n - 1], s[n - 1..], "")) else None
    else if n == 0 then None
    else
      var title := DropTrailingSpaces(s[n..]);
      if |title| > TITLE_LIMIT then None else Some(Body(s[..n], title, s[n..][|title|..]))
  }

  /** The line pattern applied to a line, which holds no line break. */
  function MatchStamp(line: string): Option<(Head, Body)> {
    var head := MatchHead(line);
    if head.None? then None else
      var body := MatchBody(head.value.rest);
      if body.None? then None else Some((head.value, body.value))
  }

  // ------------------------------------------- the matcher finds what the pattern says

  lemma HeadIsSound(line: string)
    requires MatchHead(line).Some?
    ensures MatchHead(line).value.Valid() && MatchHead(line).value.Text() == line
  {
    hide IsSpace, IsDigit, IsGapChar, IsShort, AllSpace, TakeSpaces, TakeShort, TakeSeconds, TakeIf, Seconds;
    var w := TakeSpaces(line);
    var open := TakeIf(w.rest, '[');
    var h := TakeShort(open.rest).value;
    assert h.rest == ":" + h.rest[1..];
  }

  lemma ShortIsRead(digits: string, rest: string)
    requires IsShort(digits) && (rest != "" ==> !IsDigit(rest[0]))
    ensures TakeShort(digits + rest) == Some(Cut(digits, rest))
  {
    hide IsDigit;
    TakesAllDigits(digits, rest);
  }

  /** No character of a gap and no mark of the pattern is a digit, and the gap has no mark. */
  lemma Marks(c: char)
    ensures IsGapChar(c) ==> !IsDigit(c) && c != ':' && c != ']'
    ensures c in ":][" ==> !IsDigit(c) && !IsSpace(c) && !IsGapChar(c)
    ensures IsDigit(c) ==> !IsSpace(c) && c != '['
  {
    SpacesAreNotDigits(c);
    MarksAreNotDigits(c);
  }

  lemma IfIsRead(part: string, c: char, rest: string)
    requires part in {"", [c]} && (rest != "" ==> rest[0] != c)
    ensures TakeIf(part + rest, c) == Cut(part, rest)
  {
    if part == "" {
      assert part + rest == rest;
    } else {
      assert (part + rest)[..1] == part && (part + rest)[1..] == rest;
    }
  }

  lemma SecondsAreRead(sec: string, rest: string)
    requires (sec == "" || IsShort(sec)) && rest != "" && !IsDigit(rest[0]) && rest[0] != ':'
    ensures TakeSeconds(Seconds(sec) + rest) == Some(Cut(sec, rest))
    ensures !IsDigit((Seconds(sec) + rest)[0])
  {
    Marks(':');
    hide IsDigit, IsSpace, IsGapChar, TakeShort;
    if sec == "" {
      assert "" + rest == rest;
    } else {
      assert ":" + sec + rest == ":" + (sec + rest);
      assert (":" + (sec + rest))[1..] == sec + rest;
      ShortIsRead(sec, rest);
    }
  }

  lemma EndOfHead(close: string, rest: string)
    requires close in {"", "]"} && rest != "" && IsGapChar(rest[0])
    ensures TakeIf(close + rest, ']') == Cut(close, rest)
    ensures close + rest != "" && !IsDigit((close + rest)[0]) && (close + rest)[0] != ':'
  {
    Marks(rest[0]);
    Marks(']');
    hide IsDigit, IsSpace, IsGapChar;
    IfIsRead(close, ']', rest);
  }

  lemma TimeIsRead(r: Head)
    requires r.Valid()
    ensures MatchTime(r.w, r.open, r.h + (":" + (r.m + (Seconds(r.sec) + (r.close + r.rest))))) == Some(r)
  {
    Marks(':');
    hide IsDigit, IsSpace, IsGapChar, AllSpace, IsShort, TakeShort, TakeSeconds, TakeIf, Seconds;
    EndOfHead(r.close, r.rest);
    SecondsAreRead(r.sec, r.close + r.rest);
    var b := Seconds(r.sec) + (r.close + r.rest);
    ShortIsRead(r.m, b);
    assert (":" + (r.m + b))[1..] == r.m + b && (":" + (r.m + b))[0] == ':';
    ShortIsRead(r.h, ":" + (r.m + b));
  }

  /** A line has one head at most, and the scan finds it. */
  lemma HeadIsComplete(r: Head)
    requires r.Valid()
    ensures MatchHead(r.Text()) == Some(r)
  {
    TimeIsRead(r);
    FirstDigit(r.h);
    Marks('[');
    hide IsDigit, IsSpace, IsGapChar, AllSpace, IsShort, TakeSpaces, TakeIf, Seconds, MatchTime;
    var t := r.h + (":" + (r.m + (Seconds(r.sec) + (r.close + r.rest))));
    assert t[0] == r.h[0];
    IfIsRead(r.open, '[', t);
    assert (r.open + t)[0] == if r.open == "" then t[0] else '[';
    TakesExactly(r.w, r.open + t);
  }

  lemma FirstDigit(h: string)
    requires IsShort(h)
    ensures h != "" && !IsSpace(h[0]) && h[0] != '['
  {
    Marks(h[0]);
    hide IsSpace, IsGapChar, DigitValue;
  }

  lemma OnlyGap(s: string)
    requires |s| >= 2 && AllGap(s)
    ensures var n := |s| - 1; Body(s[..n], s[n..], "").Valid() && Body(s[..n], s[n..], "").Text() == s
  {
    hide IsGapChar, IsSpace;
    var n := |s| - 1;
    assert forall i :: 0 <= i < n ==> s[..n][i] == s[i];
    assert s[..n] + (s[n..] + "") == s;
  }

  lemma GapAndTitle(gap: string, rest: string, title: string)
    requires gap != "" && AllGap(gap) && title != "" && |title| <= TITLE_LIMIT && title <= rest && AllSpace(rest[|title|..])
    ensures Body(gap, title, rest[|title|..]).Valid() && Body(gap, title, rest[|title|..]).Text() == gap + rest
  {
    hide IsGapChar, IsSpace;
    assert rest == title + rest[|title|..];
  }

  lemma BodyIsSound(s: string)
    requires MatchBody(s).Some?
    ensures MatchBody(s).value.Valid() && MatchBody(s).value.Text() == s
  {
    var n := GapLength(s);
    hide IsGapChar, IsSpace, GapLength, AllGap, AllSpace, Body.Valid, Body.Text;
    assert s == s[..n] + s[n..];
    if n == |s| {
      assert s[..n] == s;
      OnlyGap(s);
    } else {
      FirstIsKept(s, n);
      GapAndTitle(s[..n], s[n..], DropTrailingSpaces(s[n..]));
    }
  }

  /** What follows the gap does not start with white space, so trimming leaves something. */
  lemma FirstIsKept(s: string, n: nat)
    requires n < |s| && !IsGapChar(s[n])
    ensures DropTrailingSpaces(s[n..]) != ""
  {
    assert s[n..][0] == s[n];
    assert !IsSpace(s[n]);
    hide IsGapChar, IsSpace;
    assert s[n..][0..] == s[n..];
  }

  lemma {:induction false} GapIsLongest(gap: string, rest: string)
    requires AllGap(gap)
    ensures |gap| <= GapLength(gap + rest)
  {
    if gap == "" {
    } else {
      assert (gap + rest)[1..] == gap[1..] + rest;
      GapIsLongest(gap[1..], rest);
    }
  }

  /** Of all bodies that read a text, the scan finds the one that is tried first. */
  lemma BodyIsFirst(b: Body)
    requires b.Valid()
    ensures MatchBody(b.Text()).Some? && MatchBody(b.Text()).value.Before(b)
  {
    var s := b.Text();
    var n := GapLength(s);
    GapIsLongest(b.gap, b.title + b.tail);
    if n < |s| {
      FirstIsKept(s, n);
      TitleReachesTheEnd(b, n);
    }
  }

  /** A title must reach as far as the last character that is no white space. */
  lemma TitleReachesTheEnd(b: Body, n: nat)
    requires b.Valid() && |b.gap| <= n < |b.Text()| && !IsGapChar(b.Text()[n])
    ensures var title := DropTrailingSpaces(b.Text()[n..]);
            n + |title| <= |b.gap| + |b.title|
  {
    var s := b.Text();
    var title := DropTrailingSpaces(s[n..]);
    FirstIsKept(s, n);
    hide IsGapChar, IsSpace;
    var last := n + |title| - 1;
    assert title[|title| - 1] == s[n..][|title| - 1] == s[last];
    assert forall i :: |b.gap| + |b.title| <= i < |s| ==> s[i] == b.tail[i - |b.gap| - |b.title|];
  }

  /**
    What matching a line means: it can be read as a head and a body, and of all
    such readings, which share the head, the body is the one tried first.
   */
  lemma MatchStampMeans(line: string, head: Head, body: Body)
    ensures MatchStamp(line) == Some((head, body))
       <==> head.Valid() && body.Valid() && head.Text() == line && head.rest == body.Text()
            && forall h: Head, b: Body :: h.Valid() && b.Valid() && h.Text() == line && h.rest == b.Text() ==> h == head && body.Before(b)
  {
    hide MatchHead, MatchBody, Head.Valid, Head.Text, Body.Valid, Body.Text;
    if MatchStamp(line) == Some((head, body)) {
      HeadIsSound(line);
      BodyIsSound(head.rest);
      forall h: Head, b: Body | h.Valid() && b.Valid() && h.Text() == line && h.rest == b.Text()
        ensures h == head && body.Before(b)
      {
        HeadIsComplete(h);
        BodyIsFirst(b);
      }
    }
    if head.Valid() && body.Valid() && head.Text() == line && head.rest == body.Text()
       && (forall h: Head, b: Body :: h.Valid() && b.Valid() && h.Text() == line && h.rest == b.Text() ==> h == head && body.Before(b))
    {
      HeadIsComplete(head);
      BodyIsFirst(body);
      var found := MatchBody(head.rest).value;
      BodyIsSound(head.rest);
      assert body.Before(found) && found.Before(body);
      SameBody(body, found);
    }
  }

  lemma SameBody(a: Body, b: Body)
    requires a.Text() == b.Text() && a.Before(b) && b.Before(a)
    ensures a == b
  {
    var s := a.Text();
    assert s[..|a.gap|] == a.gap && s[|a.gap|..] == a.title + a.tail;
    assert b.Text()[..|b.gap|] == b.gap && b.Text()[|b.gap|..] == b.title + b.tail;
    assert (a.title + a.tail)[..|a.title|] == a.title && (a.title + a.tail)[|a.title|..] == a.tail;
    assert (b.title + b.tail)[..|b.title|] == b.title && (b.title + b.tail)[|b.title|..] == b.tail;
  }
}
