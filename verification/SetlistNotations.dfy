/**
  Lines written by hand: in a pasted setlist either separator, any of the three
  dashes and times with and without hours; in a comment brackets, any gap and
  times with one or two digits everywhere.
 */
module SetlistNotations {
  import opened Wrappers
  import opened Decimals
  import opened SetlistChars
  import opened SetlistText
  import opened SetlistRoundTrip
  import opened SetlistStamps
  import opened SetlistDetector
  import StampRoundTrip

  /** Minutes of one or two digits and seconds of two, or hours of one or two digits and two more pairs. */
  ghost predicate Spelled(t: string, seconds: int) {
    || (exists a, b :: TwoParts(t, a, b) && seconds == Number(a) * 60 + Number(b))
    || (exists a, b, c :: ThreeParts(t, a, b, c) && seconds == Number(a) * 3600 + Number(b) * 60 + Number(c))
  }

  predicate TwoParts(t: string, a: string, b: string) {
    t == a + (":" + b) && AllDigits(a) && AllDigits(b) && 1 <= |a| <= 2 && |b| == 2
  }

  predicate ThreeParts(t: string, a: string, b: string, c: string) {
    && t == a + (":" + (b + (":" + c))) && AllDigits(a) && AllDigits(b) && AllDigits(c)
    && 1 <= |a| <= 2 && |b| == 2 && |c| == 2
  }

  lemma SpelledTimes(t: string, seconds: int)
    requires Spelled(t, seconds)
    ensures IsClock(t) && ToSeconds(t) == Some(seconds)
  {
    hide IsDigit, Number, SplitColons;
    if a, b :| TwoParts(t, a, b) && seconds == Number(a) * 60 + Number(b) {
      ClockOfTwo(a, b);
      SplitAtColon(a, b);
      SplitDigits(b);
    } else {
      var a, b, c :| ThreeParts(t, a, b, c) && seconds == Number(a) * 3600 + Number(b) * 60 + Number(c);
      ClockOfThree(a, b, c);
      SplitAtColon(a, b + (":" + c));
      SplitAtColon(b, c);
      SplitDigits(c);
    }
  }

  /**
    An artist with neither separator in its name, a middle dot or a hyphen, the
    start, an en dash or a hyphen or the word "to", and the end, with any white
    space between: it is read as that artist and those times.
   */
  lemma HandwrittenLineIsRead(artist: string, r: Reading, start: int, end: int)
    requires artist != "" && !IsSpace(artist[0]) && !IsSpace(artist[|artist| - 1])
    requires forall i :: 0 <= i < |artist| ==> artist[i] != '\U{00B7}' && artist[i] != '-'
    requires r.sep == '\U{00B7}' || r.sep == '-'
    requires r.dash == "\U{2013}" || r.dash == "-" || r.dash == "to"
    requires AllSpace(r.w1 + r.w2 + r.w3 + r.w4 + r.w5)
    requires Spelled(r.start, start) && Spelled(r.end, end)
    ensures ParseLine(artist + (r.w1 + ([r.sep] + (r.w2 + (r.start + (r.w3 + (r.dash + (r.w4 + (r.end + r.w5))))))))) ==
              Some(Entry(artist, start, end))
  {
    SpelledTimes(r.start, start);
    SpelledTimes(r.end, end);
    PartsAreSpace(r.w1, r.w2, r.w3, r.w4, r.w5);
    MatchRestIsComplete(r);
    StripTrimmed(artist);
    NameIsTheArtist(artist, r.Text());
    hide IsSpace, MatchLine, MatchRest, Spelled, IsClock, ToSeconds, Strip;
  }

  lemma NameIsTheArtist(artist: string, rest: string)
    requires artist != "" && !IsSpace(artist[|artist| - 1])
    requires forall i :: 0 <= i < |artist| ==> artist[i] != '\U{00B7}' && artist[i] != '-'
    requires MatchRest(rest).Some?
    ensures MatchLine(artist + rest) == Some((artist, MatchRest(rest).value))
  {
    hide IsSpace, MatchRest;
    var line := artist + rest;
    assert line[|artist|..] == rest && line[..|artist|] == artist;
    forall e | 1 <= e < |artist|
      ensures MatchRest(line[e..]).None?
    {
      assert line[e..] == artist[e..] + rest;
      NoRestInTheArtist(artist[e..], rest);
    }
    MatchesAtFirst(line, 1, |artist|);
  }

  lemma PartsAreSpace(a: string, b: string, c: string, d: string, e: string)
    requires AllSpace(a + b + c + d + e)
    ensures AllSpace(a) && AllSpace(b) && AllSpace(c) && AllSpace(d) && AllSpace(e)
  {
    hide IsSpace;
    var all := a + b + c + d + e;
    assert forall i :: 0 <= i < |a| ==> all[i] == a[i];
    assert forall i :: 0 <= i < |b| ==> all[|a| + i] == b[i];
    assert forall i :: 0 <= i < |c| ==> all[|a| + |b| + i] == c[i];
    assert forall i :: 0 <= i < |d| ==> all[|a| + |b| + |c| + i] == d[i];
    assert forall i :: 0 <= i < |e| ==> all[|a| + |b| + |c| + |d| + i] == e[i];
  }

  /** What begins inside such a name has no separator where one must be. */
  lemma NoRestInTheArtist(name: string, rest: string)
    requires name != "" && !IsSpace(name[|name| - 1])
    requires forall i :: 0 <= i < |name| ==> name[i] != '\U{00B7}' && name[i] != '-'
    ensures MatchRest(name + rest).None?
  {
    hide IsSpace, MatchTimes;
    var w := TakeSpaces(name + rest);
    assert (name + rest)[|name| - 1] == name[|name| - 1];
    assert |w.taken| < |name|;
    assert w.rest[0] == (w.taken + w.rest)[|w.taken|] == name[|w.taken|];
  }

  // ------------------------------------------------------------ stamps in comments

  /** What may stand between a time and its title: white space, a hyphen or dash, a dot or bullet. */
  predicate IsFiller(c: char) {
    IsSpace(c) || c == '-' || c == '\U{2013}' || c == '\U{2014}' || c == '\U{2022}' || c == '\U{00B7}' || c == '.'
  }

  /**
    A time of two or three numbers of one or two digits, with or without brackets,
    some filler, a title with neither filler at its start nor white space or a
    mark at its end, and any full stops and commas: the entry is that time and
    title, unless the minutes or the seconds are above 59 or the title and the
    marks have more than 200 characters.
   */
  lemma HandwrittenStampIsRead(
    w: string, open: string, h: string, m: string, sec: string, close: string, gap: string, title: string, marks: string, tail: string)
    requires AllSpace(w) && AllSpace(tail) && (open == "" || open == "[") && (close == "" || close == "]")
    requires AllDigits(h) && AllDigits(m) && AllDigits(sec) && 1 <= |h| <= 2 && 1 <= |m| <= 2 && |sec| <= 2
    requires gap != "" && forall i :: 0 <= i < |gap| ==> IsFiller(gap[i])
    requires title != "" && !IsFiller(title[0]) && !IsSpace(title[|title| - 1]) && title[|title| - 1] !in ",."
    requires forall i :: 0 <= i < |marks| ==> marks[i] == ',' || marks[i] == '.'
    ensures Number(h) >= 0 && Number(m) >= 0 && Number(sec) >= 0
    ensures EntryOf(w + (open + (h + (":" + (m + ((if sec == "" then "" else ":" + sec) + (close + (gap + (title + marks + tail)))))))))
         == if Number(m) > 59 || Number(sec) > 59 || |title| + |marks| > 200 then None
            else if sec == "" then Some(SetlistEntry(Number(h) * 60 + Number(m), title))
            else Some(SetlistEntry(Number(h) * 3600 + Number(m) * 60 + Number(sec), title))
  {
    hide *;
    var head := Head(w, open, h, m, sec, close, gap + (title + marks + tail));
    FillersAreGaps(gap, title[0]);
    AtMostTwoDigits(h);
    AtMostTwoDigits(m);
    AtMostTwoDigits(sec);
    HeadText(head);
    StampIsRead(head, gap, title, marks, tail);
  }

  lemma AtMostTwoDigits(digits: string)
    requires AllDigits(digits) && |digits| <= 2
    ensures digits == "" || IsShort(digits)
  {}

  lemma HeadText(r: Head)
    ensures r.Text() == r.w + (r.open + (r.h + (":" + (r.m + ((if r.sec == "" then "" else ":" + r.sec) + (r.close + r.rest))))))
  {}

  lemma StampIsRead(head: Head, gap: string, title: string, marks: string, tail: string)
    requires AllSpace(head.w) && AllSpace(tail) && head.open in {"", "["} && head.close in {"", "]"}
    requires IsShort(head.h) && IsShort(head.m) && (head.sec == "" || IsShort(head.sec))
    requires gap != "" && AllGap(gap) && title != "" && !IsGapChar(title[0]) && !IsSpace(title[|title| - 1]) && title[|title| - 1] !in ",."
    requires head.rest == gap + (title + marks + tail) && forall i :: 0 <= i < |marks| ==> marks[i] in ",."
    ensures Number(head.h) >= 0 && Number(head.m) >= 0 && Number(head.sec) >= 0
    ensures EntryOf(head.Text())
         == if Number(head.m) > 59 || Number(head.sec) > 59 || |title| + |marks| > 200 then None
            else if head.sec == "" then Some(SetlistEntry(Number(head.h) * 60 + Number(head.m), title))
            else Some(SetlistEntry(Number(head.h) * 3600 + Number(head.m) * 60 + Number(head.sec), title))
  {
    hide *;
    SecondsOfHead(head);
    FirstOfGap(gap);
    assert head.rest[0] == gap[0];
    ValidHead(head);
    MarkedTitle(title, marks);
    assert (title + marks)[0] == title[0];
    BodyOfStamp(gap, title + marks, tail);
    EntryOfHead(head);
  }

  lemma MarkedTitle(title: string, marks: string)
    requires title != "" && !IsGapChar(title[0]) && !IsSpace(title[|title| - 1]) && title[|title| - 1] !in ",."
    requires forall i :: 0 <= i < |marks| ==> marks[i] in ",."
    ensures !IsSpace((title + marks)[|title + marks| - 1]) && CleanTitle(title + marks) == title
  {
    var s := title + marks;
    assert s[0] == title[0];
    assert s[|s| - 1] == if marks == "" then title[|title| - 1] else marks[|marks| - 1];
    assert Trimmed(s) && Trimmed(title);
    hide IsGapChar, IsSpace, Trimmed;
    StripTrimmed(s);
    DropsTheMarks(title, marks);
    StripTrimmed(title);
  }

  lemma {:induction false} DropsTheMarks(title: string, marks: string)
    requires title != "" && title[|title| - 1] !in ",." && forall i :: 0 <= i < |marks| ==> marks[i] in ",."
    ensures DropTrailingMarks(title + marks) == title
  {
    if marks == "" {
      assert title + marks == title;
    } else {
      var n := |marks| - 1;
      assert (title + marks)[..|title + marks| - 1] == title + marks[..n];
      DropsTheMarks(title, marks[..n]);
    }
  }

  /** The time and the cleaned title, unless one of them is missing. */
  lemma EntryOfHead(head: Head)
    requires head.Valid()
    ensures var body := MatchBody(head.rest);
            var secs := TsToSeconds(NumberOf(head.h), NumberOf(head.m), if head.sec == "" then None else Some(NumberOf(head.sec)));
            EntryOf(head.Text()) == if body.None? || secs.None? || CleanTitle(body.value.title) == "" then None
                                    else Some(SetlistEntry(secs.value, CleanTitle(body.value.title)))
  {
    HeadIsComplete(head);
    hide TsToSeconds, NumberOf, CleanTitle, MatchBody, MatchHead, Head.Valid, Head.Text;
  }

  lemma FirstOfGap(gap: string)
    requires gap != "" && AllGap(gap)
    ensures IsGapChar(gap[0])
  {}

  lemma ValidHead(head: Head)
    requires AllSpace(head.w) && head.open in {"", "["} && head.close in {"", "]"}
    requires IsShort(head.h) && IsShort(head.m) && (head.sec == "" || IsShort(head.sec))
    requires head.rest != "" && IsGapChar(head.rest[0])
    ensures head.Valid()
  {}

  lemma SecondsOfHead(head: Head)
    requires IsShort(head.h) && IsShort(head.m) && (head.sec == "" || IsShort(head.sec))
    ensures Number(head.h) >= 0 && Number(head.m) >= 0 && Number(head.sec) >= 0
    ensures TsToSeconds(NumberOf(head.h), NumberOf(head.m), if head.sec == "" then None else Some(NumberOf(head.sec)))
         == if Number(head.m) > 59 || Number(head.sec) > 59 then None
            else if head.sec == "" then Some(Number(head.h) * 60 + Number(head.m))
            else Some(Number(head.h) * 3600 + Number(head.m) * 60 + Number(head.sec))
  {
    assert Number("") == 0;
    hide IsDigit, Number;
    NumbersAreNatural(head.h);
    NumbersAreNatural(head.m);
    NumbersAreNatural(head.sec);
  }

  lemma FillersAreGaps(gap: string, c: char)
    requires forall i :: 0 <= i < |gap| ==> IsFiller(gap[i])
    ensures AllGap(gap) && (IsGapChar(c) ==> IsFiller(c))
  {}

  lemma BodyOfStamp(gap: string, title: string, tail: string)
    requires gap != "" && AllGap(gap) && AllSpace(tail)
    requires title != "" && !IsGapChar(title[0]) && !IsSpace(title[|title| - 1])
    ensures MatchBody(gap + (title + tail)) == if |title| > 200 then None else Some(Body(gap, title, tail))
  {
    hide IsSpace, IsGapChar;
    var s := gap + (title + tail);
    GapIsLongest(gap, title + tail);
    assert s[|gap|] == title[0];
    assert GapLength(s) == |gap| by {
      if GapLength(s) > |gap| {
        assert s[..GapLength(s)][|gap|] == title[0];
      }
    }
    assert s[..|gap|] == gap && s[|gap|..] == title + tail;
    DropsTheTail(title, tail);
    assert (title + tail)[|title|..] == tail;
  }

  lemma {:induction false} DropsTheTail(title: string, tail: string)
    requires title != "" && !IsSpace(title[|title| - 1]) && AllSpace(tail)
    ensures DropTrailingSpaces(title + tail) == title
  {
    hide IsSpace;
    if tail == "" {
      assert title + tail == title;
    } else {
      var n := |tail| - 1;
      assert (title + tail)[..|title + tail| - 1] == title + tail[..n];
      DropsTheTail(title, tail[..n]);
    }
  }

  /** Whatever was found has a title, and no white space around it. */
  lemma FoundTitlesAreTrimmed(line: string)
    ensures EntryOf(line).Some? ==> var t := EntryOf(line).value.title; t != "" && !IsSpace(t[0]) && !IsSpace(t[|t| - 1])
  {
    hide IsSpace, Strip, MatchStamp;
    if EntryOf(line).Some? {
      StripFacts(DropTrailingMarks(Strip(MatchStamp(line).value.1.title)));
    }
  }
}
