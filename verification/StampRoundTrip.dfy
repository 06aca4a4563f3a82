/**
  Printing a setlist as timestamped lines and finding it again: exactly which
  setlists survive.
 */
module StampRoundTrip {
  import opened Wrappers
  import opened Decimals
  import opened SetlistChars
  import opened SetlistText
  import opened SetlistStamps
  import opened SetlistRoundTrip
  import opened SetlistDetector

  /** The time as the review page formats it, a space, and the title. */
  function StampLine(e: SetlistEntry): string {
    Fmt(e.start) + (" " + e.title)
  }

  function StampLines(entries: seq<SetlistEntry>): (lines: seq<string>)
    ensures |lines| == |entries|
    ensures forall i :: 0 <= i < |lines| ==> lines[i] == StampLine(entries[i])
  {
    seq(|entries|, i requires 0 <= i < |entries| => StampLine(entries[i]))
  }

  /** A title that is found again: trimmed, not too long, without a mark at its end or a gap at its start. */
  predicate GoodTitle(title: string) {
    && 1 <= |title| <= TITLE_LIMIT && Trimmed(title) && title[|title| - 1] !in ",."
    && (IsGapChar(title[0]) ==> |title| == 1)
  }

  predicate GoodStamp(e: SetlistEntry) {
    e.start < 360000 && GoodTitle(e.title)
  }

  // ------------------------------------------------------------------------ times

  /** The head of a printed line: minutes and seconds, with hours in front if there are any. */
  function PrintedHead(start: nat, rest: string): Head {
    var h, m, r := start / 3600, start % 3600 / 60, start % 60;
    if h > 0 then Head("", "", Dec(h), Pad2(m), Pad2(r), "", rest) else Head("", "", Dec(m), Pad2(r), "", "", rest)
  }

  lemma PrintedHeadText(start: nat, rest: string)
    ensures PrintedHead(start, rest).Text() == Fmt(start) + rest
  {
    var h, m, r := start / 3600, start % 3600 / 60, start % 60;
    hide Dec, Pad2;
    assert start % 3600 / 60 < 60;
    if h > 0 {
      assert Fmt(start) == Dec(h) + (":" + (Pad2(m) + (":" + Pad2(r))));
      FiveParts(Dec(h), Pad2(m), Pad2(r), rest);
      assert "" + rest == rest;
    } else {
      assert Fmt(start) == Dec(m) + (":" + Pad2(r));
      ThreeParts(Dec(m), Pad2(r), rest);
      assert "" + ("" + rest) == rest;
    }
    PrintedParts(start, rest);
  }

  lemma FiveParts(a: string, b: string, c: string, rest: string)
    ensures a + (":" + (b + (":" + c))) + rest == a + (":" + (b + ((":" + c) + rest)))
  {}

  lemma ThreeParts(a: string, b: string, rest: string)
    ensures a + (":" + b) + rest == a + (":" + (b + rest))
  {}

  lemma PrintedParts(start: nat, rest: string)
    ensures var p := PrintedHead(start, rest);
            p.Text() == p.h + (":" + (p.m + (Seconds(p.sec) + rest)))
  {
    hide Dec, Pad2, Seconds;
    var p := PrintedHead(start, rest);
    assert "" + rest == rest;
    var t := p.h + (":" + (p.m + (Seconds(p.sec) + rest)));
    assert "" + ("" + t) == t;
  }

  lemma PrintedHeadValid(start: nat, rest: string)
    requires rest != "" && IsGapChar(rest[0])
    ensures PrintedHead(start, rest).Valid() <==> start < 360000
    ensures AllDigits(PrintedHead(start, rest).h) && (start >= 360000 ==> |PrintedHead(start, rest).h| > 2)
  {
    var h, m, r := start / 3600, start % 3600 / 60, start % 60;
    TimeParts(start);
    DecFacts(h);
    DecFacts(m);
    Pad2Facts(m);
    Pad2Facts(r);
    hide Dec, Pad2, IsDigit, IsGapChar, IsSpace;
  }

  lemma PrintedTime(start: nat, rest: string)
    requires start < 360000 && rest != "" && IsGapChar(rest[0])
    ensures var p := PrintedHead(start, rest);
            && p.Valid()
            && TsToSeconds(NumberOf(p.h), NumberOf(p.m), if p.sec == "" then None else Some(NumberOf(p.sec))) == Some(start)
  {
    hide *;
    PrintedHeadValid(start, rest);
    PartsAreDigits(PrintedHead(start, rest));
    PrintedSeconds(start, rest);
  }

  lemma PrintedSeconds(start: nat, rest: string)
    requires var p := PrintedHead(start, rest); AllDigits(p.h) && AllDigits(p.m) && AllDigits(p.sec)
    ensures var p := PrintedHead(start, rest);
            TsToSeconds(NumberOf(p.h), NumberOf(p.m), if p.sec == "" then None else Some(NumberOf(p.sec))) == Some(start)
  {
    var h, m, r := start / 3600, start % 3600 / 60, start % 60;
    hide Dec, Pad2, IsDigit, AllDigits, Number;
    TimeParts(start);
    DecFacts(h);
    DecFacts(m);
    Pad2Facts(m);
    Pad2Facts(r);
  }

  lemma PartsAreDigits(head: Head)
    requires head.Valid()
    ensures AllDigits(head.h) && AllDigits(head.m) && AllDigits(head.sec)
  {}

  /** A time of a hundred hours or more is no timestamp. */
  lemma OverlongHead(start: nat, rest: string)
    requires start >= 360000 && rest != "" && IsGapChar(rest[0])
    ensures MatchHead(Fmt(start) + rest).None?
  {
    PrintedHeadText(start, rest);
    PrintedHeadValid(start, rest);
    PrintedParts(start, rest);
    var p := PrintedHead(start, rest);
    var tail := ":" + (p.m + (Seconds(p.sec) + rest));
    Marks(':');
    Marks(p.h[0]);
    hide Dec, Pad2, IsDigit, IsGapChar, IsSpace, Fmt, PrintedHead, Seconds, TakeSeconds;
    var line := p.h + tail;
    assert line[0] == p.h[0] && "" + line == line;
    TakesExactly("", line);
    TakesAllDigits(p.h, tail);
  }

  // ----------------------------------------------------------------------- titles

  lemma {:induction false} MarksShorten(s: string)
    ensures DropTrailingMarks(s) <= s
    ensures s != "" ==> (DropTrailingMarks(s) == s <==> s[|s| - 1] !in ",.")
  {
    if s == "" {
    } else if s[|s| - 1] in ",." {
      MarksShorten(s[..|s| - 1]);
    }
  }

  lemma StripShortens(s: string)
    ensures |Strip(s)| <= |s| && (|Strip(s)| == |s| ==> Strip(s) == s && Trimmed(s))
  {
    hide IsSpace;
    var c := TakeSpaces(s);
    StripFacts(s);
    assert |c.taken| + |c.rest| == |s|;
    assert c.taken == "" ==> c.rest == s;
  }

  /** What cleaning leaves alone. */
  lemma CleanIff(s: string)
    requires s != ""
    ensures |CleanTitle(s)| <= |s|
    ensures CleanTitle(s) == s <==> Trimmed(s) && s[|s| - 1] !in ",."
  {
    hide IsSpace, Strip, DropTrailingMarks;
    var a := Strip(s);
    var b := DropTrailingMarks(a);
    StripShortens(s);
    MarksShorten(a);
    StripShortens(b);
    if Trimmed(s) {
      StripTrimmed(s);
    }
  }

  /** The body read after a printed time: the title itself exactly if it is good. */
  lemma TitleIff(title: string)
    ensures GoodTitle(title)
       <==> MatchBody(" " + title).Some? && CleanTitle(MatchBody(" " + title).value.title) == title && title != ""
  {
    var s := " " + title;
    assert IsGapChar(' ') && s[0] == ' ' && s[1..] == title;
    hide CleanTitle, IsGapChar, IsSpace;
    if title == "" {
      assert s == " ";
    } else if IsGapChar(title[0]) {
      GapTitle(title);
    } else {
      PlainTitle(title);
    }
  }

  /** A title that starts with a gap character is swallowed up by the gap, unless it is all there is. */
  lemma GapBody(title: string)
    requires title != "" && IsGapChar(title[0])
    ensures |title| == 1 ==> MatchBody(" " + title) == Some(Body(" ", title, ""))
    ensures |title| > 1 && MatchBody(" " + title).Some? ==> 1 <= |MatchBody(" " + title).value.title| < |title|
  {
    var s := " " + title;
    assert IsGapChar(' ');
    hide IsGapChar, IsSpace;
    BodyIsValid(s);
    assert s[..2] + s[2..] == s;
    GapIsLongest(s[..2], s[2..]);
    assert |title| == 1 ==> s[..1] == " " && s[1..] == title;
  }

  lemma BodyIsValid(s: string)
    ensures MatchBody(s).Some? ==> MatchBody(s).value.title != ""
  {
    if MatchBody(s).Some? {
      BodyIsSound(s);
    }
    hide MatchBody, AllGap, AllSpace;
  }

  lemma GapTitle(title: string)
    requires title != "" && IsGapChar(title[0])
    ensures GoodTitle(title)
       <==> MatchBody(" " + title).Some? && CleanTitle(MatchBody(" " + title).value.title) == title
  {
    hide CleanTitle, IsGapChar, IsSpace, MatchBody, Trimmed;
    GapBody(title);
    CleanIff(title);
    if MatchBody(" " + title).Some? && |title| > 1 {
      CleanIff(MatchBody(" " + title).value.title);
    }
  }

  lemma PlainBody(title: string)
    requires title != "" && !IsGapChar(title[0])
    ensures var t := DropTrailingSpaces(title);
            && t != "" && (|t| == |title| ==> t == title)
            && (MatchBody(" " + title).Some? <==> |t| <= TITLE_LIMIT)
            && (MatchBody(" " + title).Some? ==> MatchBody(" " + title).value.title == t)
  {
    var s := " " + title;
    assert IsGapChar(' ') && s[0] == ' ' && s[1..] == title;
    assert GapLength(s[1..]) == 0;
    FirstIsKept(s, 1);
    hide IsGapChar, IsSpace;
  }

  lemma PlainTitle(title: string)
    requires title != "" && !IsGapChar(title[0])
    ensures GoodTitle(title)
       <==> MatchBody(" " + title).Some? && CleanTitle(MatchBody(" " + title).value.title) == title
  {
    hide CleanTitle, IsGapChar, IsSpace, MatchBody, DropTrailingSpaces, Trimmed;
    PlainBody(title);
    CleanIff(title);
    CleanIff(DropTrailingSpaces(title));
    if Trimmed(title) {
      NothingToDrop(title);
    }
  }

  lemma NothingToDrop(s: string)
    requires s != "" && Trimmed(s)
    ensures DropTrailingSpaces(s) == s
  {}

  // ------------------------------------------------------------------------ lines

  /** What is found in a printed line: nothing, or its time and the cleaned title. */
  lemma EntryOfPrinted(start: nat, title: string)
    ensures EntryOf(Fmt(start) + (" " + title))
         == if start >= 360000 || MatchBody(" " + title).None? || CleanTitle(MatchBody(" " + title).value.title) == "" then None
            else Some(SetlistEntry(start, CleanTitle(MatchBody(" " + title).value.title)))
  {
    var rest := " " + title;
    assert IsGapChar(' ') && rest[0] == ' ';
    hide IsGapChar, IsSpace, MatchBody, CleanTitle, Fmt, PrintedHead, NumberOf, TsToSeconds, MatchHead, Head.Valid, Head.Text;
    if start < 360000 {
      PrintedHeadText(start, rest);
      PrintedTime(start, rest);
      HeadIsComplete(PrintedHead(start, rest));
      PrintedRest(start, rest);
    } else {
      OverlongHead(start, rest);
    }
  }

  /** A printed line is found again exactly if its entry is good. */
  lemma StampLineIff(e: SetlistEntry)
    ensures EntryOf(StampLine(e)) == Some(e) <==> GoodStamp(e)
  {
    hide IsGapChar, IsSpace, MatchBody, CleanTitle, Fmt, EntryOf, GoodTitle;
    TitleIff(e.title);
    EntryOfPrinted(e.start, e.title);
  }

  lemma PrintedRest(start: nat, rest: string)
    ensures PrintedHead(start, rest).rest == rest
  {
    hide Dec, Pad2;
  }

  lemma {:induction false} EntriesAreFew(lines: seq<string>)
    ensures |EntriesOf(lines)| <= |lines|
  {
    hide EntryOf;
    if lines == [] {
    } else {
      EntriesAreFew(lines[..|lines| - 1]);
    }
  }

  /** As many entries as lines: each line gave its own. */
  lemma {:induction false} EachLineGivesItsEntry(lines: seq<string>, entries: seq<SetlistEntry>)
    requires |lines| == |entries|
    ensures EntriesOf(lines) == entries <==> forall i :: 0 <= i < |lines| ==> EntryOf(lines[i]) == Some(entries[i])
  {
    hide EntryOf;
    if lines == [] {
    } else {
      var n := |lines| - 1;
      var before, e := EntriesOf(lines[..n]), EntryOf(lines[n]);
      EntriesAreFew(lines[..n]);
      EachLineGivesItsEntry(lines[..n], entries[..n]);
      assert entries == entries[..n] + [entries[n]];
      LastOfBoth(before, e, entries[..n], entries[n]);
      assert forall i :: 0 <= i < n ==> lines[..n][i] == lines[i] && entries[..n][i] == entries[i];
    }
  }

  lemma LastOfBoth(before: seq<SetlistEntry>, e: Option<SetlistEntry>, entries: seq<SetlistEntry>, last: SetlistEntry)
    requires |before| <= |entries|
    ensures before + (if e.Some? then [e.value] else []) == entries + [last] <==> before == entries && e == Some(last)
  {
    var all := before + if e.Some? then [e.value] else [];
    if all == entries + [last] {
      assert |all| == |entries| + 1;
      assert all[|entries|] == last;
      assert before == all[..|before|] && entries == (entries + [last])[..|entries|];
    }
  }

  // --------------------------------------------------------- titles hold no line break

  lemma PartsHaveNoBreaks(a: string, b: string)
    ensures NoBreaks(a + b) <==> NoBreaks(a) && NoBreaks(b)
  {
    hide IsLineBreak;
    assert forall i :: 0 <= i < |a| ==> (a + b)[i] == a[i];
    assert forall i :: 0 <= i < |b| ==> (a + b)[|a| + i] == b[i];
  }

  lemma HeadRestHasNoBreaks(head: Head)
    requires NoBreaks(head.Text())
    ensures NoBreaks(head.rest)
  {
    hide NoBreaks, Seconds;
    var c := head.close + head.rest;
    var b := Seconds(head.sec) + c;
    var a := head.m + b;
    PartsHaveNoBreaks(head.w, head.open + (head.h + (":" + a)));
    PartsHaveNoBreaks(head.open, head.h + (":" + a));
    PartsHaveNoBreaks(head.h, ":" + a);
    PartsHaveNoBreaks(":", a);
    PartsHaveNoBreaks(head.m, b);
    PartsHaveNoBreaks(Seconds(head.sec), c);
    PartsHaveNoBreaks(head.close, head.rest);
  }

  lemma CleanHasNoBreaks(s: string)
    requires NoBreaks(s)
    ensures NoBreaks(CleanTitle(s))
  {
    hide NoBreaks, Strip;
    StripFacts(s);
    var a := Strip(s);
    MarksShorten(a);
    var b := DropTrailingMarks(a);
    assert a == b + a[|b|..];
    PartsHaveNoBreaks(b, a[|b|..]);
    StripFacts(b);
  }

  lemma FoundTitleHasNoBreaks(line: string)
    requires NoBreaks(line) && EntryOf(line).Some?
    ensures NoBreaks(EntryOf(line).value.title)
  {
    hide NoBreaks, MatchHead, MatchBody, CleanTitle, TsToSeconds, NumberOf, Head.Text, Head.Valid;
    HeadIsSound(line);
    var head := MatchHead(line).value;
    HeadRestHasNoBreaks(head);
    BodyIsSound(head.rest);
    var body := MatchBody(head.rest).value;
    PartsHaveNoBreaks(body.gap, body.title + body.tail);
    PartsHaveNoBreaks(body.title, body.tail);
    CleanHasNoBreaks(body.title);
  }

  lemma {:induction false} FoundTitlesHaveNoBreaks(lines: seq<string>)
    requires forall i :: 0 <= i < |lines| ==> NoBreaks(lines[i])
    ensures forall i :: 0 <= i < |EntriesOf(lines)| ==> NoBreaks(EntriesOf(lines)[i].title)
  {
    hide EntryOf, NoBreaks;
    if lines == [] {
    } else {
      FoundTitlesHaveNoBreaks(lines[..|lines| - 1]);
      if EntryOf(lines[|lines| - 1]).Some? {
        FoundTitleHasNoBreaks(lines[|lines| - 1]);
      }
    }
  }

  lemma StampLineIsALine(e: SetlistEntry)
    requires NoBreaks(e.title)
    ensures StampLine(e) != "" && NoBreaks(StampLine(e))
  {
    ClockIff(e.start);
    ClockCharsDoNotBreak(Fmt(e.start));
    assert NoBreaks(" ");
    hide NoBreaks, Fmt, AllClockChars, IsClock;
    PartsHaveNoBreaks(" ", e.title);
    PartsHaveNoBreaks(Fmt(e.start), " " + e.title);
  }

  /**
    Printed as timestamped lines, the entries found in a text are the ones printed
    exactly when every time is below a hundred hours and every title is good and
    holds no line break.
   */
  lemma StampsRoundTrip(entries: seq<SetlistEntry>)
    ensures EntriesOf(SplitLines(JoinLines(StampLines(entries)))) == entries
       <==> forall i :: 0 <= i < |entries| ==> GoodStamp(entries[i]) && NoBreaks(entries[i].title)
  {
    hide StampLine, GoodStamp, NoBreaks, EntryOf, EntriesOf;
    var lines := StampLines(entries);
    FoundTitlesHaveNoBreaks(SplitLines(JoinLines(lines)));
    if forall i :: 0 <= i < |entries| ==> NoBreaks(entries[i].title) {
      forall i | 0 <= i < |lines|
        ensures lines[i] != "" && NoBreaks(lines[i]) && (EntryOf(lines[i]) == Some(entries[i]) <==> GoodStamp(entries[i]))
      {
        StampLineIsALine(entries[i]);
        StampLineIff(entries[i]);
      }
      JoinedLinesSplit(lines);
      EachLineGivesItsEntry(lines, entries);
    }
  }

  /** So a printed setlist of at least two good entries in order is what a detection in it returns, whole. */
  lemma PrintedSetlistIsDetected(entries: seq<SetlistEntry>, d: Detected)
    requires |entries| >= 2 && InOrder(entries)
    requires forall i :: 0 <= i < |entries| ==> GoodStamp(entries[i]) && NoBreaks(entries[i].title)
    ensures Detectable(JoinLines(StampLines(entries)))
    ensures IsDetected(d, JoinLines(StampLines(entries))) ==> d.entries == entries
  {
    StampsRoundTrip(entries);
    hide EntriesOf, SplitLines, GoodStamp, NoBreaks, StampLines, JoinLines;
    assert entries[0].start <= entries[0 + 1].start;
    assert entries[0..|entries|] == entries && IsRun(entries, 0, |entries|);
    if IsDetected(d, JoinLines(StampLines(entries))) {
      var lo :| IsLongestBlock(entries, d.entries, lo);
    }
  }
}
