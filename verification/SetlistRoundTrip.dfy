/**
  Printing a setlist and pasting it back: exactly which setlists survive.
 */
module SetlistRoundTrip {
  import opened Wrappers
  import opened Decimals
  import opened SetlistChars
  import opened SetlistText

  // ------------------------------------------------------------- numbers and times

  function Pad2(n: nat): string {
    if |Dec(n)| < 2 then "0" + Dec(n) else Dec(n)
  }

  /** The review page's time format. */
  function Fmt(s: int): string {
    var sec := if s < 0 then 0 else s;
    Clock(sec / 3600, sec % 3600 / 60, sec % 60)
  }

  function Clock(h: nat, m: nat, r: nat): string {
    if h > 0 then Dec(h) + (":" + (Pad2(m) + (":" + Pad2(r)))) else Dec(m) + (":" + Pad2(r))
  }

  function SplitColons(s: string): (parts: seq<string>)
    ensures parts != []
  {
    if s == "" then [""] else
      var rest := SplitColons(s[1..]);
      if s[0] == ':' then [""] + rest else [[s[0]] + rest[0]] + rest[1..]
  }

  /** _to_seconds; None is its ParseError. */
  function ToSeconds(t: string): Option<int> {
    var parts := SplitColons(t);
    if |parts| == 2 then Some(Number(parts[0]) * 60 + Number(parts[1]))
    else if |parts| == 3 then Some(Number(parts[0]) * 3600 + Number(parts[1]) * 60 + Number(parts[2]))
    else None
  }

  lemma Pad2Facts(n: nat)
    requires n < 60
    ensures AllDigits(Pad2(n)) && |Pad2(n)| == 2 && Number(Pad2(n)) == n
  {
    DecFacts(n);
    AsciiDigits(0);
    hide IsSpace, DigitValue;
    if n < 10 {
      assert Pad2(n)[..1] == "0" && Pad2(n)[..1][..0] == "";
      assert Dec(n) == [Digit(n)] && Number(Dec(n)) == Number(Dec(n)[..0]) * 10 + DigitValue(Dec(n)[0]);
      assert DigitValue('0') == 0;
      assert Number("0") == 0;
    }
  }

  lemma {:induction false} SplitAtColon(a: string, b: string)
    requires AllDigits(a)
    ensures SplitColons(a + (":" + b)) == [a] + SplitColons(b)
  {
    hide IsSpace, IsDigit;
    var s := a + (":" + b);
    if a == "" {
      assert s[1..] == b;
    } else {
      MarksAreNotDigits(a[0]);
      assert s[1..] == a[1..] + (":" + b);
      SplitAtColon(a[1..], b);
      assert [a[0]] + a[1..] == a;
    }
  }

  lemma {:induction false} SplitDigits(a: string)
    requires AllDigits(a)
    ensures SplitColons(a) == [a]
  {
    hide IsSpace, IsDigit;
    if a == "" {
    } else {
      MarksAreNotDigits(a[0]);
      SplitDigits(a[1..]);
      assert [a[0]] + a[1..] == a;
    }
  }

  lemma TimeParts(sec: nat)
    ensures sec / 3600 * 3600 + sec % 3600 / 60 * 60 + sec % 60 == sec
    ensures sec % 3600 / 60 < 60
    ensures sec / 3600 < 100 <==> sec < 360000
  {}

  lemma ClockSeconds(h: nat, m: nat, r: nat)
    requires m < 60 && r < 60
    ensures ToSeconds(Clock(h, m, r)) == Some(h * 3600 + m * 60 + r)
  {
    hide IsDigit, Dec, Pad2, Number, SplitColons;
    DecFacts(h);
    DecFacts(m);
    Pad2Facts(m);
    Pad2Facts(r);
    SplitDigits(Pad2(r));
    if h > 0 {
      SplitAtColon(Dec(h), Pad2(m) + (":" + Pad2(r)));
      SplitAtColon(Pad2(m), Pad2(r));
    } else {
      SplitAtColon(Dec(m), Pad2(r));
    }
  }

  /** Formatting a time and reading it back, for times of any length. */
  lemma TimeRoundTrip(s: int)
    ensures ToSeconds(Fmt(s)) == Some(if s < 0 then 0 else s)
  {
    hide ToSeconds, Clock;
    var sec := if s < 0 then 0 else s;
    TimeParts(sec);
    ClockSeconds(sec / 3600, sec % 3600 / 60, sec % 60);
  }

  lemma ClockOfThree(a: string, b: string, c: string)
    requires AllDigits(a) && AllDigits(b) && AllDigits(c) && a != "" && |b| == 2 && |c| == 2
    ensures IsClock(a + (":" + (b + (":" + c)))) <==> |a| <= 2
    ensures AllClockChars(a + (":" + (b + (":" + c))))
  {
    var t := a + (":" + (b + (":" + c)));
    MarksAreNotDigits(':');
    hide IsDigit;
    assert forall i :: 0 <= i < |a| ==> t[i] == a[i];
    assert t[|a|] == ':' && t[|a| + 1] == b[0] && t[|a| + 2] == b[1];
    assert t[|a| + 3] == ':' && t[|a| + 4] == c[0] && t[|a| + 5] == c[1];
  }

  lemma ClockOfTwo(a: string, b: string)
    requires AllDigits(a) && AllDigits(b) && 1 <= |a| <= 2 && |b| == 2
    ensures IsClock(a + (":" + b)) && AllClockChars(a + (":" + b))
  {
    var t := a + (":" + b);
    MarksAreNotDigits(':');
    hide IsDigit;
    assert forall i :: 0 <= i < |a| ==> t[i] == a[i];
    assert t[|a|] == ':' && t[|a| + 1] == b[0] && t[|a| + 2] == b[1];
  }

  /** A printed time has the parser's shape exactly when it is below a hundred hours. */
  lemma ClockIff(s: int)
    ensures IsClock(Fmt(s)) <==> s < 360000
    ensures Fmt(s) != "" && AllClockChars(Fmt(s))
  {
    hide IsDigit, Dec, Pad2, Number, IsClock, AllClockChars;
    var sec := if s < 0 then 0 else s;
    TimeParts(sec);
    var h, m, r := sec / 3600, sec % 3600 / 60, sec % 60;
    DecFacts(h);
    DecFacts(m);
    Pad2Facts(m);
    Pad2Facts(r);
    if h > 0 {
      ClockOfThree(Dec(h), Pad2(m), Pad2(r));
    } else {
      ClockOfTwo(Dec(m), Pad2(r));
    }
  }

  // --------------------------------------------------------------- reading a line

  /** The longest run of a class of characters at the end of a string is unique. */
  lemma SameRun(cls: char -> bool, p: string, c: char, t: string, q: string, d: char, u: string)
    requires p + [c] + t == q + [d] + u && !cls(c) && !cls(d)
    requires (forall i :: 0 <= i < |t| ==> cls(t[i])) && (forall i :: 0 <= i < |u| ==> cls(u[i]))
    ensures t == u && c == d && p == q
  {
    var s := p + [c] + t;
    assert forall j :: |q| < j < |s| ==> (q + [d] + u)[j] == u[j - |q| - 1] && cls(s[j]);
    assert forall j :: |p| < j < |s| ==> s[j] == t[j - |p| - 1] && cls(s[j]);
    assert s[|p|] == c && (q + [d] + u)[|q|] == d;
    assert s[..|p|] == p && (q + [d] + u)[..|q|] == q;
    assert s[|p| + 1..] == t && (q + [d] + u)[|q| + 1..] == u;
  }

  function Last(s: string): char
    requires s != ""
  {
    s[|s| - 1]
  }

  lemma LastOfConcat(a: string, b: string)
    requires b != ""
    ensures Last(a + b) == Last(b) && (a + b)[..|a + b| - 1] == a + b[..|b| - 1]
    ensures b == b[..|b| - 1] + [Last(b)]
  {}

  lemma Associate(a: string, b: string, c: string)
    ensures a + (b + c) == a + b + c
  {}

  /** The text of a reading, put together from the left. */
  lemma TextFromTheLeft(r: Reading)
    ensures r.Text() == r.w1 + [r.sep] + r.w2 + r.start + r.w3 + r.dash + r.w4 + r.end + r.w5
  {
    var e := r.end + r.w5;
    var d := r.w4 + e;
    var c := r.dash + d;
    var b := r.w3 + c;
    var a := r.start + b;
    assert r.Text() == r.w1 + ([r.sep] + (r.w2 + a));
    hide *;
    var p2 := r.w1 + [r.sep] + r.w2;
    Associate(r.w1, [r.sep], r.w2 + a);
    Associate(r.w1 + [r.sep], r.w2, a);
    Associate(p2, r.start, b);
    Associate(p2 + r.start, r.w3, c);
    Associate(p2 + r.start + r.w3, r.dash, d);
    Associate(p2 + r.start + r.w3 + r.dash, r.w4, e);
    Associate(p2 + r.start + r.w3 + r.dash + r.w4, r.end, r.w5);
  }

  /** A line that ends in two runs of time characters around an en dash reads as those two times. */
  lemma ReadsFromTheRight(r: Reading, q: string, x: string, y: string)
    requires r.Valid() && r.Text() == q + x + [EN_DASH] + y
    requires AllClockChars(x) && AllClockChars(y) && y != ""
    requires if q == "" then true else x != "" && !IsClockChar(Last(q))
    ensures r.start == x && r.end == y && q == r.w1 + [r.sep] + r.w2
  {
    TextFromTheLeft(r);
    hide *;
    EndOfTheRight(r, r.w1 + [r.sep] + r.w2 + r.start + r.w3, q + x, y);
    StartOfTheRight(r, q, x);
  }

  /** White space in front of a string that ends in something else is none. */
  lemma NoTailSpaces(p: string, w: string, q: string, y: string)
    requires p + w == q + y && AllSpace(w) && y != "" && !IsSpace(Last(y))
    ensures w == "" && p == q + y
  {
    hide IsSpace;
    if w != "" {
      LastOfConcat(p, w);
      LastOfConcat(q, y);
    } else {
      assert p + w == p;
    }
  }

  lemma EndOfTheRight(r: Reading, p3: string, qx: string, y: string)
    requires r.Valid() && AllClockChars(y) && y != ""
    requires p3 + r.dash + r.w4 + r.end + r.w5 == qx + [EN_DASH] + y
    ensures r.end == y && p3 == qx
  {
    ClockEnds(r.end);
    DashEnds(r.dash);
    MarksAreNotDigits(EN_DASH);
    SpacesAreNotDigits(Last(y));
    LastClockChar(y);
    if r.w4 != "" {
      SpacesAreNotDigits(Last(r.w4));
    }
    hide IsSpace, IsDigit, IsClock;
    var p4 := p3 + r.dash + r.w4;
    NoTailSpaces(p4 + r.end, r.w5, qx + [EN_DASH], y);
    LastOfConcat(p3, r.dash + r.w4);
    assert p3 + (r.dash + r.w4) == p4;
    assert p4 == p4[..|p4| - 1] + [Last(p4)];
    SameRun(IsClockChar, p4[..|p4| - 1], Last(p4), r.end, qx, EN_DASH, y);
    NoTailSpaces(p3 + r.dash, r.w4, qx, [EN_DASH]);
    LastOfConcat(p3, r.dash);
    assert r.dash == [EN_DASH];
    assert (p3 + r.dash)[..|p3|] == p3 && (qx + [EN_DASH])[..|qx|] == qx;
  }

  lemma LastClockChar(y: string)
    requires AllClockChars(y) && y != ""
    ensures !IsSpace(Last(y))
  {
    SpacesAreNotDigits(Last(y));
    MarksAreNotDigits(':');
    hide IsDigit, IsSpace;
  }

  /** There is a separator in front of the start time, so not all of it are time characters. */
  lemma SeparatorIsNoClockChar(r: Reading)
    requires r.Valid()
    ensures !AllClockChars(r.w1 + [r.sep] + r.w2 + r.start + r.w3)
    ensures r.w2 != "" ==> !IsClockChar(Last(r.w2))
    ensures !IsClockChar(r.sep) && AllClockChars(r.start) && r.start != ""
  {
    MarksAreNotDigits(r.sep);
    ClockEnds(r.start);
    if r.w2 != "" {
      SpacesAreNotDigits(Last(r.w2));
    }
    hide IsSpace, IsDigit, IsClock;
    assert (r.w1 + [r.sep] + r.w2 + r.start + r.w3)[|r.w1|] == r.sep;
  }

  /** The part up to the start time ends in no time character. */
  lemma EndOfTheJoint(w1: string, sep: char, w2: string)
    requires !IsClockChar(sep) && (w2 != "" ==> !IsClockChar(Last(w2)))
    ensures var p2 := w1 + [sep] + w2; p2 != "" && !IsClockChar(Last(p2)) && p2 == p2[..|p2| - 1] + [Last(p2)]
  {
    hide IsClockChar;
    if w2 == "" {
      assert w1 + [sep] + w2 == w1 + [sep];
    } else {
      LastOfConcat(w1 + [sep], w2);
    }
  }

  /** The start time, the separator and its white space. */
  lemma StartOfTheRight(r: Reading, q: string, x: string)
    requires r.Valid() && AllClockChars(x)
    requires r.w1 + [r.sep] + r.w2 + r.start + r.w3 == q + x
    requires if q == "" then true else x != "" && !IsClockChar(Last(q))
    ensures r.start == x && q == r.w1 + [r.sep] + r.w2
  {
    SeparatorIsNoClockChar(r);
    assert q == "" ==> q + x == x;
    if q != "" {
      LastClockChar(x);
      hide IsSpace, IsDigit, IsClock, IsClockChar;
      var p2 := r.w1 + [r.sep] + r.w2;
      EndOfTheJoint(r.w1, r.sep, r.w2);
      NoTailSpaces(p2 + r.start, r.w3, q, x);
      assert q == q[..|q| - 1] + [Last(q)];
      SameRun(IsClockChar, p2[..|p2| - 1], Last(p2), r.start, q[..|q| - 1], Last(q), x);
    }
  }

  // ------------------------------------------------------------ matching a whole line

  function Joint(): string {
    [' ', MIDDLE_DOT, ' ']
  }

  function PrintLine(e: Entry): string {
    e.artist + Times(Fmt(e.start), Fmt(e.end))
  }

  lemma {:induction false} MatchesAtFirst(line: string, n: nat, k: nat)
    requires n <= k <= |line| && MatchRest(line[k..]).Some?
    requires forall e :: n <= e < k ==> MatchRest(line[e..]).None?
    ensures MatchFrom(line, n) == Some((line[..k], MatchRest(line[k..]).value))
    decreases k - n
  {
    hide MatchRest;
    if n == k {
    } else {
      MatchesAtFirst(line, n + 1, k);
    }
  }

  lemma {:induction false} MatchedSomewhere(line: string, n: nat) returns (k: nat)
    requires n <= |line| && MatchFrom(line, n).Some?
    ensures n <= k <= |line| && MatchRest(line[k..]).Some?
    ensures MatchFrom(line, n) == Some((line[..k], MatchRest(line[k..]).value))
    ensures forall e :: n <= e < k ==> MatchRest(line[e..]).None?
    decreases |line| - n
  {
    hide MatchRest;
    if MatchRest(line[n..]).Some? {
      k := n;
    } else {
      k := MatchedSomewhere(line, n + 1);
    }
  }

  /**
    What matching a line means: an artist and a reading of the rest, with no
    shorter artist leaving a rest that can be read at all.
   */
  lemma MatchLineMeans(line: string, artist: string, r: Reading)
    requires line != ""
    ensures MatchLine(line) == Some((artist, r))
       <==> artist != "" && r.Valid() && artist + r.Text() == line
            && forall e, other: Reading :: 1 <= e < |artist| && other.Valid() ==> other.Text() != line[e..]
  {
    hide MatchRest, Reading.Valid, Reading.Text;
    if MatchLine(line) == Some((artist, r)) {
      var k := MatchedSomewhere(line, 1);
      MatchRestIsSound(line[k..]);
      assert line == line[..k] + line[k..];
      forall e, other: Reading | 1 <= e < |artist| && other.Valid()
        ensures other.Text() != line[e..]
      {
        MatchRestIsComplete(other);
      }
    }
    if artist != "" && r.Valid() && artist + r.Text() == line
       && (forall e, other: Reading :: 1 <= e < |artist| && other.Valid() ==> other.Text() != line[e..])
    {
      assert line[|artist|..] == r.Text() && line[..|artist|] == artist;
      MatchRestIsComplete(r);
      forall e | 1 <= e < |artist|
        ensures MatchRest(line[e..]).None?
      {
        if MatchRest(line[e..]).Some? {
          MatchRestIsSound(line[e..]);
        }
      }
      MatchesAtFirst(line, 1, |artist|);
    }
  }

  predicate GoodArtist(artist: string) {
    && artist != "" && Trimmed(artist) && artist[0] != '#'
    && forall i :: 0 <= i < |artist| ==> !IsLineBreak(artist[i])
  }

  lemma DropConcat(a: string, b: string, k: nat)
    requires k <= |a + b|
    ensures (a + b)[k..] == if k <= |a| then a[k..] + b else b[k - |a|..]
  {}

  lemma JointEnds()
    ensures |Joint()| == 3 && !IsClockChar(Last(Joint())) && Joint()[3..] == ""
    ensures forall a :: 0 <= a < 3 ==> Joint()[a..] != "" && Last(Joint()[a..]) == ' '
  {
    assert IsSpace(' ');
    SpacesAreNotDigits(' ');
    hide IsSpace, IsDigit;
  }

  /** The text after the artist. */
  function Times(x: string, y: string): string {
    Joint() + (x + ([EN_DASH] + y))
  }

  /** Wherever a printed line is cut, what matches from there on is its two times. */
  lemma CutsOfAPrintedLine(artist: string, x: string, y: string, e: nat)
    requires AllClockChars(x) && x != "" && AllClockChars(y) && y != ""
    requires e <= |artist + Times(x, y)| && MatchRest((artist + Times(x, y))[e..]).Some?
    ensures IsClock(x) && IsClock(y)
    ensures e <= |artist| ==> AllSpace(artist[e..])
  {
    var s := (artist + Times(x, y))[e..];
    MatchRestIsSound(s);
    var r := MatchRest(s).value;
    hide MatchRest, Reading.Text, Times, IsSpace, IsDigit, IsClock;
    DropConcat(artist, Times(x, y), e);
    if e <= |artist| {
      CutsInTheArtist(artist[e..], x, y, r);
    } else {
      CutsAfterTheArtist(x, y, e - |artist|, r);
    }
  }

  lemma CutsInTheArtist(rest: string, x: string, y: string, r: Reading)
    requires AllClockChars(x) && x != "" && AllClockChars(y) && y != "" && r.Valid()
    requires r.Text() == rest + Times(x, y)
    ensures r.start == x && r.end == y && AllSpace(rest)
  {
    hide IsSpace, IsDigit, IsClock, Reading.Text;
    JointEnds();
    assert rest + Times(x, y) == (rest + Joint()) + x + [EN_DASH] + y;
    assert Last(rest + Joint()) == Last(Joint());
    ReadsFromTheRight(r, rest + Joint(), x, y);
    JointOfTheLeft(r, rest);
  }

  /** ... cut inside the joint, inside the start time or inside the end time. */
  lemma CutsAfterTheArtist(x: string, y: string, a: nat, r: Reading)
    requires AllClockChars(x) && x != "" && AllClockChars(y) && y != "" && r.Valid()
    requires 1 <= a <= |Times(x, y)| && r.Text() == Times(x, y)[a..]
    ensures r.start == x && r.end == y
  {
    hide IsSpace, IsDigit, IsClock, Joint, Reading.Text, Reading.Valid, AllClockChars;
    JointEnds();
    DropConcat(Joint(), x + ([EN_DASH] + y), a);
    if a <= 3 {
      CutsInTheJoint(r, Joint()[a..], x, y);
    } else {
      NoSeparatorLeft(r, x, y, a - 3);
    }
  }

  lemma CutsInTheJoint(r: Reading, q: string, x: string, y: string)
    requires AllClockChars(x) && x != "" && AllClockChars(y) && y != "" && r.Valid()
    requires r.Text() == q + (x + ([EN_DASH] + y)) && (q != "" ==> Last(q) == ' ')
    ensures r.start == x && r.end == y
  {
    assert IsSpace(' ');
    SpacesAreNotDigits(' ');
    hide IsSpace, IsDigit, IsClock, Reading.Text, Reading.Valid, AllClockChars;
    assert q + (x + ([EN_DASH] + y)) == q + x + [EN_DASH] + y;
    ReadsFromTheRight(r, q, x, y);
  }

  lemma NoSeparatorLeft(r: Reading, x: string, y: string, b: nat)
    requires r.Valid() && AllClockChars(x) && AllClockChars(y) && b <= |x + ([EN_DASH] + y)|
    ensures r.Text() != (x + ([EN_DASH] + y))[b..]
  {
    var s := x + ([EN_DASH] + y);
    MarksAreNotDigits(r.sep);
    hide IsDigit, IsSpace, IsClock;
    assert r.Text()[|r.w1|] == r.sep;
    assert forall i :: 0 <= i < |s| ==> IsClockChar(s[i]) || s[i] == EN_DASH;
    assert forall i :: 0 <= i < |s[b..]| ==> s[b..][i] == s[b + i];
  }

  /** The separator found is the printed one, so white space is all that is left before it. */
  lemma JointOfTheLeft(r: Reading, rest: string)
    requires r.Valid() && rest + Joint() == r.w1 + [r.sep] + r.w2
    ensures AllSpace(rest)
  {
    MarksAreNotDigits(r.sep);
    MarksAreNotDigits(MIDDLE_DOT);
    assert IsSpace(' ');
    hide IsSpace;
    assert rest + Joint() == (rest + " ") + [MIDDLE_DOT] + " ";
    SameRun(IsSpace, r.w1, r.sep, r.w2, rest + " ", MIDDLE_DOT, " ");
    assert forall i :: 0 <= i < |rest| ==> rest[i] == r.w1[i];
  }

  // ---------------------------------------------------------------- the whole paste

  /** str.splitlines(). */
  function SplitLines(text: string): (lines: seq<string>)
    ensures forall i :: 0 <= i < |lines| ==> NoBreaks(lines[i])
    decreases |text|
  {
    if text == "" then [] else
      var line := UntilBreak(text);
      if line == text then [text]
      else if |text| > |line| + 1 && text[|line|] == '\r' && text[|line| + 1] == '\n'
      then [line] + SplitLines(text[|line| + 2..])
      else [line] + SplitLines(text[|line| + 1..])
  }

  predicate NoBreaks(s: string) {
    forall i :: 0 <= i < |s| ==> !IsLineBreak(s[i])
  }

  function UntilBreak(s: string): (r: string)
    ensures r <= s && NoBreaks(r)
    ensures |r| < |s| ==> IsLineBreak(s[|r|])
  {
    if s == "" || IsLineBreak(s[0]) then "" else
      var rest := UntilBreak(s[1..]);
      assert s == [s[0]] + s[1..];
      [s[0]] + rest
  }

  function JoinLines(lines: seq<string>): string {
    if lines == [] then "" else if |lines| == 1 then lines[0] else lines[0] + ("\n" + JoinLines(lines[1..]))
  }

  function ParseLine(line: string): Option<Entry>
    requires line != ""
  {
    var m := MatchLine(line);
    if m.None? then None else
      var start, end := ToSeconds(m.value.1.start), ToSeconds(m.value.1.end);
      if start.None? || end.None? then None
      else Some(Entry(Strip(m.value.0), start.value, end.value))
  }

  /** Blank lines and comments are skipped; the first line that does not match is the error. */
  function ParseLines(lines: seq<string>): Result<seq<Entry>, string> {
    if lines == [] then Ok([]) else
      var line := Strip(lines[0]);
      if line == "" || line[0] == '#' then ParseLines(lines[1..])
      else if ParseLine(line).None? then Err(line)
      else match ParseLines(lines[1..])
        case Err(e) => Err(e)
        case Ok(rest) => Ok([ParseLine(line).value] + rest)
  }

  function ParsePaste(text: string): Result<seq<Entry>, string> {
    ParseLines(SplitLines(text))
  }

  function PrintSetlist(entries: seq<Entry>): string {
    JoinLines(PrintLines(entries))
  }

  function PrintLines(entries: seq<Entry>): (lines: seq<string>)
    ensures |lines| == |entries|
    ensures forall i :: 0 <= i < |entries| ==> lines[i] == PrintLine(entries[i])
  {
    if entries == [] then [] else [PrintLine(entries[0])] + PrintLines(entries[1..])
  }

  /** parse_setlist_paste: the loop over the lines. */
  method ParseSetlistPaste(text: string) returns (r: Result<seq<Entry>, string>)
    ensures r == ParsePaste(text)
  {
    hide ParseLine, Strip, SplitLines;
    var lines := SplitLines(text);
    var entries := [];
    assert lines[0..] == lines;
    NothingBefore(ParseLines(lines));
    var i := 0;
    while i < |lines|
      invariant i <= |lines|
      invariant ParseLines(lines) == After(entries, ParseLines(lines[i..]))
    {
      assert lines[i..][0] == lines[i] && lines[i..][1..] == lines[i + 1..];
      var line := Strip(lines[i]);
      if line != "" && line[0] != '#' {
        var e := ParseLine(line);
        if e.None? {
          return Err(line);
        }
        ghost var tail := ParseLines(lines[i + 1..]);
        assert tail.Ok? ==> entries + ([e.value] + tail.value) == entries + [e.value] + tail.value;
        entries := entries + [e.value];
      }
      i := i + 1;
    }
    assert entries + [] == entries;
    return Ok(entries);
  }

  function After(entries: seq<Entry>, r: Result<seq<Entry>, string>): Result<seq<Entry>, string> {
    match r
    case Err(e) => Err(e)
    case Ok(rest) => Ok(entries + rest)
  }

  lemma NothingBefore(r: Result<seq<Entry>, string>)
    ensures After([], r) == r
  {
    assert r.Ok? ==> [] + r.value == r.value;
  }

  predicate GoodEntry(e: Entry) {
    GoodArtist(e.artist) && 0 <= e.start < 360000 && 0 <= e.end < 360000
  }

  lemma PrintedLineMatches(e: Entry)
    requires GoodArtist(e.artist) && e.start < 360000 && e.end < 360000
    ensures var m := MatchLine(PrintLine(e));
            m.Some? && m.value.0 == e.artist && m.value.1.start == Fmt(e.start) && m.value.1.end == Fmt(e.end)
  {
    hide IsSpace, IsDigit, IsClock, MatchRest, Fmt, Times, IsLineBreak, AllClockChars;
    var x, y := Fmt(e.start), Fmt(e.end);
    var line := PrintLine(e);
    var k := |e.artist|;
    ClockIff(e.start);
    ClockIff(e.end);
    DropConcat(e.artist, Times(x, y), k);
    assert e.artist[k..] + Times(x, y) == Times(x, y) && line[..k] == e.artist;
    PrintedTimesMatch(x, y);
    forall j | 1 <= j < k
      ensures MatchRest(line[j..]).None?
    {
      NoShorterArtist(e.artist, x, y, j);
    }
    MatchesAtFirst(line, 1, k);
  }

  lemma NoShorterArtist(artist: string, x: string, y: string, j: nat)
    requires GoodArtist(artist) && AllClockChars(x) && x != "" && AllClockChars(y) && y != "" && j < |artist|
    ensures MatchRest((artist + Times(x, y))[j..]).None?
  {
    hide IsSpace, IsDigit, IsClock, MatchRest, Times, IsLineBreak, AllClockChars;
    assert !AllSpace(artist[j..]) by {
      assert Last(artist[j..]) == Last(artist) == artist[j..][|artist| - j - 1];
    }
    if MatchRest((artist + Times(x, y))[j..]).Some? {
      CutsOfAPrintedLine(artist, x, y, j);
    }
  }

  lemma OverlongTimesDoNotMatch(e: Entry)
    requires e.artist != "" && (e.start >= 360000 || e.end >= 360000)
    ensures MatchLine(PrintLine(e)).None?
  {
    hide IsSpace, IsDigit, IsClock, MatchRest, Fmt, Times, AllClockChars;
    ClockIff(e.start);
    ClockIff(e.end);
    if MatchLine(PrintLine(e)).Some? {
      var j := MatchedSomewhere(PrintLine(e), 1);
      CutsOfAPrintedLine(e.artist, Fmt(e.start), Fmt(e.end), j);
    }
  }

  /** A printed line with a good artist is read back exactly when its times can be. */
  lemma PrintedLineParses(e: Entry)
    requires GoodArtist(e.artist)
    ensures ParseLine(PrintLine(e)) == if e.start < 360000 && e.end < 360000
              then Some(Entry(e.artist, if e.start < 0 then 0 else e.start, if e.end < 0 then 0 else e.end))
              else None
  {
    hide MatchLine, Fmt, Times, ToSeconds, IsSpace, IsLineBreak;
    if e.start < 360000 && e.end < 360000 {
      PrintedLineMatches(e);
      TimeRoundTrip(e.start);
      TimeRoundTrip(e.end);
      StripTrimmed(e.artist);
    } else {
      OverlongTimesDoNotMatch(e);
    }
  }

  lemma PrintedTimesMatch(x: string, y: string)
    requires IsClock(x) && IsClock(y)
    ensures MatchRest(Times(x, y)).Some?
    ensures MatchRest(Times(x, y)).value.start == x && MatchRest(Times(x, y)).value.end == y
  {
    var r := Reading(" ", MIDDLE_DOT, " ", x, "", [EN_DASH], "", y, "");
    assert IsSpace(' ');
    hide IsSpace, IsDigit, IsClock, MatchRest;
    assert r.Text() == Times(x, y);
    MatchRestIsComplete(r);
  }

  lemma StripTrimmed(s: string)
    requires Trimmed(s)
    ensures Strip(s) == s
  {
    hide IsSpace;
    assert "" + s == s;
    TakesExactly("", s);
  }

  // ------------------------------------------------------------- lines of a printed list

  lemma {:induction false} UntilFirstBreak(a: string, rest: string)
    requires NoBreaks(a) && (rest != "" ==> IsLineBreak(rest[0]))
    ensures UntilBreak(a + rest) == a
  {
    hide IsLineBreak;
    if a == "" {
      assert a + rest == rest;
    } else {
      assert (a + rest)[1..] == a[1..] + rest;
      UntilFirstBreak(a[1..], rest);
    }
  }

  lemma LastLineSplits(line: string)
    requires line != "" && NoBreaks(line)
    ensures SplitLines(line) == [line]
  {
    hide IsLineBreak, NoBreaks;
    assert line + "" == line;
    UntilFirstBreak(line, "");
  }

  /** The first line, blank or not, is split off a text that goes on. */
  lemma FirstLineSplits(line: string, rest: string)
    requires NoBreaks(line)
    ensures SplitLines(line + ("\n" + rest)) == [line] + SplitLines(rest)
  {
    assert IsLineBreak('\n');
    hide IsLineBreak, NoBreaks;
    var text := line + ("\n" + rest);
    UntilFirstBreak(line, "\n" + rest);
    DropConcat(line, "\n" + rest, |line| + 1);
    assert text[|line|] == '\n' && ("\n" + rest)[1..] == rest;
  }

  lemma {:induction false} JoinedLinesSplit(lines: seq<string>)
    requires (forall i :: 0 <= i < |lines| ==> NoBreaks(lines[i])) && (lines != [] ==> lines[|lines| - 1] != "")
    ensures SplitLines(JoinLines(lines)) == lines
  {
    if lines == [] {
      assert SplitLines("") == [];
    } else {
      hide SplitLines, NoBreaks;
      assert lines == [lines[0]] + lines[1..];
      if |lines| == 1 {
        LastLineSplits(lines[0]);
      } else {
        FirstLineSplits(lines[0], JoinLines(lines[1..]));
        JoinedLinesSplit(lines[1..]);
      }
    }
  }

  lemma PrintedLineIsALine(e: Entry)
    requires GoodArtist(e.artist)
    ensures PrintLine(e) != "" && NoBreaks(PrintLine(e)) && Trimmed(PrintLine(e)) && PrintLine(e)[0] == e.artist[0]
  {
    var x, y := Fmt(e.start), Fmt(e.end);
    ClockIff(e.start);
    ClockIff(e.end);
    TimesHaveNoBreaks(x, y);
    LastClockChar(y);
    hide IsSpace, IsDigit, Fmt, IsLineBreak, AllClockChars, IsClock;
    assert PrintLine(e) == e.artist + Times(x, y);
    assert Last(PrintLine(e)) == Last(y);
  }

  lemma ClockCharsDoNotBreak(s: string)
    requires AllClockChars(s)
    ensures NoBreaks(s)
  {
    forall i | 0 <= i < |s|
      ensures !IsLineBreak(s[i])
    {
      SpacesAreNotDigits(s[i]);
      hide IsSpace, IsDigit, IsLineBreak;
    }
  }

  lemma TimesHaveNoBreaks(x: string, y: string)
    requires AllClockChars(x) && AllClockChars(y)
    ensures NoBreaks(Times(x, y))
  {
    ClockCharsDoNotBreak(x);
    ClockCharsDoNotBreak(y);
    assert NoBreaks(Joint()) && !IsLineBreak(EN_DASH);
    hide IsLineBreak, AllClockChars;
  }

  ghost predicate AllGood(entries: seq<Entry>) {
    forall i :: 0 <= i < |entries| ==> GoodEntry(entries[i])
  }

  ghost predicate AllGoodArtists(entries: seq<Entry>) {
    forall i :: 0 <= i < |entries| ==> GoodArtist(entries[i].artist)
  }

  lemma GoodByHead(entries: seq<Entry>)
    requires entries != []
    ensures AllGood(entries) <==> GoodEntry(entries[0]) && AllGood(entries[1..])
    ensures AllGoodArtists(entries) <==> GoodArtist(entries[0].artist) && AllGoodArtists(entries[1..])
  {
    hide GoodArtist, GoodEntry;
    assert forall i :: 1 <= i < |entries| ==> entries[i] == entries[1..][i - 1];
  }

  /** A printed line is read back as its entry exactly when the entry is good. */
  lemma GoodIff(e: Entry)
    requires GoodArtist(e.artist)
    ensures GoodEntry(e) <==> ParseLine(PrintLine(e)) == Some(e)
  {
    PrintedLineParses(e);
    hide ParseLine, PrintLine, GoodArtist;
  }

  /** The first line, if it is neither blank nor a comment, is read, or is the error. */
  lemma FirstLineIsRead(line: string, rest: seq<string>)
    requires Strip(line) == line && line != "" && line[0] != '#'
    ensures ParseLines([line] + rest)
         == if ParseLine(line).None? then Err(line) else Prepend(ParseLine(line).value, ParseLines(rest))
  {
    hide ParseLine, Strip;
    assert ([line] + rest)[1..] == rest;
  }

  function Prepend(e: Entry, r: Result<seq<Entry>, string>): Result<seq<Entry>, string> {
    match r
    case Err(line) => Err(line)
    case Ok(rest) => Ok([e] + rest)
  }

  lemma PrependIff(e: Entry, r: Result<seq<Entry>, string>, f: Entry, rest: seq<Entry>)
    ensures Prepend(e, r) == Ok([f] + rest) <==> e == f && r == Ok(rest)
  {
    if r.Ok? && [e] + r.value == [f] + rest {
      assert ([e] + r.value)[0] == ([f] + rest)[0] && ([e] + r.value)[1..] == ([f] + rest)[1..];
      assert ([e] + r.value)[1..] == r.value && ([f] + rest)[1..] == rest;
    }
  }

  /** With good artists, a printed list is read back entry by entry until a time is too long. */
  lemma {:induction false} PrintedLinesParse(entries: seq<Entry>)
    requires AllGoodArtists(entries)
    ensures ParseLines(PrintLines(entries)) == Ok(entries) <==> AllGood(entries)
  {
    if entries == [] {
    } else {
      var e, rest := entries[0], entries[1..];
      assert PrintLines(entries) == [PrintLine(e)] + PrintLines(rest);
      assert entries == [e] + rest;
      hide *;
      GoodByHead(entries);
      PrintedLinesParse(rest);
      GoodIff(e);
      StripPrinted(e);
      FirstLineIsRead(PrintLine(e), PrintLines(rest));
      if ParseLine(PrintLine(e)).Some? {
        PrependIff(ParseLine(PrintLine(e)).value, ParseLines(PrintLines(rest)), e, rest);
      }
    }
  }

  lemma StripPrinted(e: Entry)
    requires GoodArtist(e.artist)
    ensures Strip(PrintLine(e)) == PrintLine(e) && PrintLine(e) != "" && PrintLine(e)[0] != '#'
  {
    PrintedLineIsALine(e);
    StripTrimmed(PrintLine(e));
  }

  // ------------------------------------------------------- what a paste can ever contain

  lemma StripFacts(s: string)
    ensures Trimmed(Strip(s)) && (NoBreaks(s) ==> NoBreaks(Strip(s)))
  {
    var c := TakeSpaces(s);
    var r := DropTrailingSpaces(c.rest);
    hide IsSpace, IsLineBreak;
    assert s[|c.taken|..] == c.rest;
    assert r != "" ==> r[0] == c.rest[0];
  }

  /** Stripping keeps a first character that is no white space. */
  lemma StripKeepsTheHead(s: string)
    requires s != "" && !IsSpace(s[0])
    ensures Strip(s) != "" && Strip(s)[0] == s[0]
  {
    hide IsSpace;
    assert "" + s == s;
    TakesExactly("", s);
    var r := DropTrailingSpaces(s);
    assert s[0..] == s && !AllSpace(s);
    assert r == s[..|r|];
  }

  lemma PrefixFacts(line: string, k: nat)
    requires Trimmed(line) && NoBreaks(line) && line != "" && 1 <= k <= |line|
    ensures NoBreaks(line[..k]) && line[..k] != "" && !IsSpace(line[..k][0]) && line[..k][0] == line[0]
  {
    hide IsSpace, IsLineBreak;
  }

  /** Whatever the text, every artist read is non-empty, trimmed, on one line and no comment. */
  lemma ParsedArtistIsGood(raw: string)
    requires NoBreaks(raw) && Strip(raw) != "" && Strip(raw)[0] != '#' && ParseLine(Strip(raw)).Some?
    ensures GoodArtist(ParseLine(Strip(raw)).value.artist)
  {
    hide IsSpace, IsLineBreak, Strip, MatchRest, MatchFrom, ToSeconds, Trimmed, NoBreaks;
    var line := Strip(raw);
    StripFacts(raw);
    var k := MatchedSomewhere(line, 1);
    var artist := line[..k];
    PrefixFacts(line, k);
    StripFacts(artist);
    StripKeepsTheHead(artist);
    assert ParseLine(line).value.artist == Strip(artist);
    GoodFromParts(Strip(artist));
  }

  lemma GoodFromParts(artist: string)
    requires artist != "" && Trimmed(artist) && artist[0] != '#' && NoBreaks(artist)
    ensures GoodArtist(artist)
  {
    hide IsSpace, IsLineBreak;
  }

  lemma {:induction false} ParsedArtistsAreGood(lines: seq<string>)
    requires forall i :: 0 <= i < |lines| ==> NoBreaks(lines[i])
    requires ParseLines(lines).Ok?
    ensures forall i :: 0 <= i < |ParseLines(lines).value| ==> GoodArtist(ParseLines(lines).value[i].artist)
  {
    hide GoodArtist, ParseLine, Strip, NoBreaks;
    if lines == [] {
    } else {
      ParsedArtistsAreGood(lines[1..]);
      var line := Strip(lines[0]);
      if line != "" && line[0] != '#' {
        ParsedArtistIsGood(lines[0]);
      }
    }
  }

  /**
    The round trip.  Printing a setlist and pasting it back returns the same
    entries exactly when every artist is a non-empty trimmed single line that does
    not start with '#' and every time lies within 0..99:59:59; dashes, dots and
    times inside artists do no harm.
   */
  lemma SetlistRoundTrips(entries: seq<Entry>)
    ensures ParsePaste(PrintSetlist(entries)) == Ok(entries) <==> AllGood(entries)
  {
    hide GoodArtist, PrintLine, NoBreaks, ParseLines;
    var lines := PrintLines(entries);
    if AllGoodArtists(entries) {
      forall i | 0 <= i < |lines|
        ensures lines[i] != "" && NoBreaks(lines[i])
      {
        PrintedLineIsALine(entries[i]);
      }
      JoinedLinesSplit(lines);
      PrintedLinesParse(entries);
    } else if ParsePaste(PrintSetlist(entries)) == Ok(entries) {
      ParsedArtistsAreGood(SplitLines(PrintSetlist(entries)));
    }
  }

  // --------------------------------------------------------- blank lines and comments

  /** Nothing but white space, or a hash in front of everything else. */
  ghost predicate Ignored(line: string) {
    exists w, rest :: line == w + rest && AllSpace(w) && (rest == "" || rest[0] == '#')
  }

  lemma IgnoredIff(line: string)
    ensures Strip(line) == "" || Strip(line)[0] == '#' <==> Ignored(line)
  {
    MarksAreNotDigits('#');
    hide IsSpace, IsDigit;
    var c := TakeSpaces(line);
    if c.rest != "" {
      StripKeepsTheHead(c.rest);
      assert "" + c.rest == c.rest;
      TakesExactly("", c.rest);
      assert Strip(line) == Strip(c.rest);
      if w, rest :| line == w + rest && AllSpace(w) && (rest == "" || rest[0] == '#') {
        TakesExactly(w, rest);
      }
    }
  }

  ghost function NotIgnored(lines: seq<string>): seq<string> {
    if lines == [] then [] else (if Ignored(lines[0]) then [] else [lines[0]]) + NotIgnored(lines[1..])
  }

  /** Blank lines and comments make no difference, wherever they are. */
  lemma {:induction false} IgnoredLinesAreHarmless(lines: seq<string>)
    ensures ParseLines(NotIgnored(lines)) == ParseLines(lines)
  {
    hide Ignored, Strip, ParseLine;
    if lines == [] {
    } else {
      var rest := NotIgnored(lines[1..]);
      IgnoredIff(lines[0]);
      IgnoredLinesAreHarmless(lines[1..]);
      assert ([lines[0]] + rest)[1..] == rest && [] + rest == rest;
    }
  }

  ghost predicate Readable(line: string) {
    Ignored(line) || (Strip(line) != "" && ParseLine(Strip(line)).Some?)
  }

  /** A readable line leaves the outcome to the rest; another one decides it. */
  lemma ParsesByHead(lines: seq<string>)
    requires lines != []
    ensures var r, rest := ParseLines(lines), ParseLines(lines[1..]);
            if !Readable(lines[0]) then r == Err(Strip(lines[0]))
            else (r.Ok? <==> rest.Ok?) && (rest.Err? ==> r == rest)
  {
    IgnoredIff(lines[0]);
    hide Ignored, Strip, ParseLine;
  }

  lemma {:induction false} ReadIffAllReadable(lines: seq<string>)
    ensures ParseLines(lines).Ok? <==> forall i :: 0 <= i < |lines| ==> Readable(lines[i])
  {
    if lines == [] {
    } else {
      hide *;
      ParsesByHead(lines);
      ReadIffAllReadable(lines[1..]);
      assert forall i :: 1 <= i < |lines| ==> lines[i] == lines[1..][i - 1];
      assert (forall i :: 0 <= i < |lines[1..]| ==> Readable(lines[1..][i])) <==> forall i :: 1 <= i < |lines| ==> Readable(lines[i]);
    }
  }

  lemma {:induction false} ErrorAt(lines: seq<string>, i: nat)
    requires i < |lines| && !Readable(lines[i]) && forall j :: 0 <= j < i ==> Readable(lines[j])
    ensures ParseLines(lines) == Err(Strip(lines[i]))
  {
    hide *;
    ParsesByHead(lines);
    if i == 0 {
    } else {
      ErrorAt(lines[1..], i - 1);
    }
  }

  /** A paste is read exactly if every line that is not ignored can be; else the first that cannot is the error. */
  lemma FirstBadLineIsTheError(lines: seq<string>)
    ensures ParseLines(lines).Ok? <==> forall i :: 0 <= i < |lines| ==> Readable(lines[i])
    ensures forall i :: 0 <= i < |lines| && !Readable(lines[i]) && (forall j :: 0 <= j < i ==> Readable(lines[j])) ==>
              ParseLines(lines) == Err(Strip(lines[i]))
  {
    hide *;
    ReadIffAllReadable(lines);
    forall i | 0 <= i < |lines| && !Readable(lines[i]) && forall j :: 0 <= j < i ==> Readable(lines[j])
      ensures ParseLines(lines) == Err(Strip(lines[i]))
    {
      ErrorAt(lines, i);
    }
  }

  /**
    A pasted text with the printed lines of good entries, and blank lines and
    comments wherever one likes between them and in front, is read as the entries.
   */
  lemma DecoratedSetlistIsRead(entries: seq<Entry>, lines: seq<string>)
    requires AllGood(entries) && NotIgnored(lines) == PrintLines(entries)
    requires (forall i :: 0 <= i < |lines| ==> NoBreaks(lines[i])) && (lines != [] ==> lines[|lines| - 1] != "")
    ensures ParsePaste(JoinLines(lines)) == Ok(entries)
  {
    hide Ignored, NoBreaks, ParseLines, GoodArtist, PrintLines;
    JoinedLinesSplit(lines);
    IgnoredLinesAreHarmless(lines);
    PrintedLinesParse(entries);
  }
}
