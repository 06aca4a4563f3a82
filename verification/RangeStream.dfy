/**
  Serving a recording's file: the Range header, the response it gets, and the
  chunks that are streamed.
 */
module RangeStream {
  import opened Wrappers
  import opened Decimals

  type Bytes = seq<bv8>

  const CHUNK_SIZE := 1024 * 1024

  // ------------------------------------------------------------------ the header

  datatype RangeSpec = RangeSpec(first: nat, last: Option<nat>)

  /** `bytes=(\d+)-(\d*)` at the head of the header; whatever follows is not looked at. */
  function ParseRange(header: string): Option<RangeSpec> {
    if |header| < 6 || header[..6] != "bytes=" then None
    else
      var first := TakeDigits(header[6..]);
      if first.taken == "" || first.rest == "" || first.rest[0] != '-' then None
      else
        var last := TakeDigits(first.rest[1..]);
        NumbersAreNatural(first.taken);
        NumbersAreNatural(last.taken);
        Some(RangeSpec(Number(first.taken), if last.taken == "" then None else Some(Number(last.taken))))
  }

  function RangeHeader(first: nat, last: nat): string {
    "bytes=" + (Dec(first) + ("-" + Dec(last)))
  }

  lemma HeaderParts(first: string, tail: string)
    ensures var header := "bytes=" + (first + ("-" + tail));
            |header| >= 6 && header[..6] == "bytes=" && header[6..] == first + ("-" + tail)
  {}

  /** The header is `bytes=`, a number, a dash, a number or nothing, and then something that is no digit. */
  predicate Spells(header: string, first: string, last: string, rest: string) {
    && header == "bytes=" + (first + ("-" + (last + rest)))
    && first != "" && AllDigits(first) && AllDigits(last)
    && (rest != "" ==> !IsDigit(rest[0]))
  }

  /** A first number and a dash are read, and then as many digits as follow. */
  lemma ReadsTheNumbers(header: string, first: string, last: string, rest: string)
    requires Spells(header, first, last, rest)
    ensures Number(first) >= 0 && Number(last) >= 0
    ensures ParseRange(header) == Some(RangeSpec(Number(first), if last == "" then None else Some(Number(last))))
  {
    HeaderParts(first, last + rest);
    NumbersAreNatural(first);
    NumbersAreNatural(last);
    assert !IsDigit('-');
    hide IsDigit, Number, TakeDigits;
    TakesAllDigits(first, "-" + (last + rest));
    assert ("-" + (last + rest))[0] == '-' && ("-" + (last + rest))[1..] == last + rest;
    TakesAllDigits(last, rest);
  }

  /** Only such headers are understood. */
  lemma OnlySpelledHeadersAreRead(header: string) returns (first: string, last: string, rest: string)
    requires ParseRange(header).Some?
    ensures Spells(header, first, last, rest)
  {
    hide IsDigit, Number;
    var start := TakeDigits(header[6..]);
    var end := TakeDigits(start.rest[1..]);
    first, last, rest := start.taken, end.taken, end.rest;
    assert header == header[..6] + header[6..];
    assert start.rest == [start.rest[0]] + start.rest[1..];
  }

  /** A header that names a range is understood as that range, and so is the first range of a list. */
  lemma HeaderRoundTrip(first: nat, last: nat, rest: string)
    requires rest != "" ==> !IsDigit(rest[0])
    ensures ParseRange(RangeHeader(first, last) + rest) == Some(RangeSpec(first, Some(last)))
  {
    DecFacts(first);
    DecFacts(last);
    hide ParseRange, IsDigit, Dec, Number;
    assert RangeHeader(first, last) + rest == "bytes=" + (Dec(first) + ("-" + (Dec(last) + rest)));
    ReadsTheNumbers(RangeHeader(first, last) + rest, Dec(first), Dec(last), rest);
  }

  // ---------------------------------------------------------------- the response

  datatype Response =
    | BadRequest
    | NotSatisfiable(size: nat)
    | Partial(first: nat, last: int, size: nat, contentLength: int)
    | Full(contentLength: int)

  /** get_recording_media, from the size of an existing file on. */
  function Respond(header: Option<string>, size: nat): Response {
    if header.None? || header.value == "" then Full(size)
    else
      var range := ParseRange(header.value);
      if range.None? then BadRequest else RespondToRange(range.value, size)
  }

  function RespondToRange(range: RangeSpec, size: nat): Response {
    var last: int := if range.last.Some? then range.last.value else size - 1;
    if range.first >= size || last >= size then NotSatisfiable(size)
    else Partial(range.first, last, size, last - range.first + 1)
  }

  lemma RespondToSpelled(header: string, size: nat, first: string, last: string, rest: string)
    requires Spells(header, first, last, rest)
    ensures var a, b := Number(first), if last == "" then size - 1 else Number(last);
            a >= 0 && Respond(Some(header), size) == if a >= size || b >= size then NotSatisfiable(size) else Partial(a, b, size, b - a + 1)
  {
    hide ParseRange, AllDigits, IsDigit, Number;
    ReadsTheNumbers(header, first, last, rest);
    assert header[0] == 'b';
  }

  lemma RefusedIff(header: string, size: nat)
    requires header != ""
    ensures Respond(Some(header), size) == BadRequest <==> forall first, last, rest :: !Spells(header, first, last, rest)
  {
    hide ParseRange, Spells, RespondToRange;
    assert forall range: RangeSpec :: RespondToRange(range, size) != BadRequest by {
      AnswersAreNoRefusals(size);
    }
    if ParseRange(header).Some? {
      var first, last, rest := OnlySpelledHeadersAreRead(header);
      assert Spells(header, first, last, rest);
    } else if first, last, rest :| Spells(header, first, last, rest) {
      ReadsTheNumbers(header, first, last, rest);
    }
  }

  lemma AnswersAreNoRefusals(size: nat)
    ensures forall range: RangeSpec :: RespondToRange(range, size) != BadRequest
  {}

  /** The answers to a request: by whether it has a header that can be read, and then by its numbers and the file's size. */
  lemma RespondMeans(header: Option<string>, size: nat)
    ensures header.None? || header.value == "" ==> Respond(header, size) == Full(size)
    ensures header.Some? && header.value != "" ==>
              (Respond(header, size) == BadRequest <==> forall first, last, rest :: !Spells(header.value, first, last, rest))
    ensures forall first, last, rest :: header.Some? && Spells(header.value, first, last, rest) ==>
              var a, b := Number(first), if last == "" then size - 1 else Number(last);
              a >= 0 && Respond(header, size) == if a >= size || b >= size then NotSatisfiable(size) else Partial(a, b, size, b - a + 1)
  {
    hide ParseRange, Spells, RespondToRange, Number;
    if header.Some? && header.value != "" {
      RefusedIff(header.value, size);
    }
    forall first, last, rest | header.Some? && Spells(header.value, first, last, rest)
      ensures var a, b := Number(first), if last == "" then size - 1 else Number(last);
              a >= 0 && Respond(header, size) == if a >= size || b >= size then NotSatisfiable(size) else Partial(a, b, size, b - a + 1)
    {
      RespondToSpelled(header.value, size, first, last, rest);
    }
  }

  /** The last n bytes, which section 14.1.2 of RFC 9110 lets a client ask for, are refused as malformed. */
  lemma SuffixRangesAreRefused(n: nat, size: nat)
    ensures Respond(Some("bytes=-" + Dec(n)), size) == BadRequest
  {
    assert !IsDigit('-');
    hide Dec, IsDigit, RespondToRange;
    var header := "bytes=-" + Dec(n);
    assert header[0] == 'b' && header[6..][0] == '-';
  }

  // ------------------------------------------------------------------- the stream

  function Joined(chunks: seq<Bytes>): Bytes {
    if chunks == [] then [] else Joined(chunks[..|chunks| - 1]) + chunks[|chunks| - 1]
  }

  /** The bytes from `first` to `last`, both included, as far as the file has them. */
  function Slice(file: Bytes, first: nat, last: int): Bytes {
    if first >= |file| || last < first then []
    else if last + 1 > |file| then file[first..] else file[first..last + 1]
  }

  /** How much a read returns that may be short but is not empty before the end of the file. */
  function ReadSize(wanted: nat, available: nat, offered: nat): (n: nat)
    ensures n <= wanted && n <= available
    ensures wanted > 0 && available > 0 ==> n > 0
  {
    var most := if wanted < available then wanted else available;
    if offered < 1 && most > 0 then 1 else if offered > most then most else offered
  }

  lemma SliceGrows(file: Bytes, first: nat, position: nat, n: nat)
    requires first <= position && position + n <= |file| && n > 0
    ensures Slice(file, first, position - 1) + file[position..position + n] == Slice(file, first, position + n - 1)
  {}

  lemma OneMoreChunk(chunks: seq<Bytes>, chunk: Bytes)
    ensures Joined(chunks + [chunk]) == Joined(chunks) + chunk
  {
    assert (chunks + [chunk])[..|chunks|] == chunks;
  }

  /** Nothing is there to read, or nothing is asked for. */
  lemma StartOfStream(file: Bytes, first: nat, last: int)
    ensures Slice(file, first, first - 1) == [] && Joined([]) == []
    ensures last < first ==> Slice(file, first, last) == []
    ensures first >= |file| ==> Slice(file, first, last) == []
    ensures first < |file| <= last + 1 ==> Slice(file, first, last) == Slice(file, first, |file| - 1)
  {
    if first < |file| {
      assert file[first..|file|] == file[first..];
    }
  }

  /** _stream_file; `offers` is how many bytes the k-th read would like to return. */
  method StreamFile(file: Bytes, first: nat, last: int, offers: nat -> nat) returns (chunks: seq<Bytes>)
    ensures Joined(chunks) == Slice(file, first, last)
    ensures forall i :: 0 <= i < |chunks| ==> 1 <= |chunks[i]| <= 1048576
  {
    hide Slice, Joined, ReadSize;
    StartOfStream(file, first, last);
    var remaining := last - first + 1;
    var position := first;
    chunks := [];
    while remaining > 0
      invariant first <= position && position == last + 1 - remaining
      invariant remaining < 0 ==> last < first && chunks == []
      invariant position <= |file| || (first >= |file| && chunks == [])
      invariant last >= first - 1 ==> Joined(chunks) == Slice(file, first, position - 1)
      invariant last < first - 1 ==> chunks == []
      invariant forall i :: 0 <= i < |chunks| ==> 1 <= |chunks[i]| <= CHUNK_SIZE
      decreases remaining
    {
      var wanted := if remaining < CHUNK_SIZE then remaining else CHUNK_SIZE;
      var available := if position < |file| then |file| - position else 0;
      var n := ReadSize(wanted, available, offers(|chunks|));
      if n == 0 {
        break;
      }
      var chunk := file[position..position + n];
      OneMoreChunk(chunks, chunk);
      SliceGrows(file, first, position, n);
      remaining := remaining - n;
      chunks := chunks + [chunk];
      position := position + n;
    }
  }

  // -------------------------------------------------------------- what a client gets

  /** The body that goes with a response. */
  function Body(r: Response, file: Bytes): Bytes {
    match r
    case Partial(first, last, _, _) => Slice(file, first, last)
    case Full(_) => Slice(file, 0, |file| - 1)
    case _ => []
  }

  /**
    The declared content length is the length of the body, for every accepted
    range, exactly when the range does not end more than one byte before it
    starts; a whole file is always declared right.
   */
  lemma DeclaredLengthIff(header: Option<string>, file: Bytes)
    ensures var r := Respond(header, |file|);
            && (r.Partial? ==> (|Body(r, file)| == r.contentLength <==> r.first <= r.last + 1))
            && (r.Full? ==> Body(r, file) == file && |file| == r.contentLength)
  {}

  /** An accepted range in order: exactly those bytes, and the numbers of its content-range. */
  lemma AcceptedRangeIsExact(range: RangeSpec, file: Bytes)
    requires range.last.Some? ==> range.first <= range.last.value
    ensures var r := RespondToRange(range, |file|);
            r.Partial? ==>
              && r.first == range.first && r.first <= r.last < |file| == r.size
              && Body(r, file) == file[r.first..r.last + 1] && |Body(r, file)| == r.contentLength
              && (if range.last.Some? then r.last == range.last.value else r.last == |file| - 1)
  {}

  /**
    What section 14.1.2 of RFC 9110 selects for a valid range: nothing from a
    first position beyond the end, and otherwise up to the last position or the
    end of the file, whichever comes first.
   */
  function Selected(range: RangeSpec, size: nat): Option<(nat, nat)>
    requires range.last.Some? ==> range.first <= range.last.value
  {
    if range.first >= size then None
    else Some((range.first, if range.last.Some? && range.last.value < size then range.last.value else size - 1))
  }

  function StandardResponse(range: RangeSpec, size: nat): Response
    requires range.last.Some? ==> range.first <= range.last.value
  {
    match Selected(range, size)
    case None => NotSatisfiable(size)
    case Some(bounds) => Partial(bounds.0, bounds.1, size, bounds.1 - bounds.0 + 1)
  }

  /** The code follows it except where the range starts inside the file and names an end outside. */
  lemma AgreesWithTheStandardIff(range: RangeSpec, size: nat)
    requires range.last.Some? ==> range.first <= range.last.value
    ensures RespondToRange(range, size) == StandardResponse(range, size)
       <==> !(range.first < size && range.last.Some? && range.last.value >= size)
  {}

  predicate Rising(cuts: seq<nat>) {
    forall i :: 0 <= i < |cuts| - 1 ==> cuts[i] < cuts[i + 1]
  }

  /** Asking for one piece after the other, each by its own header, and joining the bodies. */
  function Fetched(file: Bytes, cuts: seq<nat>): Bytes
    requires Rising(cuts)
  {
    if |cuts| < 2 then []
    else
      var n := |cuts| - 1;
      Fetched(file, cuts[..n]) + Piece(file, cuts[n - 1], cuts[n])
  }

  function Piece(file: Bytes, from: nat, to: nat): Bytes
    requires from < to
  {
    Body(Respond(Some(RangeHeader(from, to - 1)), |file|), file)
  }

  lemma PieceIsExact(file: Bytes, from: nat, to: nat)
    requires from < to <= |file|
    ensures Piece(file, from, to) == file[from..to]
  {
    hide ParseRange, RangeHeader;
    HeaderRoundTrip(from, to - 1, "");
    assert RangeHeader(from, to - 1) + "" == RangeHeader(from, to - 1);
    HeaderIsSomething(from, to - 1);
    var range := RangeSpec(from, Some(to - 1));
    assert Respond(Some(RangeHeader(from, to - 1)), |file|) == RespondToRange(range, |file|);
    AcceptedRangeIsExact(range, file);
  }

  lemma {:induction false} PiecesGrow(file: Bytes, cuts: seq<nat>)
    requires cuts != [] && Rising(cuts) && cuts[|cuts| - 1] <= |file|
    ensures cuts[0] <= cuts[|cuts| - 1] && Fetched(file, cuts) == file[cuts[0]..cuts[|cuts| - 1]]
  {
    hide Piece;
    if |cuts| == 1 {
    } else {
      var n := |cuts| - 1;
      PiecesGrow(file, cuts[..n]);
      PieceIsExact(file, cuts[n - 1], cuts[n]);
      assert file[cuts[0]..cuts[n - 1]] + file[cuts[n - 1]..cuts[n]] == file[cuts[0]..cuts[n]];
    }
  }

  lemma HeaderIsSomething(first: nat, last: nat)
    ensures RangeHeader(first, last) != ""
  {
    assert RangeHeader(first, last)[0] == 'b';
  }

  /** However a file is cut into adjacent ranges, their bodies put together are the file. */
  lemma AdjacentRangesReassemble(file: Bytes, cuts: seq<nat>)
    requires cuts != [] && Rising(cuts) && cuts[0] == 0 && cuts[|cuts| - 1] == |file|
    ensures Fetched(file, cuts) == file
  {
    PiecesGrow(file, cuts);
    assert file[0..|file|] == file;
  }
}
