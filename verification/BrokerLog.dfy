/**
 Two readers of the broker's decision log: the tailer that follows the file while it grows,
 and the one-shot reader used when the result is built. The JSON parser of one line is a
 parameter.
 */
module BrokerLog {
  import opened Common
  import opened Utf8
  import opened OutputCapture

  const WINDOW: nat := 1024 * 1024
  const CARRIAGE_RETURN: Byte := 13

  // ----- lines of text

  /** Index of the first newline, or the length. */
  function FirstNewline(text: Bytes): (k: nat)
    ensures k <= |text| && NEWLINE !in text[..k]
    ensures k < |text| ==> text[k] == NEWLINE
  {
    if text == [] || text[0] == NEWLINE then 0
    else
      var k := FirstNewline(text[1..]);
      assert text[..k + 1] == [text[0]] + text[1..][..k];
      k + 1
  }

  /** A line ending in a newline loses one carriage return before it. */
  function StripReturn(line: Bytes): Bytes {
    if line != [] && line[|line| - 1] == CARRIAGE_RETURN then line[..|line| - 1] else line
  }

  /** `str::lines`. */
  function Lines(text: Bytes): seq<Bytes>
    decreases |text|
  {
    if text == [] then []
    else
      var k := FirstNewline(text);
      if k == |text| then [text] else [StripReturn(text[..k])] + Lines(text[k + 1..])
  }

  /** The decision of one line: empty lines ignored, malformed ones skipped. */
  function ParsedLine<D>(parse: Bytes -> Option<D>, line: Bytes): seq<D> {
    if line != [] && parse(line).Some? then [parse(line).value] else []
  }

  /** The decisions of a list of lines, in order. */
  function Parsed<D>(parse: Bytes -> Option<D>, lines: seq<Bytes>): seq<D>
    decreases |lines|
  {
    if lines == [] then [] else ParsedLine(parse, lines[0]) + Parsed(parse, lines[1..])
  }

  function Decisions<D>(parse: Bytes -> Option<D>, text: Bytes): seq<D> { Parsed(parse, Lines(text)) }

  /** Nothing or whole lines. */
  predicate AtLineStart(text: Bytes) { text == [] || text[|text| - 1] == NEWLINE }

  lemma {:induction false} FirstNewlineOfConcat(a: Bytes, b: Bytes)
    requires NEWLINE in a
    ensures FirstNewline(a + b) == FirstNewline(a) < |a|
  {
    if a[0] != NEWLINE {
      assert a == [a[0]] + a[1..];
      FirstNewlineOfConcat(a[1..], b);
      assert (a + b)[1..] == a[1..] + b;
    }
  }

  /** Splitting off the first line does not look past its newline. */
  lemma FirstLineOfConcat(a: Bytes, b: Bytes)
    requires NEWLINE in a
    ensures
      var k := FirstNewline(a);
      k < |a| && Lines(a + b) == [StripReturn(a[..k])] + Lines(a[k + 1..] + b)
  {
    FirstNewlineOfConcat(a, b);
    var k := FirstNewline(a);
    assert (a + b)[..k] == a[..k];
    assert (a + b)[k + 1..] == a[k + 1..] + b;
  }

  lemma FirstLine(a: Bytes)
    requires NEWLINE in a
    ensures
      var k := FirstNewline(a);
      k < |a| && Lines(a) == [StripReturn(a[..k])] + Lines(a[k + 1..])
  {
    FirstLineOfConcat(a, []);
    assert a + [] == a;
    assert a[FirstNewline(a) + 1..] + [] == a[FirstNewline(a) + 1..];
  }

  /** A line ends at its newline, and a carriage return right before that belongs to the line ending. */
  lemma LineEndings(line: Bytes, rest: Bytes)
    requires NEWLINE !in line
    ensures (line == [] || line[|line| - 1] != CARRIAGE_RETURN) ==> Lines(line + [NEWLINE] + rest) == [line] + Lines(rest)
    ensures Lines(line + [CARRIAGE_RETURN, NEWLINE] + rest) == [line] + Lines(rest)
  {
    LineEnding(line, rest);
    var longer := line + [CARRIAGE_RETURN];
    LineEnding(longer, rest);
    assert longer + [NEWLINE] + rest == line + [CARRIAGE_RETURN, NEWLINE] + rest;
    assert longer[..|longer| - 1] == line;
  }

  lemma LineEnding(line: Bytes, rest: Bytes)
    requires NEWLINE !in line
    ensures Lines(line + [NEWLINE] + rest) == [StripReturn(line)] + Lines(rest)
  {
    var first := line + [NEWLINE];
    FirstNewlineAt(line);
    FirstLineOfConcat(first, rest);
    assert first[..|line|] == line && first[|line| + 1..] + rest == rest;
  }

  lemma Reassociate(a: seq<Bytes>, b: seq<Bytes>, c: seq<Bytes>)
    ensures a + (b + c) == (a + b) + c
  {
  }

  lemma {:induction false} LinesOfConcat(a: Bytes, b: Bytes)
    requires AtLineStart(a)
    ensures Lines(a + b) == Lines(a) + Lines(b)
    decreases |a|
  {
    if a == [] {
      assert a + b == b;
    } else {
      assert a[|a| - 1] in a;
      FirstLineOfConcat(a, b);
      FirstLine(a);
      var line, rest := [StripReturn(a[..FirstNewline(a)])], a[FirstNewline(a) + 1..];
      LinesOfConcat(rest, b);
      Reassociate(line, Lines(rest), Lines(b));
    }
  }

  lemma {:induction false} ParsedOfConcat<D>(parse: Bytes -> Option<D>, a: seq<Bytes>, b: seq<Bytes>)
    ensures Parsed(parse, a + b) == Parsed(parse, a) + Parsed(parse, b)
    decreases |a|
  {
    if a == [] {
      assert a + b == b;
    } else {
      ParsedOfConcat(parse, a[1..], b);
      assert (a + b)[1..] == a[1..] + b && (a + b)[0] == a[0];
      hide ParsedLine;
      var x, y, z := ParsedLine(parse, a[0]), Parsed(parse, a[1..]), Parsed(parse, b);
      assert x + (y + z) == x + y + z;
    }
  }

  lemma ParsedOfSnoc<D>(parse: Bytes -> Option<D>, lines: seq<Bytes>, last: Bytes)
    ensures Parsed(parse, lines + [last]) == Parsed(parse, lines) + ParsedLine(parse, last)
  {
    hide ParsedLine;
    ParsedOfConcat(parse, lines, [last]);
    var one: seq<Bytes> := [last];
    assert one[1..] == [];
    assert ParsedLine(parse, last) + [] == ParsedLine(parse, last);
  }

  lemma DecisionsOfConcat<D>(parse: Bytes -> Option<D>, a: Bytes, b: Bytes)
    requires AtLineStart(a)
    ensures Decisions(parse, a + b) == Decisions(parse, a) + Decisions(parse, b)
  {
    LinesOfConcat(a, b);
    ParsedOfConcat(parse, Lines(a), Lines(b));
  }

  /** The parsing loop both readers run over the lines they have read. */
  method ParseLines<D>(parse: Bytes -> Option<D>, lines: seq<Bytes>) returns (decisions: seq<D>, malformed: nat)
    ensures decisions == Parsed(parse, lines)
    ensures malformed > 0 <==> SomeMalformed(parse, lines)
  {
    decisions, malformed := [], 0;
    var i := 0;
    assert lines[..0] == [] && Parsed(parse, lines[..0]) == [];
    hide Parsed;
    while i < |lines|
      invariant 0 <= i <= |lines|
      invariant decisions == Parsed(parse, lines[..i])
      invariant malformed > 0 <==> SomeMalformed(parse, lines[..i])
    {
      assert lines[..i + 1] == lines[..i] + [lines[i]];
      ParsedOfSnoc(parse, lines[..i], lines[i]);
      MalformedOfSnoc(parse, lines[..i], lines[i]);
      if lines[i] != [] {
        var decision := parse(lines[i]);
        if decision.Some? {
          decisions := decisions + [decision.value];
        } else {
          malformed := malformed + 1;
        }
      }
      i := i + 1;
    }
    assert lines[..|lines|] == lines;
  }

  predicate SomeMalformed<D>(parse: Bytes -> Option<D>, lines: seq<Bytes>) {
    exists i | 0 <= i < |lines| :: lines[i] != [] && parse(lines[i]).None?
  }

  lemma MalformedOfSnoc<D>(parse: Bytes -> Option<D>, lines: seq<Bytes>, last: Bytes)
    ensures SomeMalformed(parse, lines + [last]) <==> SomeMalformed(parse, lines) || (last != [] && parse(last).None?)
  {
    var all := lines + [last];
    assert forall i | 0 <= i < |lines| :: all[i] == lines[i];
    assert all[|lines|] == last;
  }

  // ----- the tailer

  /** What one poll gets to see: at most a window from the offset. */
  function Chunk(file: Bytes, offset: nat): Bytes
    requires offset <= |file|
  {
    if |file| - offset <= WINDOW then file[offset..] else file[offset..offset + WINDOW]
  }

  /** Length up to and including the last newline, or 0. */
  function Consumed(chunk: Bytes): (n: nat)
    ensures n <= |chunk| && (n > 0 <==> NEWLINE in chunk)
    ensures n > 0 ==> chunk[n - 1] == NEWLINE
    ensures forall i | n <= i < |chunk| :: chunk[i] != NEWLINE
  {
    if chunk == [] then 0
    else if chunk[|chunk| - 1] == NEWLINE then |chunk|
    else Consumed(chunk[..|chunk| - 1])
  }

  /** Where a poll leaves the offset: a chunk that is not UTF-8 is not consumed at all. */
  function Polled(file: Bytes, offset: nat): (next: nat)
    requires offset <= |file|
    ensures offset <= next <= |file|
  {
    var chunk := Chunk(file, offset);
    if Valid(chunk) then offset + Consumed(chunk) else offset
  }

  /** What a poll sends. */
  function Sent<D>(parse: Bytes -> Option<D>, file: Bytes, offset: nat): seq<D>
    requires offset <= |file|
  {
    var chunk := Chunk(file, offset);
    if Valid(chunk) && Consumed(chunk) > 0 then Decisions(parse, chunk[..Consumed(chunk)]) else []
  }

  /** The tailer has sent exactly the decisions of the whole lines before its offset. */
  ghost predicate Caught<D>(parse: Bytes -> Option<D>, file: Bytes, offset: nat, sent: seq<D>) {
    offset <= |file| && AtLineStart(file[..offset]) && sent == Decisions(parse, file[..offset])
  }

  class Tailer<D> {
    const parse: Bytes -> Option<D>
    var offset: nat
    var sent: seq<D>

    constructor (parse: Bytes -> Option<D>)
      ensures this.parse == parse && offset == 0 && sent == []
    {
      this.parse := parse;
      offset, sent := 0, [];
    }

    /**
     One poll. However the file has grown since, each whole line's decision is sent once, in
     file order, and a torn line is left for a later poll.
     */
    method Poll(file: Option<Bytes>, ghost before: Bytes)
      requires Caught(parse, before, offset, sent)
      requires file.Some? ==> before <= file.value
      modifies this
      ensures file.Some? ==>
        && old(offset) <= |file.value| && Caught(parse, file.value, offset, sent)
        && offset == Polled(file.value, old(offset)) && sent == old(sent) + Sent(parse, file.value, old(offset))
      ensures file.None? ==> offset == old(offset) && sent == old(sent)
    {
      if file.None? {
        return;
      }
      hide Lines, Parsed, Valid, Consumed, AtLineStart, Caught, Chunk, Polled, Sent, Decisions;
      CaughtGrows(parse, before, file.value, offset, sent);
      PollKeepsCaught(parse, file.value, offset, sent);
      var found, next := ReadPast(parse, file.value, offset);
      sent, offset := sent + found, next;
    }
  }

  /** Read a window past the offset and parse its whole lines; a torn last line is not consumed. */
  method ReadPast<D>(parse: Bytes -> Option<D>, file: Bytes, offset: nat) returns (found: seq<D>, next: nat)
    requires offset <= |file|
    ensures found == Sent(parse, file, offset) && next == Polled(file, offset)
  {
    hide Lines, Parsed, Valid, Consumed, Chunk;
    found, next := [], offset;
    var chunk := Chunk(file, offset);
    if Valid(chunk) {
      var consumed := Consumed(chunk);
      if consumed > 0 {
        var decisions, _ := ParseLines(parse, Lines(chunk[..consumed]));
        found, next := decisions, offset + consumed;
      }
    }
  }

  lemma CaughtGrows<D>(parse: Bytes -> Option<D>, before: Bytes, file: Bytes, offset: nat, sent: seq<D>)
    requires Caught(parse, before, offset, sent) && before <= file
    ensures offset <= |file| && Caught(parse, file, offset, sent)
  {
    assert file[..offset] == before[..offset];
  }

  /** A piece of the chunk that ends a line extends the lines before the offset. */
  lemma PieceFollows(file: Bytes, offset: nat, n: nat)
    requires offset <= |file| && 0 < n <= |Chunk(file, offset)| && Chunk(file, offset)[n - 1] == NEWLINE
    ensures offset + n <= |file| && AtLineStart(file[..offset + n])
    ensures file[..offset + n] == file[..offset] + Chunk(file, offset)[..n]
  {
    assert Chunk(file, offset)[n - 1] == file[offset + n - 1];
  }

  lemma CaughtAdvances<D>(parse: Bytes -> Option<D>, file: Bytes, offset: nat, sent: seq<D>, n: nat)
    requires Caught(parse, file, offset, sent) && n == Consumed(Chunk(file, offset)) && n > 0
    ensures Caught(parse, file, offset + n, sent + Decisions(parse, Chunk(file, offset)[..n]))
  {
    hide Decisions, Consumed, Chunk, AtLineStart;
    PieceFollows(file, offset, n);
    DecisionsOfConcat(parse, file[..offset], Chunk(file, offset)[..n]);
  }

  /** Snapshots of one append-only file, in the order the tailer polls them. */
  ghost predicate Growing(files: seq<Bytes>) {
    forall i | 0 < i < |files| :: files[i - 1] <= files[i]
  }

  /** The offset after polling each snapshot in turn. */
  ghost function Followed(files: seq<Bytes>): (offset: nat)
    requires Growing(files)
    ensures files != [] ==> offset <= |files[|files| - 1]|
    ensures files == [] ==> offset == 0
  {
    if files == [] then 0 else Polled(files[|files| - 1], Followed(files[..|files| - 1]))
  }

  /** Everything sent while polling each snapshot in turn. */
  ghost function SentBy<D>(parse: Bytes -> Option<D>, files: seq<Bytes>): seq<D>
    requires Growing(files)
    decreases |files|
  {
    if files == [] then []
    else
      var earlier, last := files[..|files| - 1], files[|files| - 1];
      SentBy(parse, earlier) + Sent(parse, last, Followed(earlier))
  }

  /**
   However the file grows between polls, the offset rests at the start of a line, and what
   has been sent is exactly the decisions of the whole lines before it, once each and in
   order.
   */
  lemma {:induction false} FollowingMissesNothing<D>(parse: Bytes -> Option<D>, files: seq<Bytes>)
    requires Growing(files) && files != []
    ensures Caught(parse, files[|files| - 1], Followed(files), SentBy(parse, files))
    decreases |files|
  {
    hide Caught, Polled, Sent;
    var last, earlier := files[|files| - 1], files[..|files| - 1];
    var offset, sent := Followed(earlier), SentBy(parse, earlier);
    if earlier != [] {
      FollowingMissesNothing(parse, earlier);
      assert earlier[|earlier| - 1] <= last;
      CaughtGrows(parse, earlier[|earlier| - 1], last, offset, sent);
    } else {
      NothingCaughtYet(parse, last);
    }
    PollKeepsCaught(parse, last, offset, sent);
  }

  lemma NothingCaughtYet<D>(parse: Bytes -> Option<D>, file: Bytes)
    ensures Caught(parse, file, 0, [])
  {
    assert file[..0] == [];
  }

  lemma PollKeepsCaught<D>(parse: Bytes -> Option<D>, file: Bytes, offset: nat, sent: seq<D>)
    requires offset <= |file| && Caught(parse, file, offset, sent)
    ensures Caught(parse, file, Polled(file, offset), sent + Sent(parse, file, offset))
  {
    hide Caught, Decisions, Chunk, Consumed, Valid;
    var n := Consumed(Chunk(file, offset));
    if n > 0 {
      CaughtAdvances(parse, file, offset, sent, n);
    }
    assert sent + [] == sent;
  }

  // ----- when the tailer catches up

  lemma PollMovesIff(file: Bytes, offset: nat)
    requires offset <= |file|
    ensures Polled(file, offset) > offset <==> Valid(Chunk(file, offset)) && NEWLINE in Chunk(file, offset)
  {
  }

  /** Short of the end, before a window that is not UTF-8 or holds no complete line. */
  predicate Stuck(file: Bytes, offset: nat)
    requires offset <= |file|
  {
    offset < |file| && !(Valid(Chunk(file, offset)) && NEWLINE in Chunk(file, offset))
  }

  /** The offset after `n` polls of a finished file. */
  function PolledTimes(file: Bytes, offset: nat, n: nat): (last: nat)
    requires offset <= |file|
    ensures offset <= last <= |file|
    decreases n
  {
    if n == 0 then offset else PolledTimes(file, Polled(file, offset), n - 1)
  }

  lemma {:induction false} PollsAdd(file: Bytes, offset: nat, m: nat, n: nat)
    requires offset <= |file|
    ensures PolledTimes(file, offset, m + n) == PolledTimes(file, PolledTimes(file, offset, m), n)
    decreases m
  {
    hide Polled;
    if m > 0 {
      PollsAdd(file, Polled(file, offset), m - 1, n);
    }
  }

  lemma {:induction false} StuckStays(file: Bytes, offset: nat, n: nat)
    requires offset <= |file| && Stuck(file, offset)
    ensures PolledTimes(file, offset, n) == offset < |file|
    decreases n
  {
    PollMovesIff(file, offset);
    if n > 0 {
      StuckStays(file, offset, n - 1);
    }
  }

  /** Some number of polls reaches the end of a finished file. */
  ghost predicate CatchesUp(file: Bytes, offset: nat)
    requires offset <= |file|
  {
    exists n: nat :: PolledTimes(file, offset, n) == |file|
  }

  /** No offset the polls stop at is stuck. */
  ghost predicate NeverStuck(file: Bytes, offset: nat)
    requires offset <= |file|
  {
    forall n: nat :: !Stuck(file, PolledTimes(file, offset, n))
  }

  /** A tailer that never gets stuck reaches the end, in no more polls than there are bytes. */
  lemma {:induction false} UnstuckArrives(file: Bytes, offset: nat) returns (n: nat)
    requires offset <= |file| && NeverStuck(file, offset)
    ensures n <= |file| - offset && PolledTimes(file, offset, n) == |file|
    decreases |file| - offset
  {
    hide Polled, Valid, Chunk;
    if offset == |file| {
      n := 0;
    } else {
      var next := Polled(file, offset);
      assert !Stuck(file, PolledTimes(file, offset, 0));
      PollMovesIff(file, offset);
      forall k: nat ensures !Stuck(file, PolledTimes(file, next, k)) {
        assert PolledTimes(file, next, k) == PolledTimes(file, offset, k + 1);
      }
      var rest := UnstuckArrives(file, next);
      n := rest + 1;
    }
  }

  lemma StuckNeverArrives(file: Bytes, offset: nat, k: nat, n: nat)
    requires offset <= |file| && Stuck(file, PolledTimes(file, offset, k))
    ensures PolledTimes(file, offset, n) != |file|
  {
    hide Polled, Stuck;
    var stop := PolledTimes(file, offset, k);
    StuckStays(file, stop, 0);
    if n <= k {
      PollsAdd(file, offset, n, k - n);
    } else {
      PollsAdd(file, offset, k, n - k);
      StuckStays(file, stop, n - k);
    }
  }

  /** A finished file is read to its end if and only if no offset on the way is stuck. */
  lemma CatchesUpIff(file: Bytes, offset: nat)
    requires offset <= |file|
    ensures CatchesUp(file, offset) <==> NeverStuck(file, offset)
  {
    hide Polled, Stuck;
    if NeverStuck(file, offset) {
      var n := UnstuckArrives(file, offset);
    } else {
      var k: nat :| Stuck(file, PolledTimes(file, offset, k));
      forall n: nat ensures PolledTimes(file, offset, n) != |file| {
        StuckNeverArrives(file, offset, k, n);
      }
    }
  }

  /** Every line is complete within one window of its start. */
  ghost predicate LinesFit(file: Bytes, end: nat)
    requires end <= |file|
  {
    forall o: nat | o < end && AtLineStart(file[..o]) :: NEWLINE in Chunk(file, o)
  }

  /** No window the polls stop before is cut inside a character. */
  ghost predicate StopsWhole(file: Bytes) {
    forall n: nat ::
      var o := PolledTimes(file, 0, n);
      o + WINDOW < |file| ==> Boundary(file, o + WINDOW)
  }

  /**
   In terms of the file: it is read to its end if and only if it is UTF-8, every line is
   complete within a window, and no window the polls stop before is cut inside a character.
   */
  lemma CatchesUpIffTame(file: Bytes)
    ensures CatchesUp(file, 0) <==> Valid(file) && LinesFit(file, |file|) && StopsWhole(file)
  {
    hide Stuck, Polled, AtLineStart, Valid, LinesFit, CatchesUp, Boundary;
    CatchesUpIff(file, 0);
    if CatchesUp(file, 0) {
      ReadWholeMeansTame(file);
    }
    if Valid(file) && LinesFit(file, |file|) {
      forall n: nat ensures
        var o := PolledTimes(file, 0, n);
        !Stuck(file, o) <==> (o + WINDOW < |file| ==> Boundary(file, o + WINDOW))
      {
        EmptyIsAtLineStart(file);
        PollsStayAtLineStarts(file, 0, n);
        StuckIffCut(file, PolledTimes(file, 0, n));
      }
    }
  }

  lemma EmptyIsAtLineStart(file: Bytes)
    ensures AtLineStart(file[..0])
  {
  }

  /** In a log of complete UTF-8 lines, only a window cut inside a character holds the tailer. */
  lemma StuckIffCut(file: Bytes, offset: nat)
    requires offset <= |file| && AtLineStart(file[..offset]) && Valid(file) && LinesFit(file, |file|)
    ensures Stuck(file, offset) <==> offset + WINDOW < |file| && !Boundary(file, offset + WINDOW)
  {
    hide Valid, Boundary, Chunk, AtLineStart;
    if offset < |file| {
      LineStartIsBoundary(file, offset);
      WindowOfText(file, offset);
    }
  }

  /**
   For callers, without following the polls: a log of complete UTF-8 lines of at most a window
   each, no window from a line start being cut inside a character, is read to its end from
   any line.
   */
  lemma TameLogIsReadWhole(file: Bytes, offset: nat)
    requires offset <= |file| && AtLineStart(file[..offset])
    requires Valid(file) && LinesFit(file, |file|)
    requires forall o: nat | o + WINDOW < |file| && AtLineStart(file[..o]) :: Boundary(file, o + WINDOW)
    ensures CatchesUp(file, offset)
  {
    hide Stuck, Polled, AtLineStart, Valid, LinesFit, Boundary, CatchesUp;
    forall k: nat ensures !Stuck(file, PolledTimes(file, offset, k)) {
      PollsStayAtLineStarts(file, offset, k);
      StuckIffCut(file, PolledTimes(file, offset, k));
    }
    CatchesUpIff(file, offset);
  }

  lemma {:induction false} PollsStayAtLineStarts(file: Bytes, offset: nat, n: nat)
    requires offset <= |file| && AtLineStart(file[..offset])
    ensures AtLineStart(file[..PolledTimes(file, offset, n)])
    decreases n
  {
    hide AtLineStart;
    if n > 0 {
      PollKeepsLineStart(file, offset);
      PollsStayAtLineStarts(file, Polled(file, offset), n - 1);
    }
  }

  lemma PollKeepsLineStart(file: Bytes, offset: nat)
    requires offset <= |file| && AtLineStart(file[..offset])
    ensures AtLineStart(file[..Polled(file, offset)])
  {
    hide AtLineStart, Valid, Consumed, Chunk;
    var n := Consumed(Chunk(file, offset));
    if n > 0 {
      PieceFollows(file, offset, n);
    }
  }

  /** A window of text that starts between characters is text exactly when it ends between characters. */
  lemma WindowOfText(file: Bytes, offset: nat)
    requires Valid(file) && offset < |file| && Boundary(file, offset)
    ensures Valid(Chunk(file, offset)) <==> (offset + WINDOW < |file| ==> Boundary(file, offset + WINDOW))
  {
    hide Valid;
    BoundaryIffPrefixValid(file, offset);
    var rest := file[offset..];
    if offset + WINDOW < |file| {
      assert rest[WINDOW] == file[offset + WINDOW];
      BoundaryIffPrefixValid(rest, WINDOW);
      assert Chunk(file, offset) == rest[..WINDOW];
    }
  }

  /** And only such logs are read to their end: UTF-8, complete lines, each within a window. */
  lemma ReadWholeMeansTame(file: Bytes)
    requires CatchesUp(file, 0)
    ensures Valid(file) && AtLineStart(file) && LinesFit(file, |file|)
  {
    hide Valid, AtLineStart, LinesFit;
    var n: nat :| PolledTimes(file, 0, n) == |file|;
    NothingIsTame(file);
    PollsKeepTame(file, 0, n);
    assert file[..|file|] == file;
  }

  ghost predicate TameUpTo(file: Bytes, end: nat)
    requires end <= |file|
  {
    Valid(file[..end]) && AtLineStart(file[..end]) && LinesFit(file, end)
  }

  lemma NothingIsTame(file: Bytes)
    ensures TameUpTo(file, 0)
  {
    assert file[..0] == [];
  }

  lemma {:induction false} PollsKeepTame(file: Bytes, offset: nat, n: nat)
    requires offset <= |file| && TameUpTo(file, offset)
    ensures TameUpTo(file, PolledTimes(file, offset, n))
    decreases n
  {
    hide TameUpTo, Polled;
    if n > 0 {
      PollKeepsTame(file, offset);
      PollsKeepTame(file, Polled(file, offset), n - 1);
    }
  }

  lemma PollKeepsTame(file: Bytes, offset: nat)
    requires offset <= |file| && TameUpTo(file, offset)
    ensures TameUpTo(file, Polled(file, offset))
  {
    hide Valid, AtLineStart, Consumed, LinesFit, Chunk;
    var chunk := Chunk(file, offset);
    var n := Consumed(chunk);
    if Valid(chunk) && n > 0 {
      PieceFollows(file, offset, n);
      ConsumedIsText(chunk);
      TextConcat(file[..offset], chunk[..n]);
      LinesFitFurther(file, offset, n);
    }
  }

  /** Text up to and including a newline is text. */
  lemma ConsumedIsText(chunk: Bytes)
    requires Valid(chunk)
    ensures Valid(chunk[..Consumed(chunk)])
  {
    hide Valid, Consumed;
    var n := Consumed(chunk);
    if 0 < n < |chunk| {
      AfterAsciiIsBoundary(chunk, n - 1);
    }
    BoundaryIffPrefixValid(chunk, n);
  }

  lemma LinesFitFurther(file: Bytes, offset: nat, n: nat)
    requires offset <= |file| && LinesFit(file, offset)
    requires 0 < n <= |Chunk(file, offset)| && Chunk(file, offset)[n - 1] == NEWLINE
    ensures offset + n <= |file| && LinesFit(file, offset + n)
  {
    var last := offset + n - 1;
    assert file[last] == Chunk(file, offset)[n - 1];
    forall o: nat | o < offset + n && AtLineStart(file[..o]) ensures NEWLINE in Chunk(file, o) {
      if o >= offset {
        assert Chunk(file, o)[last - o] == file[last];
      }
    }
  }

  // ----- stalls no later write can end

  /** No bytes appended within the window make it text with a complete line. */
  predicate Hopeless(chunk: Bytes) {
    Lacks(chunk).None? || |chunk| + |Lacks(chunk).value| + (if NEWLINE in chunk then 0 else 1) > WINDOW
  }

  /**
   The tailer stays at an offset however the file grows if and only if its window is hopeless:
   it holds a byte sequence no character can contain, or what is still lacking (the rest of a
   character, a newline) no longer fits.
   */
  lemma StalledForGood(file: Bytes, offset: nat)
    requires offset <= |file|
    ensures (forall grown | file <= grown :: Polled(grown, offset) == offset) <==> Hopeless(Chunk(file, offset))
  {
    hide Valid, Polled, Lacks, Hopeless, Chunk;
    if Hopeless(Chunk(file, offset)) {
      forall grown | file <= grown ensures Polled(grown, offset) == offset {
        HopelessStays(file, offset, grown);
      }
    } else {
      var grown := Rescue(file, offset);
    }
  }

  lemma HopelessStays(file: Bytes, offset: nat, grown: Bytes)
    requires offset <= |file| && Hopeless(Chunk(file, offset)) && file <= grown
    ensures Polled(grown, offset) == offset
  {
    hide Valid, Lacks, Consumed;
    var chunk, larger := Chunk(file, offset), Chunk(grown, offset);
    var more := larger[|chunk|..];
    assert larger == chunk + more && |larger| <= WINDOW;
    if Valid(larger) {
      LackingIsShortest(chunk, more);
      assert forall i | 0 <= i < |more| :: larger[|chunk| + i] == more[i];
      assert forall i | |chunk| <= i < |larger| :: larger[i] == more[i - |chunk|];
    }
  }

  /** Otherwise completing the character and the line sets the tailer moving again. */
  lemma Rescue(file: Bytes, offset: nat) returns (grown: Bytes)
    requires offset <= |file| && !Hopeless(Chunk(file, offset))
    ensures file <= grown && Polled(grown, offset) > offset
  {
    hide Valid, Lacks;
    var chunk := Chunk(file, offset);
    var text := chunk + Lacks(chunk).value;
    var end: Bytes := if NEWLINE in chunk then [] else [NEWLINE];
    grown := file + (Lacks(chunk).value + end);
    LackingCompletes(chunk);
    AsciiIsText(end);
    TextConcat(text, end);
    assert Chunk(grown, offset) == text + end;
    PollMovesIff(grown, offset);
  }

  /**
   A torn last character. The shim's log can end inside a character when a write fails; the
   tailer then never sends even the whole lines before it, and the one-shot reader does.
   */
  lemma TornCharacterStalls<D>(parse: Bytes -> Option<D>, n: nat)
    ensures
      var offers := [Offer([65, NEWLINE], None), Offer([0xC3, 0xA9, NEWLINE], Some(1))];
      var file := WriteAll(Opened(WINDOW), offers, true).file;
      && file == [65, NEWLINE, 0xC3]
      && PolledTimes(file, 0, n) == 0
      && Decisions(parse, Lossy(file)) == ParsedLine(parse, [65]) + ParsedLine(parse, REPLACEMENT)
  {
    TornFile();
    var file: Bytes := [65, NEWLINE, 0xC3];
    assert Chunk(file, 0) == file;
    TornIsNotText();
    StuckStays(file, 0, n);
    TornText(parse);
  }

  lemma TornIsNotText()
    ensures !Valid([65, NEWLINE, 0xC3])
  {
    var c: Bytes, b: Bytes, a: Bytes := [0xC3], [NEWLINE, 0xC3], [65, NEWLINE, 0xC3];
    assert CharLength(c) == 0 && !Valid(c);
    assert CharLength(b) == 1 && b[1..] == c && !Valid(b);
    assert CharLength(a) == 1 && a[1..] == b;
  }

  lemma TornFile()
    ensures
      var offers := [Offer([65, NEWLINE], None), Offer([0xC3, 0xA9, NEWLINE], Some(1))];
      WriteAll(Opened(WINDOW), offers, true).file == [65, NEWLINE, 0xC3]
  {
    var a, b := Offer([65, NEWLINE], None), Offer([0xC3, 0xA9, NEWLINE], Some(1));
    var st := Written(Opened(WINDOW), a.bytes, true, None);
    assert st.file == [65, NEWLINE];
    assert Written(st, b.bytes, true, b.fails).file == [65, NEWLINE] + [0xC3];
    assert [a, b][1..] == [b] && [b][1..] == [];
    assert WriteAll(Opened(WINDOW), [a, b], true) == WriteAll(st, [b], true);
  }

  lemma TornText<D>(parse: Bytes -> Option<D>)
    ensures Decisions(parse, Lossy([65, NEWLINE, 0xC3])) == ParsedLine(parse, [65]) + ParsedLine(parse, REPLACEMENT)
  {
    var line, torn: Bytes := [65, NEWLINE], [0xC3];
    AsciiIsText(line);
    LossyAfterText(line, torn);
    assert line + torn == [65, NEWLINE, 0xC3];
    assert InvalidLength(torn) == 1 && torn[1..] == [];
    assert Lossy(torn) == REPLACEMENT;
    DecisionsOfConcat(parse, line, REPLACEMENT);
    LinesOfOneRecord([65]);
    assert [65] + [NEWLINE] == line;
    OneLine(REPLACEMENT);
    ParsedOfOne(parse, [65]);
    ParsedOfOne(parse, REPLACEMENT);
  }

  lemma OneLine(text: Bytes)
    requires text != [] && NEWLINE !in text
    ensures Lines(text) == [text]
  {
    hide FirstNewline;
    var k := FirstNewline(text);
  }

  lemma ParsedOfOne<D>(parse: Bytes -> Option<D>, line: Bytes)
    ensures Parsed(parse, [line]) == ParsedLine(parse, line)
  {
    ParsedOfSnoc(parse, [], line);
    assert [] + [line] == [line];
    assert [] + ParsedLine(parse, line) == ParsedLine(parse, line);
  }

  lemma LineStartIsBoundary(file: Bytes, offset: nat)
    requires Valid(file) && offset < |file| && AtLineStart(file[..offset])
    ensures Boundary(file, offset)
  {
    if offset > 0 {
      AfterAsciiIsBoundary(file, offset - 1);
    }
  }

  /** In text, the byte after a one-byte character starts a character. */
  lemma {:induction false} AfterAsciiIsBoundary(s: Bytes, i: nat)
    requires Valid(s) && i + 1 < |s| && s[i] == NEWLINE
    ensures Boundary(s, i + 1)
    decreases |s|
  {
    var n := CharLength(s);
    if i >= n {
      AfterAsciiIsBoundary(s[n..], i - n);
    } else {
      assert i == 0 && n == 1;
      assert CharLength(s[1..]) > 0;
    }
  }

  // ----- the one-shot reader

  datatype BrokerReading = BrokerReading(markerSeen: bool, unreadable: bool, cut: bool, malformed: bool) {
    function Issues(): seq<string> {
      (if markerSeen then ["broker.storage_incomplete"] else []) +
      (if unreadable then ["broker.read_failed"] else []) +
      (if cut then ["broker.preview_truncated"] else []) +
      (if malformed then ["broker.malformed_records"] else [])
    }
  }

  /** One-shot read: decisions in file order, loss and skipped records reported. A missing file is no decisions. */
  method ReadDecisionsCapped<D>(parse: Bytes -> Option<D>, markerSeen: bool, file: FileRead, maxBytes: nat, issuesBefore: seq<string>)
    returns (decisions: seq<D>, issues: seq<string>)
    ensures !file.Contents? ==> decisions == [] && issues == issuesBefore + BrokerReading(markerSeen, file.Unreadable?, false, false).Issues()
    ensures file.Contents? ==>
      var cut := |file.bytes| > maxBytes;
      var text := Lossy(Taken(file.bytes, maxBytes));
      && decisions == Decisions(parse, text)
      && issues == issuesBefore + BrokerReading(markerSeen, false, cut, SomeMalformed(parse, Lines(text))).Issues()
  {
    hide Lossy, Lines, Parsed, SomeMalformed;
    issues, decisions := issuesBefore, [];
    if markerSeen {
      issues := issues + ["broker.storage_incomplete"];
    }
    if file.Missing? {
      return;
    }
    if file.Unreadable? {
      issues := issues + ["broker.read_failed"];
      return;
    }
    var bytes := file.bytes;
    if |bytes| > maxBytes {
      issues := issues + ["broker.preview_truncated"];
      bytes := bytes[..maxBytes];
    }
    var malformed;
    decisions, malformed := ParseLines(parse, Lines(Lossy(bytes)));
    if malformed > 0 {
      issues := issues + ["broker.malformed_records"];
    }
  }

  /** On a UTF-8 log within the cap, a tailer that has caught up has sent what the one-shot reader returns. */
  lemma TailerAgreesWithReader<D>(parse: Bytes -> Option<D>, file: Bytes, sent: seq<D>, maxBytes: nat)
    requires Caught(parse, file, |file|, sent) && Valid(file) && |file| <= maxBytes
    ensures sent == Decisions(parse, Lossy(Taken(file, maxBytes)))
  {
    LossyRepairs(file);
    assert file[..|file|] == file;
  }

  /** So a finished log that is read to its end has been sent whole, as the one-shot reader returns it. */
  lemma ReadWholeIsSentWhole<D>(parse: Bytes -> Option<D>, file: Bytes, n: nat, maxBytes: nat)
    requires n > 0 && PolledTimes(file, 0, n) == |file| <= maxBytes
    ensures
      var polls := seq(n, _ => file);
      Growing(polls) && SentBy(parse, polls) == Decisions(parse, Lossy(Taken(file, maxBytes)))
  {
    hide Valid, Caught, Polled, Lossy, Decisions, AtLineStart, LinesFit;
    var polls := seq(n, _ => file);
    assert Growing(polls);
    FollowedIsPolledTimes(file, n);
    FollowingMissesNothing(parse, polls);
    ReadWholeMeansTame(file);
    TailerAgreesWithReader(parse, file, SentBy(parse, polls), maxBytes);
  }

  lemma {:induction false} FollowedIsPolledTimes(file: Bytes, n: nat)
    ensures
      var polls := seq(n, _ => file);
      Growing(polls) && Followed(polls) == PolledTimes(file, 0, n)
    decreases n
  {
    hide Polled;
    var polls := seq(n, _ => file);
    assert Growing(polls);
    if n > 0 {
      FollowedIsPolledTimes(file, n - 1);
      assert polls[..n - 1] == seq(n - 1, _ => file);
      PollsAdd(file, 0, n - 1, 1);
    }
  }

  // ----- what the shim stored is what is read

  /** The writes of a list of records, one per line; each may fail part way. */
  function OnePerLine(records: seq<Bytes>, fails: seq<Option<nat>>): seq<Offer>
    requires |records| == |fails|
  {
    seq(|records|, i requires 0 <= i < |records| => Offer(records[i] + [NEWLINE], fails[i]))
  }

  predicate RecordLike(r: Bytes) { r != [] && NEWLINE !in r && r[|r| - 1] != CARRIAGE_RETURN }

  lemma {:induction false} LinesOfRecords(records: seq<Bytes>, fails: seq<Option<nat>>)
    requires |records| == |fails| && forall i | 0 <= i < |records| :: RecordLike(records[i])
    ensures Lines(Offered(OnePerLine(records, fails))) == records
    ensures AtLineStart(Offered(OnePerLine(records, fails)))
    decreases |records|
  {
    var offers := OnePerLine(records, fails);
    if records == [] {
    } else {
      var first, rest := records[0] + [NEWLINE], records[1..];
      assert offers[1..] == OnePerLine(rest, fails[1..]);
      LinesOfRecords(rest, fails[1..]);
      LinesOfOneRecord(records[0]);
      hide Lines;
      LinesOfConcat(first, Offered(offers[1..]));
      assert records == [records[0]] + rest;
    }
  }

  lemma LinesOfOneRecord(r: Bytes)
    requires RecordLike(r)
    ensures Lines(r + [NEWLINE]) == [r]
  {
    var line := r + [NEWLINE];
    FirstNewlineAt(r);
    assert line[..|r|] == r && line[|r| + 1..] == [];
  }

  lemma {:induction false} FirstNewlineAt(r: Bytes)
    requires NEWLINE !in r
    ensures FirstNewline(r + [NEWLINE]) == |r|
  {
    if r != [] {
      FirstNewlineAt(r[1..]);
      assert (r + [NEWLINE])[1..] == r[1..] + [NEWLINE];
    }
  }

  /** What a torn piece of a record's line is read as: nothing, the record, or the piece itself. */
  function PieceRead(record: Bytes, torn: Bytes, shown: Bytes): Bytes {
    if torn == record + [NEWLINE] then record else shown
  }

  lemma ReadingAPiece<D>(parse: Bytes -> Option<D>, r: Bytes, torn: Bytes)
    requires RecordLike(r) && torn <= r + [NEWLINE]
    ensures Decisions(parse, torn) == ParsedLine(parse, PieceRead(r, torn, torn))
    ensures Valid(r) ==> Decisions(parse, Lossy(torn)) == ParsedLine(parse, PieceRead(r, torn, Lossy(torn)))
  {
    hide Valid, Lossy, Lines, Parsed;
    var line := r + [NEWLINE];
    if torn == line {
      LinesOfOneRecord(r);
      ParsedOfOne(parse, r);
      if Valid(r) {
        AsciiIsText([NEWLINE]);
        TextConcat(r, [NEWLINE]);
        LossyRepairs(line);
      }
    } else {
      assert torn <= r;
      LossyKeepsToTheLine(torn);
      ReadingOneLine(parse, torn);
      ReadingOneLine(parse, Lossy(torn));
    }
  }

  lemma ReadingOneLine<D>(parse: Bytes -> Option<D>, text: Bytes)
    requires NEWLINE !in text
    ensures Decisions(parse, text) == ParsedLine(parse, text)
  {
    if text != [] {
      OneLine(text);
      ParsedOfOne(parse, text);
    }
  }

  /** How records are stored: whole from the first, then at most a piece of the one whose write failed. */
  ghost predicate StoredAs(limit: nat, records: seq<Bytes>, fails: seq<Option<nat>>, kept: nat, torn: Bytes)
    requires |records| == |fails|
  {
    && kept <= |records|
    && WriteAll(Opened(limit), OnePerLine(records, fails), true).file
       == Offered(OnePerLine(records[..kept], fails[..kept])) + torn
    && (torn != [] ==> kept < |records| && fails[kept].Some?)
    && (kept < |records| ==>
          && torn <= records[kept] + [NEWLINE]
          && (fails[kept].Some? || |Offered(OnePerLine(records[..kept], fails[..kept])) + records[kept]| >= limit))
  }

  /**
   The decision log under any write failures. It holds whole records from the first, then at
   most a piece of the one record whose write failed; reading it yields the decisions of those
   records, in order, and at most one more for the piece.
   */
  lemma StoredRecordsAreRead<D>(parse: Bytes -> Option<D>, limit: nat, records: seq<Bytes>, fails: seq<Option<nat>>)
    returns (kept: nat, torn: Bytes)
    requires |records| == |fails| && forall i | 0 <= i < |records| :: RecordLike(records[i])
    ensures StoredAs(limit, records, fails, kept, torn)
    ensures
      var file := WriteAll(Opened(limit), OnePerLine(records, fails), true).file;
      var record := if kept < |records| then records[kept] else [];
      && Decisions(parse, file) == Parsed(parse, records[..kept]) + ParsedLine(parse, PieceRead(record, torn, torn))
      && ((forall i | 0 <= i < |records| :: Valid(records[i])) ==>
            Decisions(parse, Lossy(file))
            == Parsed(parse, records[..kept]) + ParsedLine(parse, PieceRead(record, torn, Lossy(torn))))
  {
    kept, torn := StoredRecords(limit, records, fails);
    hide WriteAll, Lossy, Lines, Parsed, Valid, ParsedLine;
    var whole := Offered(OnePerLine(records[..kept], fails[..kept]));
    LinesOfRecords(records[..kept], fails[..kept]);
    DecisionsOfConcat(parse, whole, torn);
    DecisionsOfConcat(parse, whole, Lossy(torn));
    if kept < |records| {
      ReadingAPiece(parse, records[kept], torn);
    } else {
      LossyKeepsToTheLine(torn);
      ReadingOneLine(parse, torn);
      ReadingOneLine(parse, Lossy(torn));
    }
    if forall i | 0 <= i < |records| :: Valid(records[i]) {
      RecordsAreText(records[..kept], fails[..kept]);
      LossyAfterText(whole, torn);
    }
  }

  lemma StoredRecords(limit: nat, records: seq<Bytes>, fails: seq<Option<nat>>) returns (kept: nat, torn: Bytes)
    requires |records| == |fails|
    ensures StoredAs(limit, records, fails, kept, torn)
  {
    var offers := OnePerLine(records, fails);
    kept, torn := RecordsStored(Opened(limit), offers);
    assert offers[..kept] == OnePerLine(records[..kept], fails[..kept]);
    hide WriteAll, Offered;
    assert [] + Offered(offers[..kept]) == Offered(offers[..kept]);
  }

  lemma {:induction false} RecordsAreText(records: seq<Bytes>, fails: seq<Option<nat>>)
    requires |records| == |fails| && forall i | 0 <= i < |records| :: Valid(records[i])
    ensures Valid(Offered(OnePerLine(records, fails)))
    decreases |records|
  {
    hide Valid;
    var offers := OnePerLine(records, fails);
    if records == [] {
      AsciiIsText([]);
    } else {
      assert offers[1..] == OnePerLine(records[1..], fails[1..]);
      RecordsAreText(records[1..], fails[1..]);
      AsciiIsText([NEWLINE]);
      TextConcat(records[0], [NEWLINE]);
      TextConcat(records[0] + [NEWLINE], Offered(offers[1..]));
    }
  }
}
