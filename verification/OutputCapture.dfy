/**
 Bounded capture of workload output: the log file with its `.incomplete` marker, the
 thread that drains the workload's socket, and the daemon reading the result back.
 Data may be lost at every stage; the marker and the issue list must say so.
 */
module OutputCapture {
  import opened Common
  import opened Utf8

  // ----- BoundedLog

  /** What is on disk and in the writer: log contents, marker file, remaining budget, loss flag. */
  datatype LogState = LogState(file: Bytes, marker: bool, remaining: nat, incomplete: bool)

  /** The marker exists before the log does, so a crash can only leave it behind. */
  function Opened(limit: nat): LogState { LogState([], true, limit, false) }

  /** How many of the offered bytes the budget admits; a whole record is admitted or not. */
  function Admitted(st: LogState, bytes: Bytes, wholeRecord: bool): (n: nat)
    ensures n <= |bytes| && n <= st.remaining
  {
    if wholeRecord && |bytes| > st.remaining then 0
    else if |bytes| <= st.remaining then |bytes| else st.remaining
  }

  /** Effect of one write; `fails` is how many bytes reach the file before an I/O error. */
  function Written(st: LogState, bytes: Bytes, wholeRecord: bool, fails: Option<nat>): LogState {
    var count := Admitted(st, bytes, wholeRecord);
    var budget := if wholeRecord && |bytes| > st.remaining then 0 else st.remaining;
    var lossy := st.incomplete || count < |bytes|;
    match fails
    case None => LogState(st.file + bytes[..count], st.marker, budget - count, lossy)
    case Some(n) => LogState(st.file + bytes[..if n <= count then n else count], st.marker, 0, true)
  }

  /** Closing the log; the marker goes only if nothing was lost and both calls succeed. */
  function Closed(st: LogState, syncOk: bool, removeOk: bool): LogState {
    if syncOk && !st.incomplete && removeOk then st.(marker := false) else st
  }

  class BoundedLog {
    var file: Bytes
    var marker: bool
    var remaining: nat
    var incomplete: bool

    ghost function State(): LogState
      reads this
    {
      LogState(file, marker, remaining, incomplete)
    }

    constructor (limit: nat)
      ensures State() == Opened(limit)
    {
      file, marker, remaining, incomplete := [], true, limit, false;
    }

    method Write(bytes: Bytes, wholeRecord: bool, fails: Option<nat>) returns (ok: bool)
      modifies this
      ensures State() == Written(old(State()), bytes, wholeRecord, fails)
      ensures ok <==> fails.None?
    {
      var count;
      if wholeRecord && |bytes| > remaining {
        remaining := 0;
        count := 0;
      } else {
        count := if |bytes| <= remaining then |bytes| else remaining;
      }
      if count < |bytes| {
        incomplete := true;
      }
      if fails.Some? {
        file := file + bytes[..if fails.value <= count then fails.value else count];
        incomplete := true;
        remaining := 0;
        return false;
      }
      file := file + bytes[..count];
      remaining := remaining - count;
      return true;
    }

    method Finish(syncOk: bool, removeOk: bool) returns (ok: bool)
      modifies this
      ensures State() == Closed(old(State()), syncOk, removeOk)
      ensures ok <==> syncOk && (old(incomplete) || removeOk)
    {
      if !syncOk {
        return false;
      }
      if !incomplete {
        if !removeOk {
          return false;
        }
        marker := false;
      }
      return true;
    }
  }

  // ----- what the log keeps, over any sequence of writes

  datatype Offer = Offer(bytes: Bytes, fails: Option<nat>)

  function WriteAll(st: LogState, offers: seq<Offer>, wholeRecord: bool): LogState
    decreases |offers|
  {
    if offers == [] then st
    else WriteAll(Written(st, offers[0].bytes, wholeRecord, offers[0].fails), offers[1..], wholeRecord)
  }

  function Offered(offers: seq<Offer>): Bytes
    decreases |offers|
  {
    if offers == [] then [] else offers[0].bytes + Offered(offers[1..])
  }

  /** A log that has lost something has no budget left, except for what was never offered. */
  ghost predicate Contiguous(st: LogState, offered: Bytes) {
    && st.file <= offered
    && (st.incomplete ==> st.remaining == 0)
    && (!st.incomplete ==> st.file == offered)
  }

  lemma WriteStaysContiguous(st: LogState, offered: Bytes, bytes: Bytes, wholeRecord: bool, fails: Option<nat>)
    requires Contiguous(st, offered)
    ensures Contiguous(Written(st, bytes, wholeRecord, fails), offered + bytes)
    ensures st.incomplete ==> Written(st, bytes, wholeRecord, fails).file == st.file
  {
    var st' := Written(st, bytes, wholeRecord, fails);
    if st.incomplete {
      assert st'.file == st.file;
    }
  }

  /**
   However writes are split, refused or failed, the file is a prefix of everything offered,
   and it is everything offered unless loss was recorded. Nothing is written after a gap.
   */
  lemma {:induction false} LogIsAPrefix(st: LogState, offered: Bytes, offers: seq<Offer>, wholeRecord: bool)
    requires Contiguous(st, offered)
    ensures Contiguous(WriteAll(st, offers, wholeRecord), offered + Offered(offers))
    ensures st.incomplete ==> WriteAll(st, offers, wholeRecord).file == st.file
    decreases |offers|
  {
    if offers == [] {
      assert offered + [] == offered;
    } else {
      var o := offers[0];
      WriteStaysContiguous(st, offered, o.bytes, wholeRecord, o.fails);
      LogIsAPrefix(Written(st, o.bytes, wholeRecord, o.fails), offered + o.bytes, offers[1..], wholeRecord);
      assert offered + o.bytes + Offered(offers[1..]) == offered + Offered(offers);
    }
  }

  /** Without budget nothing is stored any more, whether writes fail or not. */
  lemma {:induction false} StaysEmpty(st: LogState, offers: seq<Offer>)
    requires st.remaining == 0
    ensures WriteAll(st, offers, true).file == st.file
    decreases |offers|
  {
    if offers != [] {
      StaysEmpty(Written(st, offers[0].bytes, true, offers[0].fails), offers[1..]);
    }
  }

  /** What a failing write leaves of its bytes: nothing if the record did not fit. */
  function Torn(o: Offer, room: int): Bytes
    requires o.fails.Some?
  {
    if |o.bytes| > room then [] else o.bytes[..if o.fails.value <= |o.bytes| then o.fails.value else |o.bytes|]
  }

  /** The record at which storage stops: it failed, or it did not fit. */
  predicate Stops(o: Offer, room: int) { o.fails.Some? || |o.bytes| > room }

  lemma WrittenWhole(st: LogState, o: Offer)
    requires !Stops(o, st.remaining)
    ensures
      var st' := Written(st, o.bytes, true, o.fails);
      st'.file == st.file + o.bytes && st'.remaining == st.remaining - |o.bytes|
  {
  }

  lemma WrittenLast(st: LogState, o: Offer)
    requires Stops(o, st.remaining)
    ensures
      var st' := Written(st, o.bytes, true, o.fails);
      st'.remaining == 0 && st'.file == st.file + (if o.fails.Some? then Torn(o, st.remaining) else [])
  {
  }

  /**
   Record by record, under any failures: the log keeps whole records from the first, then at
   most a torn piece of the one record whose write failed, and nothing after it.
   */
  lemma {:induction false} RecordsStored(st: LogState, offers: seq<Offer>) returns (kept: nat, torn: Bytes)
    ensures kept <= |offers| && forall i | 0 <= i < kept :: offers[i].fails.None?
    ensures WriteAll(st, offers, true).file == st.file + Offered(offers[..kept]) + torn
    ensures |Offered(offers[..kept])| <= st.remaining
    ensures
      var room := st.remaining - |Offered(offers[..kept])|;
      && (kept < |offers| ==> Stops(offers[kept], room))
      && torn == if kept < |offers| && offers[kept].fails.Some? then Torn(offers[kept], room) else []
    decreases |offers|
  {
    hide Written, Torn;
    if offers == [] {
      kept, torn := 0, [];
    } else {
      var o := offers[0];
      var st' := Written(st, o.bytes, true, o.fails);
      if Stops(o, st.remaining) {
        WrittenLast(st, o);
        kept := 0;
        torn := if o.fails.Some? then Torn(o, st.remaining) else [];
        StaysEmpty(st', offers[1..]);
        assert st.file + [] + torn == st.file + torn;
      } else {
        WrittenWhole(st, o);
        var rest;
        rest, torn := RecordsStored(st', offers[1..]);
        hide Stops;
        kept := rest + 1;
        OfferedFront(offers, rest);
        assert st.file + (o.bytes + Offered(offers[1..][..rest])) == st.file + o.bytes + Offered(offers[1..][..rest]);
      }
    }
  }

  lemma OfferedFront(offers: seq<Offer>, n: nat)
    requires n < |offers|
    ensures Offered(offers[..n + 1]) == offers[0].bytes + Offered(offers[1..][..n])
  {
    assert offers[..n + 1][1..] == offers[1..][..n];
  }

  /** When no write fails, the log keeps exactly the longest run of records from the first that fits. */
  lemma WholeRecordsKept(st: LogState, offers: seq<Offer>) returns (kept: nat)
    requires forall i | 0 <= i < |offers| :: offers[i].fails.None?
    ensures kept <= |offers|
    ensures WriteAll(st, offers, true).file == st.file + Offered(offers[..kept])
    ensures |Offered(offers[..kept])| <= st.remaining
    ensures kept < |offers| ==> |Offered(offers[..kept + 1])| > st.remaining
  {
    var torn;
    kept, torn := RecordsStored(st, offers);
    assert st.file + Offered(offers[..kept]) + [] == st.file + Offered(offers[..kept]);
    if kept < |offers| {
      OfferedSnoc(offers[..kept], offers[kept]);
      assert offers[..kept + 1] == offers[..kept] + [offers[kept]];
    }
  }

  lemma {:induction false} OfferedSnoc(offers: seq<Offer>, o: Offer)
    ensures Offered(offers + [o]) == Offered(offers) + o.bytes
    decreases |offers|
  {
    if offers == [] {
      assert [o][1..] == [];
      assert [] + o.bytes == o.bytes == o.bytes + [];
    } else {
      OfferedSnoc(offers[1..], o);
      assert (offers + [o])[1..] == offers[1..] + [o];
    }
  }

  // ----- the capture thread

  /** What one read of the workload's socket returns. */
  datatype ReadOutcome =
    | Data(bytes: Bytes, writeFails: Option<nat>)
    | Interrupted
    | TimedOut(stopping: bool)
    | Eof(syncOk: bool, removeOk: bool)
    | ReadError

  /** What the thread will have received: everything up to the first outcome that ends it. */
  function Received(outcomes: seq<ReadOutcome>): Bytes
    decreases |outcomes|
  {
    if outcomes == [] then [] else
    match outcomes[0]
    case Data(bytes, _) => bytes + Received(outcomes[1..])
    case Interrupted => Received(outcomes[1..])
    case TimedOut(stopping) => if stopping then [] else Received(outcomes[1..])
    case Eof(_, _) => []
    case ReadError => []
  }

  /** The thread sees end of file, rather than being stopped or failing first, and closes the log. */
  predicate Completes(outcomes: seq<ReadOutcome>)
    decreases |outcomes|
  {
    outcomes != [] &&
    match outcomes[0]
    case Data(_, _) => Completes(outcomes[1..])
    case Interrupted => Completes(outcomes[1..])
    case TimedOut(stopping) => !stopping && Completes(outcomes[1..])
    case Eof(syncOk, removeOk) => syncOk && removeOk
    case ReadError => false
  }

  /** No write to the log fails before the thread ends. */
  predicate WritesSucceed(outcomes: seq<ReadOutcome>)
    decreases |outcomes|
  {
    outcomes == [] ||
    match outcomes[0]
    case Data(_, writeFails) => writeFails.None? && WritesSucceed(outcomes[1..])
    case Interrupted => WritesSucceed(outcomes[1..])
    case TimedOut(stopping) => stopping || WritesSucceed(outcomes[1..])
    case Eof(_, _) => true
    case ReadError => true
  }

  /** The first `limit` bytes, or all. */
  function Taken(bytes: Bytes, limit: nat): Bytes { if |bytes| > limit then bytes[..limit] else bytes }

  /** What the log is worth after receiving `got`, if every write succeeded. */
  ghost predicate Faithful(st: LogState, got: Bytes, limit: nat) {
    st.file == Taken(got, limit) && st.remaining == limit - |st.file| && (st.incomplete <==> |got| > limit)
  }

  lemma WriteStaysFaithful(st: LogState, got: Bytes, bytes: Bytes, limit: nat)
    requires Faithful(st, got, limit)
    ensures Faithful(Written(st, bytes, false, None), got + bytes, limit)
  {
  }

  /**
   The drain loop. The file is always a prefix of what was received, and its first `limit`
   bytes unless a write failed. Only end of file completes the log: the marker disappears if
   and only if the thread saw end of file, every call succeeded and the bytes fitted. A
   thread cut short at any point (the list of outcomes ends) leaves the marker.
   */
  method Drain(log: BoundedLog, limit: nat, outcomes: seq<ReadOutcome>)
    requires log.State() == Opened(limit)
    modifies log
    ensures log.file <= Received(outcomes)
    ensures WritesSucceed(outcomes) ==> log.file == Taken(Received(outcomes), limit)
    ensures !log.marker <==> Completes(outcomes) && WritesSucceed(outcomes) && |Received(outcomes)| <= limit
  {
    hide Contiguous, Faithful, Written;
    var i := 0;
    ghost var got: Bytes, unfailing := [], true;
    assert outcomes[0..] == outcomes;
    DrainStarts(limit);
    while i < |outcomes|
      invariant 0 <= i <= |outcomes| && log.marker
      invariant Contiguous(log.State(), got)
      invariant if unfailing then Faithful(log.State(), got, limit) else log.incomplete
      invariant Received(outcomes) == got + Received(outcomes[i..])
      invariant Completes(outcomes[i..]) == Completes(outcomes)
      invariant WritesSucceed(outcomes) <==> unfailing && WritesSucceed(outcomes[i..])
    {
      assert outcomes[i..][1..] == outcomes[i + 1..];
      DrainedSoFar(log.State(), got, limit);
      match outcomes[i] {
        case Data(bytes, writeFails) =>
          WriteStaysContiguous(log.State(), got, bytes, false, writeFails);
          if unfailing { WriteStaysFaithful(log.State(), got, bytes, limit); }
          LossIsRemembered(log.State(), bytes, writeFails);
          var _ := log.Write(bytes, false, writeFails);
          assert got + (bytes + Received(outcomes[i + 1..])) == got + bytes + Received(outcomes[i + 1..]);
          got, unfailing := got + bytes, unfailing && writeFails.None?;
        case Interrupted =>
        case TimedOut(stopping) =>
          if stopping { return; }
        case Eof(syncOk, removeOk) =>
          var _ := log.Finish(syncOk, removeOk);
          return;
        case ReadError =>
          return;
      }
      i := i + 1;
    }
    DrainedSoFar(log.State(), got, limit);
  }

  lemma DrainStarts(limit: nat)
    ensures Contiguous(Opened(limit), []) && Faithful(Opened(limit), [], limit)
  {
  }

  lemma DrainedSoFar(st: LogState, got: Bytes, limit: nat)
    requires Contiguous(st, got)
    ensures st.file <= got && got + [] == got
    ensures Faithful(st, got, limit) ==> st.file == Taken(got, limit) && (st.incomplete <==> |got| > limit)
  {
  }

  lemma LossIsRemembered(st: LogState, bytes: Bytes, fails: Option<nat>)
    ensures st.incomplete || fails.Some? ==> Written(st, bytes, false, fails).incomplete
    ensures Written(st, bytes, false, fails).marker == st.marker
  {
  }

  // ----- reading the capture back

  datatype FileRead = Missing | Unreadable | Contents(bytes: Bytes)

  function TruncationMarker(stream: string, maxBytes: nat): Bytes {
    Ascii("\n[rauha: " + stream + " truncated after " + Decimal(maxBytes) + " bytes]\n")
  }

  /** Whether the text had to be cut: the log, or its repaired text, is over the limit. */
  predicate OverLimit(file: Bytes, maxBytes: nat) { |file| > maxBytes || |Lossy(Taken(file, maxBytes))| > maxBytes }

  /**
   What is shown of a readable log: all of it, or as much text as leaves room for the
   truncation marker, or nothing when not even the marker fits.
   */
  ghost predicate Shows(file: Bytes, stream: string, maxBytes: nat, text: Bytes) {
    var whole, note := Lossy(Taken(file, maxBytes)), TruncationMarker(stream, maxBytes);
    if !OverLimit(file, maxBytes) then text == whole
    else if |note| > maxBytes then text == []
    else exists short :: LongestText(whole, maxBytes - |note|, short) && text == short + note
  }

  /** Decode and cut the bytes of a readable log. */
  method DecodeCapped(file: Bytes, stream: string, maxBytes: nat) returns (text: Bytes, repaired: bool, cut: bool)
    ensures Valid(text) && |text| <= maxBytes && Shows(file, stream, maxBytes, text)
    ensures repaired <==> !Valid(Taken(file, maxBytes))
    ensures cut <==> OverLimit(file, maxBytes)
  {
    var truncated := |file| > maxBytes;
    var bytes := if truncated then file[..maxBytes] else file;
    LossyRepairs(bytes);
    text := Lossy(bytes);
    repaired := text != bytes;
    cut := truncated || |text| > maxBytes;
    if cut {
      var note := TruncationMarker(stream, maxBytes);
      var short := TruncateUtf8(text, if |note| <= maxBytes then maxBytes - |note| else 0);
      text := short;
      if |note| <= maxBytes {
        AsciiIsText(note);
        TextConcat(short, note);
        text := short + note;
      }
    }
  }

  /** How the read went, and the issues that says. */
  datatype Reading = Reading(markerSeen: bool, missing: bool, unreadable: bool, repaired: bool, cut: bool) {
    predicate Clean() { !markerSeen && !missing && !unreadable && !repaired && !cut }
    function Issues(stream: string): seq<string> {
      (if markerSeen then [stream + ".storage_incomplete"] else []) +
      (if missing then [stream + ".unavailable"] else []) +
      (if unreadable then [stream + ".read_failed"] else []) +
      (if repaired then [stream + ".invalid_utf8"] else []) +
      (if cut then [stream + ".preview_truncated"] else [])
    }
  }

  function ReadingOf(markerSeen: bool, file: FileRead, maxBytes: nat): Reading {
    var contents := file.Contents?;
    Reading(markerSeen, file.Missing?, file.Unreadable?,
      contents && !Valid(Taken(file.bytes, maxBytes)), contents && OverLimit(file.bytes, maxBytes))
  }

  /** A reading is clean exactly when a finished capture could be read, as text, within the limit. */
  lemma CleanIffFaithful(markerSeen: bool, file: FileRead, maxBytes: nat)
    ensures ReadingOf(markerSeen, file, maxBytes).Clean() <==>
      !markerSeen && file.Contents? && Valid(file.bytes) && |file.bytes| <= maxBytes
  {
    if file.Contents? {
      LossyRepairs(Taken(file.bytes, maxBytes));
    }
  }

  lemma CleanShowsTheFile(file: Bytes, stream: string, maxBytes: nat, text: Bytes)
    requires Shows(file, stream, maxBytes, text)
    ensures ReadingOf(false, Contents(file), maxBytes).Clean() ==> text == file
  {
    hide Lossy, Valid;
    LossyRepairs(Taken(file, maxBytes));
  }

  /** A reading reports nothing exactly when it is clean, and reports only under its stream's name. */
  lemma IssuesNameTheStream(r: Reading, stream: string)
    ensures r.Issues(stream) == [] <==> r.Clean()
    ensures forall i | 0 <= i < |r.Issues(stream)| :: stream + "." <= r.Issues(stream)[i]
  {
  }

  /**
   Read one stream back for the result, at most `maxBytes` of text. Every way the text can
   fall short of the file adds an issue of that stream: an unfinished capture, a missing or
   unreadable file, invalid UTF-8, or a cut. Without an issue the text is the file.
   */
  method ReadTextCapped(markerSeen: bool, file: FileRead, stream: string, maxBytes: nat, issuesBefore: seq<string>)
    returns (text: Bytes, issues: seq<string>)
    ensures Valid(text) && |text| <= maxBytes
    ensures issues == issuesBefore + ReadingOf(markerSeen, file, maxBytes).Issues(stream)
    ensures if file.Contents? then Shows(file.bytes, stream, maxBytes, text) else text == []
    ensures ReadingOf(markerSeen, file, maxBytes).Clean() ==> file == Contents(text)
  {
    hide Lossy, Valid, Shows, OverLimit;
    issues := issuesBefore;
    if markerSeen {
      issues := issues + [stream + ".storage_incomplete"];
    }
    match file
    case Missing =>
      assert Valid([]) by { AsciiIsText([]); }
      text, issues := [], issues + [stream + ".unavailable"];
    case Unreadable =>
      assert Valid([]) by { AsciiIsText([]); }
      text, issues := [], issues + [stream + ".read_failed"];
    case Contents(bytes) =>
      var repaired, cut;
      text, repaired, cut := DecodeCapped(bytes, stream, maxBytes);
      if repaired {
        issues := issues + [stream + ".invalid_utf8"];
      }
      if cut {
        issues := issues + [stream + ".preview_truncated"];
      }
      CleanShowsTheFile(bytes, stream, maxBytes, text);
  }

  // ----- the whole capture as a concurrent system

  datatype Reader = Waiting | MarkerChecked(seen: bool) | Finished(sawMarker: bool, file: Bytes)

  /**
   One stream of one container: bytes the workload has sent, whether every writing end is
   closed, bytes still in the socket, the log, whether the drain thread runs, and the
   daemon, which looks at the marker first and reads the log later.
   */
  datatype World = World(sent: Bytes, closed: bool, socket: Bytes, log: LogState, draining: bool, reader: Reader)

  datatype Action =
    | Send(bytes: Bytes)
    | CloseWriters
    | Receive(n: nat, writeFails: Option<nat>)
    | EndOfFile(syncOk: bool, removeOk: bool)
    | Abort                       // stop request, read error, or the shim dies
    | CheckMarker
    | ReadLog

  function Start(limit: nat): World { World([], false, [], Opened(limit), true, Waiting) }

  function Next(w: World, a: Action): Option<World> {
    match a
    case Send(bytes) =>
      if w.closed then None else Some(w.(sent := w.sent + bytes, socket := w.socket + bytes))
    case CloseWriters => Some(w.(closed := true))
    case Receive(n, writeFails) =>
      if !w.draining || n == 0 || n > 8192 || n > |w.socket| then None else
      Some(w.(socket := w.socket[n..], log := Written(w.log, w.socket[..n], false, writeFails)))
    case EndOfFile(syncOk, removeOk) =>
      if !w.draining || !w.closed || w.socket != [] then None else
      Some(w.(draining := false, log := Closed(w.log, syncOk, removeOk)))
    case Abort => Some(w.(draining := false))
    case CheckMarker => if w.reader.Waiting? then Some(w.(reader := MarkerChecked(w.log.marker))) else None
    case ReadLog => if w.reader.MarkerChecked? then Some(w.(reader := Finished(w.reader.seen, w.log.file))) else None
  }

  function Run(w: World, actions: seq<Action>): Option<World>
    decreases |actions|
  {
    if actions == [] then Some(w) else
    match Next(w, actions[0])
    case None => None
    case Some(w') => Run(w', actions[1..])
  }

  /** Everything sent is in the log, and no more can come. */
  ghost predicate Complete(w: World) {
    w.closed && w.socket == [] && !w.draining && w.log.file == w.sent
  }

  ghost predicate Inv(w: World) {
    && |w.socket| <= |w.sent| && w.sent[|w.sent| - |w.socket|..] == w.socket
    && Contiguous(w.log, w.sent[..|w.sent| - |w.socket|])
    && (!w.log.marker ==> Complete(w))
    && (w.reader == MarkerChecked(false) ==> Complete(w))
    && (w.reader.Finished? && !w.reader.sawMarker ==> Complete(w) && w.reader.file == w.sent)
  }

  lemma SendKeepsInv(w: World, bytes: Bytes)
    requires Inv(w) && !w.closed
    ensures Inv(Next(w, Send(bytes)).value)
  {
    var w' := Next(w, Send(bytes)).value;
    var n := |w.sent| - |w.socket|;
    assert w'.sent[..n] == w.sent[..n];
    assert w'.sent[n..] == w.sent[n..] + bytes;
  }

  lemma ReceiveKeepsInv(w: World, n: nat, writeFails: Option<nat>)
    requires Inv(w) && Next(w, Receive(n, writeFails)).Some?
    ensures Inv(Next(w, Receive(n, writeFails)).value)
  {
    var before := |w.sent| - |w.socket|;
    var chunk := w.socket[..n];
    WriteStaysContiguous(w.log, w.sent[..before], chunk, false, writeFails);
    assert w.sent[..before] + chunk == w.sent[..before + n];
    assert w.sent[before + n..] == w.sent[before..][n..];
  }

  lemma StepKeepsInv(w: World, a: Action)
    requires Inv(w) && Next(w, a).Some?
    ensures Inv(Next(w, a).value)
  {
    match a
    case Send(bytes) => SendKeepsInv(w, bytes);
    case Receive(n, writeFails) => ReceiveKeepsInv(w, n, writeFails);
    case EndOfFile(syncOk, removeOk) => assert w.sent[..|w.sent|] == w.sent;
    case _ =>
  }

  lemma {:induction false} RunKeepsInv(w: World, actions: seq<Action>)
    requires Inv(w) && Run(w, actions).Some?
    ensures Inv(Run(w, actions).value)
    decreases |actions|
  {
    if actions != [] {
      StepKeepsInv(w, actions[0]);
      RunKeepsInv(Next(w, actions[0]).value, actions[1..]);
    }
  }

  /**
   Honest capture. In every interleaving of workload, drain thread, crashes and the
   daemon's two separate looks at the files, a daemon that did not see the marker has read
   exactly everything the workload ever wrote, now and for good.
   */
  lemma NoMarkerMeansEverything(limit: nat, actions: seq<Action>)
    requires Run(Start(limit), actions).Some?
    ensures
      var w := Run(Start(limit), actions).value;
      w.reader.Finished? && !w.reader.sawMarker ==> w.reader.file == w.sent && w.closed
  {
    RunKeepsInv(Start(limit), actions);
  }
}
