/**
 The journal handle as the program uses it: `append` and `publish_head` issuing their
 system calls one by one. Each call may be made to fail; the contracts say that what the
 methods do to the disk is a run of the transition system, so every theorem about runs
 applies to them.
 */
module JournalHandle {
  import opened Common
  import opened Json
  import opened JournalFormat
  import opened JournalDisk
  import opened JournalSafety

  lemma {:induction false} RunsConcatenate(r: Run, w: World, first: seq<Action>, second: seq<Action>)
    requires Execute(r, w, first).Some?
    ensures Execute(r, w, first + second) == Execute(r, Execute(r, w, first).value, second)
    decreases |first|
  {
    hide Next;
    if first == [] {
      assert first + second == second;
    } else {
      RunsConcatenate(r, Next(r, w, first[0]).value, first[1..], second);
      assert (first + second)[1..] == first[1..] + second;
    }
  }

  lemma {:induction false} EventsConcatenate(r: Run, w: World, first: seq<Action>, second: seq<Action>)
    requires Execute(r, w, first).Some?
    ensures Events(r, w, first + second) == Events(r, w, first) + Events(r, Execute(r, w, first).value, second)
    decreases |first|
  {
    hide Next, Observed;
    if first == [] {
      assert first + second == second;
    } else {
      var w', rest := Next(r, w, first[0]).value, first[1..];
      EventsConcatenate(r, w', rest, second);
      assert (first + second)[1..] == rest + second && (first + second)[0] == first[0];
      var head, e1, e2 := [Observed(r, w, first[0])], Events(r, w', rest), Events(r, Execute(r, w', rest).value, second);
      assert head + (e1 + e2) == head + e1 + e2;
    }
  }

  lemma ExecuteThen(r: Run, w: World, first: seq<Action>, second: seq<Action>)
    requires Execute(r, w, first).Some?
    ensures Execute(r, w, first + second) == Execute(r, Execute(r, w, first).value, second)
    ensures Events(r, w, first + second) == Events(r, w, first) + Events(r, Execute(r, w, first).value, second)
  {
    hide Execute, Events;
    RunsConcatenate(r, w, first, second);
    EventsConcatenate(r, w, first, second);
  }

  /** Where an append stands after its first `n` calls: three on the log, five on the head. */
  ghost function AfterCalls(p: Process, n: nat): Process
    requires p.Appending? && n <= 8
  {
    if n < 3 then p.(stage := [BeforeAppend, PartialAppend, AppendWritten][n])
    else if n < 8 then
      Publishing(ForAppend(p.handle, p.entry), p.next, [Staging, HeadCreated, HeadWritten, HeadSynced, HeadRenamed][n - 3])
    else Open(p.handle.(head := p.next, write_failed := false))
  }

  /** The log after the first `n` calls: the record in two writes, then a sync. */
  ghost function LogAfter(log: File, bytes: Bytes, n: nat): File {
    if n == 0 then log
    else if n == 1 then File(log.data + bytes[..|bytes| / 2], log.synced)
    else if n == 2 then File(log.data + bytes, log.synced)
    else File(log.data + bytes, |log.data + bytes|)
  }

  lemma LogGrows(log: File, bytes: Bytes)
    ensures LogAfter(log, bytes, 1) == log.Append(Split2(bytes).0)
    ensures LogAfter(log, bytes, 2) == LogAfter(log, bytes, 1).Append(Split2(bytes).1)
    ensures LogAfter(log, bytes, 3) == LogAfter(log, bytes, 2).Sync()
  {
    var half := |bytes| / 2;
    assert log.data + bytes == log.data + bytes[..half] + bytes[half..];
  }

  /** One successful call of an append, and when it can succeed. */
  lemma OneOfEight(r: Run, w: World, p: Process, n: nat)
    requires p.Appending? && n < 8 && w.process == AfterCalls(p, n) && w.disk.versions != []
    requires 4 <= n <= 6 ==> w.disk.Current().next.Some? && w.disk.Current().next.value < |w.disk.heads|
    ensures (n == 3 ==> w.disk.Current().next.None?) && (n == 4 ==> Record(r.s.head, r.s.readable, p.next).Some?)
      ==> Advanced(r, w).Some?
    ensures Advanced(r, w).Some? ==>
      var w' := Advanced(r, w).value;
      && w'.disk.versions != [] && w'.process == AfterCalls(p, n + 1)
      && (n < 3 ==> w'.disk.Current() == w.disk.Current())
      && (3 <= n <= 5 ==> w'.disk.Current().next.Some? && w'.disk.Current().next.value < |w'.disk.heads|)
    ensures Observed(r, w, Advance) == if n < 7 then Silent else Acked(p.entry)
  {
    hide Record;
  }

  lemma OneOfEightLog(r: Run, w: World, p: Process, n: nat, log: File)
    requires p.Appending? && n < 8 && w.process == AfterCalls(p, n) && w.disk.versions != []
    requires w.disk.log == LogAfter(log, p.bytes, n)
    ensures Advanced(r, w).Some? ==> Advanced(r, w).value.disk.log == LogAfter(log, p.bytes, n + 1)
  {
    hide Record, LogAfter;
    LogGrows(log, p.bytes);
    LogSettles(log, p.bytes, n);
  }

  lemma LogSettles(log: File, bytes: Bytes, n: nat)
    ensures LogAfter(log, bytes, 0) == log
    ensures n >= 3 ==> LogAfter(log, bytes, n + 1) == LogAfter(log, bytes, n)
  {
  }

  lemma NoCallYet(r: Run, w: World)
    ensures Execute(r, w, []) == Some(w) && Events(r, w, []) == Calm(0)
  {
  }

  lemma FaultsAreSilent(r: Run, w: World, a: Action)
    requires a.Fault?
    ensures Observed(r, w, a) == Silent
    ensures w.process.Appending? || (w.process.Publishing? && w.process.job.ForAppend?) ==>
      var h := if w.process.Appending? then w.process.handle else w.process.job.handle;
      AfterFault(w.process) == Open(h.(write_failed := true))
  {
  }

  /** Why an append is refused before it writes anything. */
  ghost predicate Refused(s: Serde, h: JournalDisk.Handle, kind: string, epoch: U64, body: Value, ts: string) {
    || !NestsWithin(body, 120) || h.write_failed || h.tail_bytes != 0
    || !ValidKind(kind) || !body.Object? || h.head.sequence == U64_MAX
    || (var line := s.entry.encode(Entry(h.head.sequence + 1, ts, kind, epoch, h.head.journal_root, body)) + [NEWLINE];
        |line| > 1024 * 1024 || !s.readable(line) || h.head.journal_bytes + |line| > U64_MAX)
  }

  /** An append that is not refused is prepared with exactly what the caller passed. */
  lemma PreparedUnlessRefused(s: Serde, h: JournalDisk.Handle, kind: string, epoch: U64, body: Value, ts: string)
    ensures Prepare(s, h, kind, epoch, body, ts).None? <==> Refused(s, h, kind, epoch, body, ts)
    ensures !Refused(s, h, kind, epoch, body, ts) ==>
      var entry := Entry(h.head.sequence + 1, ts, kind, epoch, h.head.journal_root, body);
      var line := Line(s.entry, entry);
      Prepare(s, h, kind, epoch, body, ts) == Some(Prepared(entry, line,
        JournalHead(h.head.manifest_sha256, h.head.sequence + 1, Digest(s, entry), h.head.journal_bytes + |line|)))
  {
    FitsIffShallow(body, MAX_INPUT_DEPTH);
    hide Fits, NestsWithin, ValidKind;
  }

  /** Which system call of an operation reports an error, and what it leaves on disk. */
  datatype Failure = Failure(call: nat, damage: Disk)

  /** One system call: it takes effect, or fails leaving `damage` if that is a possible remnant. */
  method SystemCall(run: Run, disk: Disk, p: Process, fails: bool, damage: Disk)
    returns (ok: bool, disk': Disk, p': Process, ghost a: Action)
    requires disk.versions != [] && !p.Idle? && !p.Open?
    ensures Next(run, World(disk, p), a) == Some(World(disk', p')) && disk'.versions != []
    ensures ok <==> !fails && Advanced(run, World(disk, p)).Some?
    ensures ok ==> a == Advance
    ensures !ok ==> a.Fault? && p' == AfterFault(p)
  {
    var next := Advanced(run, World(disk, p));
    if !fails && next.Some? {
      AdvancedHasVersions(run, World(disk, p));
      return true, next.value.disk, next.value.process, Advance;
    }
    disk' := if FaultLeaves(run, World(disk, p), damage) && damage.versions != [] then damage else disk;
    return false, disk', AfterFault(p), Fault(disk');
  }

  lemma AdvancedHasVersions(r: Run, w: World)
    requires w.disk.versions != [] && Advanced(r, w).Some?
    ensures Advanced(r, w).value.disk.versions != []
  {
    hide Record, ReadRecordFile;
  }

  // ----- create

  /** Where a creation stands after `n` calls: six on the directory, five on the head. */
  ghost function AfterCreateCalls(r: Run, n: nat): Process
    requires n <= 11
  {
    if n < 6 then Creating([DirectoryCreated, ManifestCreated, ManifestWritten, ManifestSynced, LogCreated, LogSynced][n])
    else if n < 11 then
      Publishing(ForCreate, r.FirstHead(), [Staging, HeadCreated, HeadWritten, HeadSynced, HeadRenamed][n - 6])
    else Open(Handle(r.manifest, r.FirstHead(), 0, false))
  }

  /** What is on disk after `n` calls: names, manifest, empty log, and the first head as it is written. */
  ghost predicate CreatedSoFar(r: Run, d: Disk, n: nat) {
    var line, first := Line(r.s.manifest, r.manifest), Line(r.s.head, r.FirstHead());
    && d.versions != [] && (n == 11 ==> |d.versions| == 1)
    && d.Current() == Names(n >= 1, n >= 4, if n >= 10 then Some(0) else None, if 7 <= n <= 9 then Some(0) else None)
    && d.manifest == (if n <= 1 then EMPTY_FILE else if n == 2 then File(line, 0) else File(line, |line|))
    && d.log == EMPTY_FILE
    && d.heads == (if n <= 6 then [] else if n == 7 then [EMPTY_FILE]
                   else if n == 8 then [File(first, 0)] else [File(first, |first|)])
  }

  lemma OneOfEleven(r: Run, w: World, n: nat)
    requires n < 11 && w.process == AfterCreateCalls(r, n) && CreatedSoFar(r, w.disk, n)
    ensures Advanced(r, w).Some? <==> (n == 7 ==> Record(r.s.head, r.s.readable, r.FirstHead()).Some?)
    ensures Advanced(r, w).Some? ==>
      Advanced(r, w).value.process == AfterCreateCalls(r, n + 1) && CreatedSoFar(r, Advanced(r, w).value.disk, n + 1)
    ensures Observed(r, w, Advance) == if n < 10 then Silent else Exposed([])
  {
    var line, first := Line(r.s.manifest, r.manifest), Line(r.s.head, r.FirstHead());
    assert [] + line == line && [] + first == first;
  }

  /**
   Create a Run beneath a new directory. A manifest that is too deep, no object, or not
   writable as a record is refused before anything is made. Otherwise the eleven calls are a
   run of the storage protocol, and a handle is returned exactly when all of them succeed.
   */
  method CreateRun(s: Serde, manifest: Value, failure: Failure)
    returns (refused: bool, disk: Disk, journal: Journal?, ghost actions: seq<Action>)
    ensures refused <==>
      !NestsWithin(manifest, MAX_INPUT_DEPTH) || !manifest.Object? || Record(s.manifest, s.readable, manifest).None?
    ensures refused ==> journal == null && actions == []
    ensures !refused ==>
      var run := JournalDisk.Run(s, manifest);
      && (journal != null <==> failure.call >= 11 && Record(s.head, s.readable, run.FirstHead()).Some?)
      && (journal == null ==> Execute(run, Initial(), actions) == Some(World(disk, Idle)))
      && (journal != null ==>
            && fresh(journal) && journal.run == run && journal.disk == disk && CreatedSoFar(run, disk, 11)
            && journal.Handle() == Handle(manifest, run.FirstHead(), 0, false)
            && Execute(run, Initial(), actions) == Some(journal.State())
            && Events(run, Initial(), actions) == Calm(10) + [Exposed([])])
  {
    disk, journal, actions := Initial().disk, null, [];
    var run := JournalDisk.Run(s, manifest);
    var shallow := BoundedInput(manifest);
    refused := !shallow || !manifest.Object? || Record(s.manifest, s.readable, manifest).None?;
    if refused {
      return;
    }
    hide Execute, Events, Advanced, Observed, CreatedSoFar, AfterFault, Next, Record, NestsWithin;
    ghost var w0 := Initial();
    var p, ok;
    p := Creating(DirectoryCreated);
    ghost var a;
    NoCallYet(run, w0);
    CreationStarts(run);
    var call := 0;
    while call < 11
      invariant 0 <= call <= 11 && p == AfterCreateCalls(run, call) && CreatedSoFar(run, disk, call) && disk.versions != []
      invariant call <= failure.call
      invariant call > 7 ==> Record(run.s.head, run.s.readable, run.FirstHead()).Some?
      invariant Execute(run, w0, actions) == Some(World(disk, p)) && |actions| == call
      invariant Events(run, w0, actions) == if call < 11 then Calm(call) else Calm(10) + [Exposed([])]
    {
      ghost var w := World(disk, p);
      OneOfEleven(run, w, call);
      ok, disk, p, a := SystemCall(run, disk, p, call == failure.call, failure.damage);
      ExecuteThen(run, w0, actions, [a]);
      OneEvent(run, w, a);
      actions := actions + [a];
      if !ok {
        CreationFails(run, call);
        return;
      }
      AdvanceIsAdvanced(run, w);
      call := call + 1;
    }
    journal := new Journal(run, disk, Handle(manifest, run.FirstHead(), 0, false));
  }

  lemma CreationStarts(r: Run)
    ensures CreatedSoFar(r, Initial().disk, 0) && Initial().process == AfterCreateCalls(r, 0)
  {
  }

  lemma CreationFails(r: Run, n: nat)
    requires n < 11
    ensures AfterFault(AfterCreateCalls(r, n)) == Idle
  {
  }

  lemma AdvanceIsAdvanced(r: Run, w: World)
    requires w.disk.versions != []
    ensures Next(r, w, Advance) == Advanced(r, w)
  {
    hide Advanced;
  }

  class Journal {
    const run: Run
    var disk: Disk
    const manifest: Value
    var head: JournalHead
    var tailBytes: nat
    var writeFailed: bool

    constructor (run: Run, disk: Disk, handle: Handle)
      ensures this.run == run && this.disk == disk && Handle() == handle
    {
      this.run, this.disk := run, disk;
      this.manifest, this.head := handle.manifest, handle.head;
      this.tailBytes, this.writeFailed := handle.tail_bytes, handle.write_failed;
    }

    ghost function Handle(): JournalDisk.Handle
      reads this
    {
      JournalDisk.Handle(manifest, head, tailBytes, writeFailed)
    }

    ghost function State(): World
      reads this
    {
      World(disk, Open(Handle()))
    }

    /** One system call of an append. */
    method Call(p: Process, fails: bool, damage: Disk) returns (ok: bool, p': Process, ghost a: Action)
      requires disk.versions != [] && (p.Appending? || p.Publishing?)
      modifies this`disk
      ensures Next(run, World(old(disk), p), a) == Some(World(disk, p')) && disk.versions != []
      ensures ok <==> !fails && Advanced(run, World(old(disk), p)).Some?
      ensures ok ==> a == Advance
      ensures !ok ==> a.Fault? && p' == AfterFault(p)
    {
      var disk';
      ok, disk', p', a := SystemCall(run, disk, p, fails, damage);
      disk := disk';
    }

    /**
     The eight calls from the first half-record write to the directory sync, in the order
     the transition system gives them, stopping at the first that reports an error.
     */
    method WriteAndPublish(p: Process, failure: Failure) returns (ok: bool, p': Process, ghost actions: seq<Action>)
      requires disk.versions != [] && p.Appending? && p.stage.BeforeAppend?
      modifies this`disk
      ensures disk.versions != []
      ensures Execute(run, World(old(disk), p), actions) == Some(World(disk, p'))
      ensures ok ==> p' == Open(p.handle.(head := p.next, write_failed := false))
      ensures ok ==> disk.log == File(old(disk).log.data + p.bytes, |old(disk).log.data + p.bytes|)
      ensures ok ==> Events(run, World(old(disk), p), actions) == Calm(7) + [Acked(p.entry)]
      ensures !ok ==> p' == Open(p.handle.(write_failed := true)) && Events(run, World(old(disk), p), actions) == Calm(|actions|)
      ensures failure.call >= 8 && old(disk).Current().next.None? && Record(run.s.head, run.s.readable, p.next).Some? ==> ok
    {
      hide Execute, Events, Advanced, Observed, OpenVerdict, Prepare, PowerLossLeaves, FaultLeaves, AfterFault;
      ghost var w0 := World(disk, p);
      ghost var a;
      actions := [];
      p' := p;
      NoCallYet(run, w0);
      var call := 0;
      while call < 8
        invariant 0 <= call <= 8 && disk.versions != [] && p' == AfterCalls(p, call)
        invariant call <= 3 ==> disk.Current() == old(disk).Current()
        invariant 4 <= call <= 6 ==> disk.Current().next.Some? && disk.Current().next.value < |disk.heads|
        invariant disk.log == LogAfter(old(disk).log, p.bytes, call)
        invariant Execute(run, w0, actions) == Some(World(disk, p'))
        invariant |actions| == call
        invariant Events(run, w0, actions) == if call < 8 then Calm(call) else Calm(7) + [Acked(p.entry)]
      {
        ghost var w := World(disk, p');
        OneOfEight(run, w, p, call);
        OneOfEightLog(run, w, p, call, old(disk).log);
        ok, p', a := Call(p', call == failure.call, failure.damage);
        ExecuteThen(run, w0, actions, [a]);
        OneEvent(run, w, a);
        actions := actions + [a];
        if !ok {
          FaultsAreSilent(run, w, a);
          return;
        }
        call := call + 1;
      }
      ok := true;
    }

    /**
     Append one event. It is refused, and nothing changes, exactly when `Refused` says so.
     Otherwise the handle is poisoned until the new head is committed: on success the entry
     holding what the caller passed is acknowledged, its record ends the log, and the head
     moves to it; on error the handle stays poisoned and nothing was acknowledged.
     */
    method Append(kind: string, epoch: U64, body: Value, ts: string, failure: Failure)
      returns (acked: Option<Entry>, ghost actions: seq<Action>)
      requires disk.versions != []
      modifies this
      ensures disk.versions != []
      ensures Execute(run, old(State()), actions) == Some(State())
      ensures Refused(run.s, old(Handle()), kind, epoch, body, ts) ==> acked == None && State() == old(State()) && actions == []
      ensures !Refused(run.s, old(Handle()), kind, epoch, body, ts) ==>
        var entry := Entry(old(head).sequence + 1, ts, kind, epoch, old(head).journal_root, body);
        var line := Line(run.s.entry, entry);
        var next := JournalHead(old(head).manifest_sha256, entry.seqno, Digest(run.s, entry), old(head).journal_bytes + |line|);
        var events := Events(run, old(State()), actions);
        if acked.Some? then
          && acked == Some(entry) && head == next && !writeFailed && tailBytes == 0
          && disk.log == File(old(disk).log.data + line, |old(disk).log.data + line|)
          && events == [Began(entry)] + Calm(7) + [Acked(entry)]
        else
          && writeFailed && head == old(head) && tailBytes == 0
          && events == [Began(entry)] + Calm(|actions| - 1)
          && (failure.call < 8 || old(disk).Current().next.Some? || Record(run.s.head, run.s.readable, next).None?)
    {
      PreparedUnlessRefused(run.s, Handle(), kind, epoch, body, ts);
      hide Refused, Record, Digest;
      var prepared := Prepare(run.s, JournalDisk.Handle(manifest, head, tailBytes, writeFailed), kind, epoch, body, ts);
      if prepared.None? {
        return None, [];
      }
      hide Execute, Events;
      var entry, bytes, next := prepared.value.entry, prepared.value.bytes, prepared.value.next;
      ghost var begin := Begin(kind, epoch, body, ts);
      OneEvent(run, State(), begin);
      writeFailed := true;
      var ok, p;
      ok, p, actions := WriteAndPublish(
        Appending(JournalDisk.Handle(manifest, head, tailBytes, true), entry, bytes, next, BeforeAppend), failure);
      ExecuteThen(run, old(State()), [begin], actions);
      actions := [begin] + actions;
      if !ok {
        return None, actions;
      }
      head := next;
      writeFailed := false;
      acked := Some(entry);
    }
  }

  /**
   Open an existing Run: read and verify everything, then make the head durable before
   handing it out. Whatever fails, the disk's contents are untouched.
   */
  method OpenRun(run: Run, disk: Disk, syncFails: bool) returns (journal: Journal?, ghost actions: seq<Action>)
    requires disk.versions != []
    ensures journal != null <==> OpenVerdict(run.s, disk).Some? && !syncFails
    ensures journal != null ==>
      && fresh(journal) && journal.run == run
      && journal.disk == disk.SyncDirectory() && journal.Handle() == OpenVerdict(run.s, disk).value.0
      && Execute(run, World(disk, Idle), actions) == Some(journal.State())
      && Events(run, World(disk, Idle), actions) == [Silent, Exposed(OpenVerdict(run.s, disk).value.1)]
    ensures journal == null ==> Execute(run, World(disk, Idle), actions) == Some(World(disk, Idle))
  {
    hide Prepare, PowerLossLeaves, Verify, ReadRecordFile;
    ghost var w := World(disk, Idle);
    OneEvent(run, w, OpenRead);
    var names := disk.Current();
    var manifest := ReadRecordFile(run.s.manifest, run.s.readable, disk.manifest.data);
    if !names.manifest || manifest.None? || !manifest.value.Object? || names.head.None? || names.head.value >= |disk.heads| {
      return null, [OpenRead];
    }
    var parsed := ReadRecordFile(run.s.head, run.s.readable, disk.heads[names.head.value].data);
    if parsed.None? || ManifestDigest(run.s, manifest.value) != parsed.value.manifest_sha256 || !names.log {
      return null, [OpenRead];
    }
    var head := parsed.value;
    if |disk.log.data| < head.journal_bytes {
      return null, [OpenRead];
    }
    var _, accepted := Scan(run.s, head, disk.log.data);
    if !accepted {
      return null, [OpenRead];
    }
    var handle := Handle(manifest.value, head, |disk.log.data| - head.journal_bytes, false);
    ghost var opening := Next(run, w, OpenRead).value;
    ghost var last := if syncFails then Fault(disk) else Advance;
    OneEvent(run, opening, last);
    ExecuteThen(run, w, [OpenRead], [last]);
    actions := [OpenRead] + [last];
    if syncFails {
      return null, actions;
    }
    journal := new Journal(run, disk.SyncDirectory(), handle);
  }

  /** A stretch of calls nobody observes. */
  function Calm(n: nat): seq<Event> {
    seq(n, i => Silent)
  }

  lemma OneEvent(r: Run, w: World, a: Action)
    requires Next(r, w, a).Some?
    ensures Execute(r, w, [a]) == Next(r, w, a)
    ensures Events(r, w, [a]) == [Observed(r, w, a)]
  {
    assert [a][1..] == [];
  }
}
