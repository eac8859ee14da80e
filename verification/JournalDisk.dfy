/**
 The journal's storage protocol as a transition system: one Run directory on a disk with
 a volatile and a durable layer, and the single lock holder that creates, opens and
 appends. Every system call between two `boundary(...)` marks is one step. Between any
 two steps the process may be killed, the machine may lose power, or the next call may
 fail half way.
 */
module JournalDisk {
  import opened Common
  import opened Json
  import opened JournalFormat

  // ----- the disk

  /** A file's contents; `data[..synced]` has reached the device. */
  datatype File = File(data: Bytes, synced: nat) {
    predicate Durable() { synced == |data| }
    function Sync(): File { File(data, |data|) }
    function Append(bytes: Bytes): File { File(data + bytes, synced) }
  }

  const EMPTY_FILE := File([], 0)

  /** Which fixed names exist. `head` and `head.next` are inode numbers into `Disk.heads`. */
  datatype Names = Names(manifest: bool, log: bool, head: Option<nat>, next: Option<nat>)

  /**
   `versions` are the directory's contents since its last sync, newest last: after power
   loss any one of them may be what is found. Renames are atomic.
   */
  datatype Disk = Disk(versions: seq<Names>, manifest: File, log: File, heads: seq<File>) {
    function Current(): Names requires versions != [] { versions[|versions| - 1] }
    function Rename(names: Names): Disk { this.(versions := versions + [names]) }
    function SyncDirectory(): Disk requires versions != [] { this.(versions := [Current()]) }
  }

  /** Unsynced contents may vanish or be garbage; synced contents stay. */
  ghost predicate FileSurvives(before: File, after: File) {
    && before.synced <= |before.data|
    && before.data[..before.synced] <= after.data
    && (before.Durable() ==> after.data == before.data)
    && after.Durable()
  }

  /** What power loss may leave of a disk. */
  ghost predicate PowerLossLeaves(before: Disk, after: Disk) {
    && |after.versions| == 1 && after.versions[0] in before.versions
    && FileSurvives(before.manifest, after.manifest)
    && FileSurvives(before.log, after.log)
    && |after.heads| == |before.heads|
    && forall i | 0 <= i < |before.heads| :: FileSurvives(before.heads[i], after.heads[i])
  }

  // ----- the process holding the writer lock

  datatype Handle = Handle(manifest: Value, head: JournalHead, tail_bytes: nat, write_failed: bool)

  datatype CreateStage = DirectoryCreated | ManifestCreated | ManifestWritten | ManifestSynced | LogCreated | LogSynced
  datatype AppendStage = BeforeAppend | PartialAppend | AppendWritten
  datatype PublishStage = Staging | HeadCreated | HeadWritten | HeadSynced | HeadRenamed

  /** Whose head is being published. */
  datatype Job = ForCreate | ForAppend(handle: Handle, entry: Entry)

  datatype Process =
    | Idle
    | Creating(at: CreateStage)
    | Opening(handle: Handle, entries: seq<Entry>)
    | Open(handle: Handle)
    | Appending(handle: Handle, entry: Entry, bytes: Bytes, next: JournalHead, stage: AppendStage)
    | Publishing(job: Job, next: JournalHead, step: PublishStage)

  datatype World = World(disk: Disk, process: Process)

  /** One Run: the serializer in use and the manifest it was created with. */
  datatype Run = Run(s: Serde, manifest: Value) {
    function Root(): string { s.sha256(s.manifest.encode(manifest)) }
    function FirstHead(): JournalHead { JournalHead(Root(), 0, Root(), 0) }
    /** What `create` has checked before it makes the directory. */
    ghost predicate Admitted() {
      Lawful(s) && manifest.Object? && Fits(manifest, MAX_INPUT_DEPTH) && Record(s.manifest, s.readable, manifest).Some?
    }
  }

  /** The directory has just been created and its parent synced. */
  function Initial(): World {
    World(Disk([Names(false, false, None, None)], EMPTY_FILE, EMPTY_FILE, []), Creating(DirectoryCreated))
  }

  // ----- reading the directory

  function ManifestDigest(s: Serde, m: Value): string { s.sha256(s.manifest.encode(m)) }

  /** Everything `open` checks before its directory sync; the handle and the verified entries. */
  function OpenVerdict(s: Serde, d: Disk): Option<(Handle, seq<Entry>)>
    requires d.versions != []
  {
    var names := d.Current();
    if !names.manifest then None else
    match ReadRecordFile(s.manifest, s.readable, d.manifest.data)
    case None => None
    case Some(manifest) =>
      if !manifest.Object? || names.head.None? || names.head.value >= |d.heads| then None else
      match ReadRecordFile(s.head, s.readable, d.heads[names.head.value].data)
      case None => None
      case Some(head) =>
        if ManifestDigest(s, manifest) != head.manifest_sha256 || !names.log then None
        else if |d.log.data| < head.journal_bytes then None
        else
          match Verify(s, head, d.log.data)
          case None => None
          case Some(es) => Some((Handle(manifest, head, |d.log.data| - head.journal_bytes, false), es))
  }

  // ----- append, up to its first write

  datatype Prepared = Prepared(entry: Entry, bytes: Bytes, next: JournalHead)

  /** The checks of `append` in order; None is a refusal that writes nothing. */
  function Prepare(s: Serde, h: Handle, kind: string, epoch: U64, body: Value, ts: string): Option<Prepared> {
    if !Fits(body, MAX_INPUT_DEPTH) then None
    else if h.write_failed then None
    else if h.tail_bytes != 0 then None
    else if !ValidKind(kind) || !body.Object? then None
    else if h.head.sequence + 1 > U64_MAX then None
    else
      var entry := Entry(h.head.sequence + 1, ts, kind, epoch, h.head.journal_root, body);
      match Record(s.entry, s.readable, entry)
      case None => None
      case Some(bytes) =>
        if h.head.journal_bytes + |bytes| > U64_MAX then None else
        Some(Prepared(entry, bytes,
          JournalHead(h.head.manifest_sha256, entry.seqno, Digest(s, entry), h.head.journal_bytes + |bytes|)))
  }

  // ----- one successful system call of the running operation

  function Split2(bytes: Bytes): (halves: (Bytes, Bytes))
    ensures halves.0 + halves.1 == bytes
  {
    (bytes[..|bytes| / 2], bytes[|bytes| / 2..])
  }

  function CreateStep(r: Run, d: Disk, at: CreateStage): Option<World>
    requires d.versions != []
  {
    var names := d.Current();
    match at
    case DirectoryCreated =>
      if names.manifest then None else
      Some(World(d.Rename(names.(manifest := true)).(manifest := EMPTY_FILE), Creating(ManifestCreated)))
    case ManifestCreated =>
      Some(World(d.(manifest := d.manifest.Append(Line(r.s.manifest, r.manifest))), Creating(ManifestWritten)))
    case ManifestWritten => Some(World(d.(manifest := d.manifest.Sync()), Creating(ManifestSynced)))
    case ManifestSynced =>
      if names.log then None else
      Some(World(d.Rename(names.(log := true)).(log := EMPTY_FILE), Creating(LogCreated)))
    case LogCreated => Some(World(d.(log := d.log.Sync()), Creating(LogSynced)))
    case LogSynced => Some(World(d.SyncDirectory(), Publishing(ForCreate, r.FirstHead(), Staging)))
  }

  function AppendStep(d: Disk, p: Process): World
    requires p.Appending?
  {
    match p.stage
    case BeforeAppend => World(d.(log := d.log.Append(Split2(p.bytes).0)), p.(stage := PartialAppend))
    case PartialAppend => World(d.(log := d.log.Append(Split2(p.bytes).1)), p.(stage := AppendWritten))
    case AppendWritten => World(d.(log := d.log.Sync()), Publishing(ForAppend(p.handle, p.entry), p.next, Staging))
  }

  /** The handle an operation returns once its head is committed. */
  function Published(r: Run, job: Job, next: JournalHead): Handle {
    match job
    case ForCreate => Handle(r.manifest, next, 0, false)
    case ForAppend(h, _) => h.(head := next, write_failed := false)
  }

  function PublishStep(r: Run, d: Disk, p: Process): Option<World>
    requires p.Publishing? && d.versions != []
  {
    var names := d.Current();
    match p.step
    case Staging =>
      if names.next.Some? then None else  // O_EXCL: stale staging is never overwritten
      Some(World(d.Rename(names.(next := Some(|d.heads|))).(heads := d.heads + [EMPTY_FILE]), p.(step := HeadCreated)))
    case HeadCreated =>
      if names.next.None? || names.next.value >= |d.heads| then None else
      var id := names.next.value;
      (match Record(r.s.head, r.s.readable, p.next)
       case None => None
       case Some(bytes) => Some(World(d.(heads := d.heads[id := d.heads[id].Append(bytes)]), p.(step := HeadWritten))))
    case HeadWritten =>
      if names.next.None? || names.next.value >= |d.heads| then None else
      var id := names.next.value;
      Some(World(d.(heads := d.heads[id := d.heads[id].Sync()]), p.(step := HeadSynced)))
    case HeadSynced => Some(World(d.Rename(names.(head := names.next, next := None)), p.(step := HeadRenamed)))
    case HeadRenamed => Some(World(d.SyncDirectory(), Open(Published(r, p.job, p.next))))
  }

  function Advanced(r: Run, w: World): Option<World>
    requires w.disk.versions != []
  {
    match w.process
    case Idle => None
    case Open(_) => None
    case Creating(at) => CreateStep(r, w.disk, at)
    case Opening(h, _) => Some(World(w.disk.SyncDirectory(), Open(h)))
    case Appending(_, _, _, _, _) => Some(AppendStep(w.disk, w.process))
    case Publishing(_, _, _) => PublishStep(r, w.disk, w.process)
  }

  // ----- one failing system call

  predicate PartlyWritten(before: File, after: File, bytes: Bytes) {
    exists n: nat | n <= |bytes| :: after == before.Append(bytes[..n])
  }

  predicate PartlySynced(before: File, after: File) {
    after.data == before.data && before.synced <= after.synced <= |before.data|
  }

  /** What a failed call of the running operation may leave behind; success effects included. */
  predicate FaultLeaves(r: Run, w: World, after: Disk)
    requires w.disk.versions != []
  {
    var d := w.disk;
    || after == d
    || (Advanced(r, w).Some? && after == Advanced(r, w).value.disk)
    || (w.process == Creating(ManifestCreated) &&
        after == d.(manifest := after.manifest) && PartlyWritten(d.manifest, after.manifest, Line(r.s.manifest, r.manifest)))
    || (w.process == Creating(ManifestWritten) &&
        after == d.(manifest := after.manifest) && PartlySynced(d.manifest, after.manifest))
    || (w.process.Appending? && after == d.(log := after.log) &&
        match w.process.stage
        case BeforeAppend => PartlyWritten(d.log, after.log, Split2(w.process.bytes).0)
        case PartialAppend => PartlyWritten(d.log, after.log, Split2(w.process.bytes).1)
        case AppendWritten => PartlySynced(d.log, after.log))
    || (w.process.Publishing? && d.Current().next.Some? && d.Current().next.value < |d.heads| &&
        var id := d.Current().next.value;
        && |after.heads| == |d.heads| && after == d.(heads := d.heads[id := after.heads[id]])
        && match w.process.step
           case HeadCreated =>
             Record(r.s.head, r.s.readable, w.process.next).Some? &&
             PartlyWritten(d.heads[id], after.heads[id], Record(r.s.head, r.s.readable, w.process.next).value)
           case HeadWritten => PartlySynced(d.heads[id], after.heads[id])
           case _ => false)
  }

  /** An error ends `create` and `open`, and poisons the handle of an `append`. */
  function AfterFault(p: Process): Process {
    match p
    case Appending(h, _, _, _, _) => Open(h.(write_failed := true))
    case Publishing(ForAppend(h, _), _, _) => Open(h.(write_failed := true))
    case Open(h) => p
    case _ => Idle
  }

  // ----- the transition system

  datatype Action =
    | Kill
    | PowerLoss(after: Disk)
    | Close
    | OpenRead
    | Begin(kind: string, epoch: U64, body: Value, ts: string)
    | Advance
    | Fault(after: Disk)

  ghost function Next(r: Run, w: World, a: Action): Option<World> {
    if w.disk.versions == [] then None else
    match a
    case Kill => Some(World(w.disk, Idle))
    case PowerLoss(after) => if PowerLossLeaves(w.disk, after) then Some(World(after, Idle)) else None
    case Close => if w.process.Open? then Some(World(w.disk, Idle)) else None
    case OpenRead =>
      if !w.process.Idle? then None else
      (match OpenVerdict(r.s, w.disk)
       case None => Some(w)
       case Some(verdict) => Some(World(w.disk, Opening(verdict.0, verdict.1))))
    case Begin(kind, epoch, body, ts) =>
      if !w.process.Open? then None else
      var h := w.process.handle;
      (match Prepare(r.s, h, kind, epoch, body, ts)
       case None => Some(w)
       case Some(p) => Some(World(w.disk, Appending(h.(write_failed := true), p.entry, p.bytes, p.next, BeforeAppend))))
    case Advance => Advanced(r, w)
    case Fault(after) =>
      if !w.process.Idle? && !w.process.Open? && FaultLeaves(r, w, after)
      then Some(World(after, AfterFault(w.process))) else None
  }

  // ----- what callers observe

  datatype Event =
    | Silent
    | Began(entry: Entry)           // an append has passed its checks
    | Acked(entry: Entry)           // append returned Ok
    | Exposed(entries: seq<Entry>)  // create or open returned a handle onto these entries

  ghost function Observed(r: Run, w: World, a: Action): Event {
    match a
    case Begin(kind, epoch, body, ts) =>
      if !w.process.Open? then Silent else
      (match Prepare(r.s, w.process.handle, kind, epoch, body, ts)
       case None => Silent
       case Some(p) => Began(p.entry))
    case Advance =>
      (match w.process
       case Opening(_, es) => Exposed(es)
       case Publishing(ForCreate, _, HeadRenamed) => Exposed([])
       case Publishing(ForAppend(_, entry), _, HeadRenamed) => Acked(entry)
       case _ => Silent)
    case _ => Silent
  }

  // ----- the specification: a log that loses nothing it has acknowledged

  /**
   Whether a handle has ever been returned, the agreed history, and at most one append
   whose outcome is not yet known.
   */
  datatype Ledger = Ledger(live: bool, history: seq<Entry>, doubt: Option<Entry>)

  const UNBORN := Ledger(false, [], None)

  /**
   An acknowledged append extends the history. Opening settles the append in doubt for
   good, one way or the other. No other entry ever appears and none disappears.
   */
  function LedgerStep(l: Ledger, ev: Event): Option<Ledger> {
    match ev
    case Silent => Some(l)
    case Began(e) => if l.live && l.doubt.None? then Some(l.(doubt := Some(e))) else None
    case Acked(e) => if l.live && l.doubt == Some(e) then Some(Ledger(true, l.history + [e], None)) else None
    case Exposed(es) =>
      if es == l.history || (l.doubt.Some? && es == l.history + [l.doubt.value]) then Some(Ledger(true, es, None)) else None
  }
}
