/**
 Crash safety of the journal: the storage protocol of JournalDisk refines the ledger
 specification under kills, power loss and I/O errors at every step.
 */
module JournalSafety {
  import opened Common
  import opened Json
  import opened JournalFormat
  import opened JournalDisk

  // ----- what a directory version must be worth

  /** Head inode `id` is durable and names exactly `es`, which are durable in the log. */
  ghost predicate Holds(r: Run, d: Disk, id: nat, es: seq<Entry>) {
    && id < |d.heads| && d.heads[id].Durable()
    && d.log.synced <= |d.log.data| && |Flatten(r.s, es)| <= d.log.synced
    && ReadRecordFile(r.s.head, r.s.readable, d.heads[id].data).Some?
    && var head := ReadRecordFile(r.s.head, r.s.readable, d.heads[id].data).value;
       head.manifest_sha256 == r.Root() && Committed(r.s, head, d.log.data, es)
  }

  ghost predicate ManifestHolds(r: Run, d: Disk) {
    d.manifest.Durable() && ReadRecordFile(r.s.manifest, r.s.readable, d.manifest.data) == Some(r.manifest)
  }

  /** A version is safe to find after power loss. */
  ghost predicate VersionSafe(r: Run, d: Disk, v: Names, l: Ledger) {
    && (v.head.Some? || v.next.Some? ==> v.manifest && v.log && ManifestHolds(r, d))
    && (v.head.None? ==> !l.live)
    && (v.head.Some? ==>
          || Holds(r, d, v.head.value, l.history)
          || (l.doubt.Some? && Holds(r, d, v.head.value, l.history + [l.doubt.value])))
    && (v.next.Some? ==> v.next.value < |d.heads| && v.next != v.head)
    && (v.next.Some? && v.head.Some? ==>
          Holds(r, d, v.head.value, l.history) && |Flatten(r.s, l.history)| < d.log.synced)
  }

  ghost predicate VersionsSafe(r: Run, d: Disk, l: Ledger) {
    && d.versions != []
    && FilesValid(d)
    && forall v | v in d.versions :: VersionSafe(r, d, v, l)
  }

  ghost predicate FilesValid(d: Disk) {
    && d.manifest.synced <= |d.manifest.data|
    && d.log.synced <= |d.log.data|
    && forall i | 0 <= i < |d.heads| :: d.heads[i].synced <= |d.heads[i].data|
  }

  /** The directory is fully durable and its head names exactly the history. */
  ghost predicate Settled(r: Run, d: Disk, head: JournalHead, l: Ledger) {
    && |d.versions| == 1 && d.Current().head.Some?
    && Holds(r, d, d.Current().head.value, l.history)
    && ReadRecordFile(r.s.head, r.s.readable, d.heads[d.Current().head.value].data) == Some(head)
  }

  ghost predicate HeadFor(r: Run, head: JournalHead, es: seq<Entry>) {
    head.manifest_sha256 == r.Root() && Chained(r.s, r.Root(), es) && HeadNames(r.s, head, es)
  }

  // ----- the refinement relation, by what the process is doing

  ghost predicate CreatingSafe(r: Run, d: Disk, at: CreateStage, l: Ledger)
    requires d.versions != []
  {
    && l == UNBORN
    && (forall v | v in d.versions :: v.head.None? && v.next.None?)
    && (d.Current().manifest <==> !at.DirectoryCreated?)
    && (d.Current().log <==> at.LogCreated? || at.LogSynced?)
    && (at.ManifestCreated? ==> d.manifest == EMPTY_FILE)
    && (at.ManifestWritten? ==> d.manifest.data == Line(r.s.manifest, r.manifest))
    && (at.ManifestSynced? || at.LogCreated? || at.LogSynced? ==> ManifestHolds(r, d))
    && (at.LogCreated? ==> d.log == EMPTY_FILE)
    && (at.LogSynced? ==> d.log == EMPTY_FILE)
  }

  /** How much of the record being appended the log holds. */
  function Written(bytes: Bytes, stage: AppendStage): Bytes {
    match stage
    case BeforeAppend => []
    case PartialAppend => Split2(bytes).0
    case AppendWritten => bytes
  }

  ghost predicate AppendingSafe(r: Run, d: Disk, p: Process, l: Ledger)
    requires p.Appending?
  {
    && l.live && l.doubt == Some(p.entry)
    && Settled(r, d, p.handle.head, l) && d.Current().next.None?
    && p.bytes == Line(r.s.entry, p.entry)
    && HeadFor(r, p.next, l.history + [p.entry])
    && p.handle.manifest == r.manifest && p.handle.tail_bytes == 0
    && d.log.data == Flatten(r.s, l.history) + Written(p.bytes, p.stage)
  }

  /** The entries the head under publication will name. */
  ghost function Target(job: Job, l: Ledger): seq<Entry> {
    match job
    case ForCreate => l.history
    case ForAppend(_, entry) => l.history + [entry]
  }

  ghost predicate JobSafe(r: Run, d: Disk, job: Job, l: Ledger) {
    match job
    case ForCreate => l == UNBORN && forall v | v in d.versions :: v.head.Some? ==> Holds(r, d, v.head.value, [])
    case ForAppend(h, entry) =>
      && l.live && l.doubt == Some(entry) && h.manifest == r.manifest && h.tail_bytes == 0
      && (forall v | v in d.versions :: v.head.Some?)
  }

  /** The new head file has been staged under `head.next`, and nowhere else. */
  ghost predicate Staged(d: Disk)
    requires d.versions != []
  {
    && d.Current().next.Some? && d.Current().next.value < |d.heads|
    && forall v | v in d.versions :: v.head != d.Current().next
  }

  ghost predicate PublishingSafe(r: Run, d: Disk, p: Process, l: Ledger)
    requires p.Publishing? && d.versions != []
  {
    var names := d.Current();
    && JobSafe(r, d, p.job, l)
    && names.manifest && names.log && ManifestHolds(r, d)
    && HeadFor(r, p.next, Target(p.job, l))
    && d.log == File(Flatten(r.s, Target(p.job, l)), |Flatten(r.s, Target(p.job, l))|)
    && (p.step.Staging? ==>
          && |d.versions| == 1 && names.next.None?
          && (p.job.ForCreate? ==> names.head.None?)
          && (p.job.ForAppend? ==> names.head.Some? && Holds(r, d, names.head.value, l.history)))
    && (p.step.HeadCreated? || p.step.HeadWritten? || p.step.HeadSynced? ==>
          Staged(d) &&
          var f := d.heads[names.next.value];
          && (p.step.HeadCreated? ==> f == EMPTY_FILE)
          && (!p.step.HeadCreated? ==> ReadRecordFile(r.s.head, r.s.readable, f.data) == Some(p.next))
          && (p.step.HeadSynced? ==> f.Durable()))
    && (p.step.HeadRenamed? ==>
          && names.next.None? && names.head.Some? && Holds(r, d, names.head.value, Target(p.job, l))
          && ReadRecordFile(r.s.head, r.s.readable, d.heads[names.head.value].data) == Some(p.next))
  }

  ghost predicate ProcessSafe(r: Run, w: World, l: Ledger)
    requires w.disk.versions != []
  {
    var d := w.disk;
    match w.process
    case Idle => true
    case Creating(at) => CreatingSafe(r, d, at, l)
    case Opening(h, es) => OpenVerdict(r.s, d) == Some((h, es))
    case Open(h) =>
      !h.write_failed ==>
        && l.live && l.doubt.None? && Settled(r, d, h.head, l) && h.manifest == r.manifest
        && |d.log.data| == h.head.journal_bytes + h.tail_bytes
    case Appending(_, _, _, _, _) => AppendingSafe(r, d, w.process, l)
    case Publishing(_, _, _) => PublishingSafe(r, d, w.process, l)
  }

  /** The refinement relation between the concrete world and the ledger. */
  ghost predicate Related(r: Run, w: World, l: Ledger) {
    (!l.live ==> l == UNBORN) && VersionsSafe(r, w.disk, l) && ProcessSafe(r, w, l)
  }

  lemma InitiallyRelated(r: Run)
    requires r.Admitted()
    ensures Related(r, Initial(), UNBORN)
  {
  }

  // ----- frames

  /** Growing the log and adding head files keeps a committed head committed. */
  lemma HoldsFrame(r: Run, d: Disk, d': Disk, id: nat, es: seq<Entry>)
    requires Holds(r, d, id, es)
    requires id < |d'.heads| && d'.heads[id] == d.heads[id]
    requires d.log.data[..d.log.synced] <= d'.log.data && d.log.synced <= d'.log.synced <= |d'.log.data|
    ensures Holds(r, d', id, es)
  {
    var flat := Flatten(r.s, es);
    assert flat <= d.log.data[..d.log.synced];
  }

  lemma VersionFrame(r: Run, d: Disk, d': Disk, v: Names, l: Ledger)
    requires VersionSafe(r, d, v, l)
    requires d.manifest.Durable() ==> d'.manifest == d.manifest
    requires |d.heads| <= |d'.heads|
    requires v.head.Some? && v.head.value < |d.heads| ==> d'.heads[v.head.value] == d.heads[v.head.value]
    requires d.log.synced <= |d.log.data|
    requires d.log.data[..d.log.synced] <= d'.log.data && d.log.synced <= d'.log.synced <= |d'.log.data|
    ensures VersionSafe(r, d', v, l)
  {
    if v.head.Some? {
      if Holds(r, d, v.head.value, l.history) {
        HoldsFrame(r, d, d', v.head.value, l.history);
      }
      if l.doubt.Some? && Holds(r, d, v.head.value, l.history + [l.doubt.value]) {
        HoldsFrame(r, d, d', v.head.value, l.history + [l.doubt.value]);
      }
    }
  }

  // ----- reading back what was written

  /** A version whose head holds `es` opens onto exactly `es`. */
  lemma HeldHeadOpens(r: Run, d: Disk, es: seq<Entry>)
    requires r.Admitted()
    requires d.versions != [] && d.Current().head.Some?
    requires d.Current().manifest && d.Current().log && ManifestHolds(r, d)
    requires Holds(r, d, d.Current().head.value, es)
    ensures OpenVerdict(r.s, d).Some?
    ensures
      var (h, found) := OpenVerdict(r.s, d).value;
      && found == es && h.manifest == r.manifest && !h.write_failed
      && ReadRecordFile(r.s.head, r.s.readable, d.heads[d.Current().head.value].data) == Some(h.head)
      && |d.log.data| == h.head.journal_bytes + h.tail_bytes
  {
    var head := ReadRecordFile(r.s.head, r.s.readable, d.heads[d.Current().head.value].data).value;
    VerifyIffCommitted(r.s, head, d.log.data, es);
  }

  /** In a related world, opening yields the history, or the history and the append in doubt. */
  lemma OpenFindsTheLedger(r: Run, d: Disk, l: Ledger)
    requires r.Admitted() && VersionsSafe(r, d, l)
    requires OpenVerdict(r.s, d).Some?
    ensures
      var (h, es) := OpenVerdict(r.s, d).value;
      && d.Current().head.Some? && Holds(r, d, d.Current().head.value, es)
      && (es == l.history || (l.doubt.Some? && es == l.history + [l.doubt.value]))
      && h.manifest == r.manifest && !h.write_failed
      && ReadRecordFile(r.s.head, r.s.readable, d.heads[d.Current().head.value].data) == Some(h.head)
      && |d.log.data| == h.head.journal_bytes + h.tail_bytes
  {
    var v := d.Current();
    assert v in d.versions;
    if Holds(r, d, v.head.value, l.history) {
      HeldHeadOpens(r, d, l.history);
    } else {
      HeldHeadOpens(r, d, l.history + [l.doubt.value]);
    }
  }

  // ----- one step at a time

  lemma PowerLossPreserves(r: Run, w: World, l: Ledger, after: Disk)
    requires Related(r, w, l) && PowerLossLeaves(w.disk, after)
    ensures Related(r, World(after, Idle), l)
  {
    VersionFrame(r, w.disk, after, after.versions[0], l);
  }

  lemma OpenReadPreserves(r: Run, w: World, l: Ledger)
    requires r.Admitted() && Related(r, w, l) && Next(r, w, OpenRead).Some?
    ensures Related(r, Next(r, w, OpenRead).value, l)
  {
  }

  lemma FlattenSnoc(s: Serde, es: seq<Entry>, e: Entry)
    ensures Flatten(s, es + [e]) == Flatten(s, es) + Line(s.entry, e)
  {
    assert (es + [e])[..|es|] == es;
  }

  lemma ChainedSnoc(s: Serde, root: string, es: seq<Entry>, e: Entry)
    requires Chained(s, root, es) && |es| < U64_MAX
    requires Follows(s, e, |es| + 1, RootAfter(s, root, es))
    ensures Chained(s, root, es + [e])
  {
    var all := es + [e];
    forall i | 0 <= i < |all| ensures Follows(s, all[i], i + 1, RootAfter(s, root, all[..i])) {
      if i < |es| {
        assert all[..i] == es[..i] && Follows(s, es[i], i + 1, RootAfter(s, root, es[..i]));
      } else {
        assert all[..i] == es;
      }
    }
  }

  /** A prepared append extends the chain its handle's head names. */
  lemma PreparedExtends(r: Run, h: Handle, es: seq<Entry>, kind: string, epoch: U64, body: Value, ts: string)
    requires Prepare(r.s, h, kind, epoch, body, ts).Some?
    requires HeadFor(r, h.head, es)
    ensures
      var p := Prepare(r.s, h, kind, epoch, body, ts).value;
      p.bytes == Line(r.s.entry, p.entry) && HeadFor(r, p.next, es + [p.entry])
  {
    var p := Prepare(r.s, h, kind, epoch, body, ts).value;
    ChainedSnoc(r.s, r.Root(), es, p.entry);
    FlattenSnoc(r.s, es, p.entry);
  }

  /** A healthy handle without a tail: the log is exactly the history and nothing is staged. */
  lemma HealthyHandleIsClean(r: Run, d: Disk, h: Handle, l: Ledger)
    requires VersionsSafe(r, d, l) && Settled(r, d, h.head, l)
    requires |d.log.data| == h.head.journal_bytes
    ensures d.log.data == Flatten(r.s, l.history)
    ensures d.Current().next.None?
    ensures HeadFor(r, h.head, l.history)
  {
    assert d.Current() in d.versions;
  }

  lemma DoubtWidens(r: Run, d: Disk, l: Ledger, e: Entry)
    requires VersionsSafe(r, d, l) && l.doubt.None? && |d.versions| == 1 && d.Current().head.Some?
    ensures VersionsSafe(r, d, l.(doubt := Some(e)))
  {
    assert d.versions[0] == d.Current();
  }

  lemma BeginPreserves(r: Run, w: World, l: Ledger, kind: string, epoch: U64, body: Value, ts: string)
    requires r.Admitted() && Related(r, w, l) && w.process.Open?
    requires Prepare(r.s, w.process.handle, kind, epoch, body, ts).Some?
    ensures
      var p := Prepare(r.s, w.process.handle, kind, epoch, body, ts).value;
      && l.doubt.None?
      && Related(r, Next(r, w, Begin(kind, epoch, body, ts)).value, l.(doubt := Some(p.entry)))
  {
    hide VersionsSafe, Holds, HeadFor, Record, ReadRecordFile, ValidKind, Fits, Flatten;
    var h, d := w.process.handle, w.disk;
    var p := Prepare(r.s, h, kind, epoch, body, ts).value;
    var l' := l.(doubt := Some(p.entry));
    HealthyHandleIsClean(r, d, h, l);
    DoubtWidens(r, d, l, p.entry);
    PreparedExtends(r, h, l.history, kind, epoch, body, ts);
    var w' := Next(r, w, Begin(kind, epoch, body, ts)).value;
    assert AppendingSafe(r, d, w'.process, l');
  }

  lemma CreateStepPreserves(r: Run, w: World, l: Ledger)
    requires r.Admitted() && Related(r, w, l) && w.process.Creating? && Advanced(r, w).Some?
    ensures Related(r, Advanced(r, w).value, l)
  {
    var d, w' := w.disk, Advanced(r, w).value;
    var d' := w'.disk;
    assert d.Current() in d.versions && d'.Current() in d'.versions;
    if w.process.at.ManifestWritten? {
      RecordRoundTrip(r.s.manifest, r.s.readable, r.manifest, d.manifest.data);
    }
  }

  /** Once the directory is synced, the current head is the whole truth. */
  lemma SyncSettles(r: Run, d: Disk, head: JournalHead, es: seq<Entry>)
    requires d.versions != [] && FilesValid(d)
    requires d.Current().manifest && d.Current().log && ManifestHolds(r, d)
    requires d.Current().head.Some? && Holds(r, d, d.Current().head.value, es)
    requires d.Current().next.Some? ==>
      && d.Current().next.value < |d.heads| && d.Current().next != d.Current().head
      && |Flatten(r.s, es)| < d.log.synced
    requires ReadRecordFile(r.s.head, r.s.readable, d.heads[d.Current().head.value].data) == Some(head)
    ensures
      var l' := Ledger(true, es, None);
      VersionsSafe(r, d.SyncDirectory(), l') && Settled(r, d.SyncDirectory(), head, l')
  {
    var d', v := d.SyncDirectory(), d.Current();
    assert d'.Current() == v;
    HoldsFrame(r, d, d', v.head.value, es);
  }

  lemma OpeningPreserves(r: Run, w: World, l: Ledger)
    requires r.Admitted() && Related(r, w, l) && w.process.Opening?
    ensures LedgerStep(l, Exposed(w.process.entries)) == Some(Ledger(true, w.process.entries, None))
    ensures Related(r, Advanced(r, w).value, Ledger(true, w.process.entries, None))
  {
    var d, h, es := w.disk, w.process.handle, w.process.entries;
    assert d.Current() in d.versions;
    OpenFindsTheLedger(r, d, l);
    if d.Current().next.Some? {
      HeldHeadOpens(r, d, l.history);
    }
    SyncSettles(r, d, h.head, es);
  }

  /** Changing only the log, without touching its synced prefix, keeps a settled directory settled. */
  lemma LogGrowthSettled(r: Run, d: Disk, d': Disk, head: JournalHead, l: Ledger)
    requires VersionsSafe(r, d, l) && Settled(r, d, head, l)
    requires d' == d.(log := d'.log)
    requires d.log.data <= d'.log.data && d.log.synced <= d'.log.synced <= |d'.log.data|
    ensures VersionsSafe(r, d', l) && Settled(r, d', head, l)
  {
    var v := d.Current();
    assert d'.versions == [v] && v in d.versions;
    VersionFrame(r, d, d', v, l);
    HoldsFrame(r, d, d', v.head.value, l.history);
  }

  lemma AppendWritePreserves(r: Run, w: World, l: Ledger)
    requires r.Admitted() && Related(r, w, l) && w.process.Appending? && !w.process.stage.AppendWritten?
    ensures Related(r, Advanced(r, w).value, l)
  {
    hide VersionSafe, Settled, HeadFor, Flatten;
    var p, d' := w.process, Advanced(r, w).value.disk;
    LogGrowthSettled(r, w.disk, d', p.handle.head, l);
    WrittenGrows(Flatten(r.s, l.history), p.bytes);
  }

  lemma WrittenGrows(flat: Bytes, bytes: Bytes)
    ensures flat + Written(bytes, BeforeAppend) + Split2(bytes).0 == flat + Written(bytes, PartialAppend)
    ensures flat + Written(bytes, PartialAppend) + Split2(bytes).1 == flat + Written(bytes, AppendWritten)
  {
    assert flat + Split2(bytes).0 + Split2(bytes).1 == flat + (Split2(bytes).0 + Split2(bytes).1);
  }

  lemma AppendSyncPreserves(r: Run, w: World, l: Ledger)
    requires r.Admitted() && Related(r, w, l) && w.process.Appending? && w.process.stage.AppendWritten?
    ensures Related(r, Advanced(r, w).value, l)
  {
    var p, d' := w.process, Advanced(r, w).value.disk;
    LogGrowthSettled(r, w.disk, d', p.handle.head, l);
    FlattenSnoc(r.s, l.history, p.entry);
    var v := d'.Current();
    assert d'.versions == [v];
    assert VersionSafe(r, d', v, l);
  }

  lemma StagingPreserves(r: Run, w: World, l: Ledger)
    requires r.Admitted() && Related(r, w, l) && w.process.Publishing? && w.process.step.Staging?
    ensures Advanced(r, w).Some? && Related(r, Advanced(r, w).value, l)
  {
    var d, d' := w.disk, Advanced(r, w).value.disk;
    var v := d.Current();
    assert v in d.versions && d.versions == [v];
    if w.process.job.ForAppend? {
      FlattenSnoc(r.s, l.history, w.process.job.entry);
    }
    StagingVersions(r, d, d', l);
    assert d'.heads[|d.heads|] == EMPTY_FILE;
  }

  /** Creating `head.next` beside the current head. */
  lemma StagingVersions(r: Run, d: Disk, d': Disk, l: Ledger)
    requires VersionsSafe(r, d, l) && |d.versions| == 1 && d.Current().next.None?
    requires d.Current().manifest && d.Current().log && ManifestHolds(r, d)
    requires d.Current().head.Some? ==>
      Holds(r, d, d.Current().head.value, l.history) && |Flatten(r.s, l.history)| < d.log.synced
    requires d' == d.Rename(d.Current().(next := Some(|d.heads|))).(heads := d.heads + [EMPTY_FILE])
    ensures d'.versions == [d.Current(), d'.Current()]
    ensures VersionsSafe(r, d', l) && Staged(d')
  {
    var v := d.Current();
    assert v in d.versions;
    VersionFrame(r, d, d', v, l);
    if v.head.Some? {
      HoldsFrame(r, d, d', v.head.value, l.history);
    }
  }

  /** Writing or syncing the staged file leaves every version's head file alone. */
  lemma StagedWritePreserves(r: Run, d: Disk, d': Disk, l: Ledger)
    requires VersionsSafe(r, d, l) && Staged(d)
    requires |d'.heads| == |d.heads| && d' == d.(heads := d'.heads)
    requires forall i | 0 <= i < |d.heads| && i != d.Current().next.value :: d'.heads[i] == d.heads[i]
    requires FilesValid(d')
    ensures VersionsSafe(r, d', l)
    ensures forall v, es | v in d.versions && v.head.Some? && Holds(r, d, v.head.value, es) :: Holds(r, d', v.head.value, es)
  {
    forall v | v in d'.versions ensures VersionSafe(r, d', v, l) {
      VersionFrame(r, d, d', v, l);
    }
    forall v, es | v in d.versions && v.head.Some? && Holds(r, d, v.head.value, es)
      ensures Holds(r, d', v.head.value, es)
    {
      HoldsFrame(r, d, d', v.head.value, es);
    }
  }

  lemma HeadWritePreserves(r: Run, w: World, l: Ledger)
    requires r.Admitted() && Related(r, w, l) && w.process.Publishing? && Advanced(r, w).Some?
    requires w.process.step.HeadCreated? || w.process.step.HeadWritten?
    ensures Related(r, Advanced(r, w).value, l)
  {
    hide VersionSafe, HeadFor, Holds, Flatten;
    var d, p, w' := w.disk, w.process, Advanced(r, w).value;
    StagedWritePreserves(r, d, w'.disk, l);
    if p.step.HeadCreated? {
      var written := w'.disk.heads[d.Current().next.value].data;
      assert written == Record(r.s.head, r.s.readable, p.next).value;
      RecordRoundTrip(r.s.head, r.s.readable, p.next, written);
    }
  }

  /** The renamed head: durable, and it names the entries under publication. */
  lemma RenamedHeadHolds(r: Run, d: Disk, d': Disk, p: Process, l: Ledger)
    requires p.Publishing? && p.step.HeadSynced? && VersionsSafe(r, d, l) && PublishingSafe(r, d, p, l)
    requires d' == d.Rename(d.Current().(head := d.Current().next, next := None))
    ensures d'.Current().head == d.Current().next && Holds(r, d', d'.Current().head.value, Target(p.job, l))
    ensures VersionSafe(r, d', d'.Current(), l)
  {
    var v := d.Current();
    assert v in d.versions;
  }

  /** A rename changes no file, so what every earlier version is worth stays. */
  lemma RenameKeepsVersions(r: Run, d: Disk, d': Disk, names: Names, l: Ledger)
    requires VersionsSafe(r, d, l) && d' == d.Rename(names) && VersionSafe(r, d', names, l)
    ensures VersionsSafe(r, d', l)
  {
    hide VersionSafe;
    forall u | u in d'.versions ensures VersionSafe(r, d', u, l) {
      if u in d.versions {
        VersionFrame(r, d, d', u, l);
      } else {
        assert u == names;
      }
    }
  }

  lemma RenameKeepsJob(r: Run, d: Disk, d': Disk, names: Names, job: Job, l: Ledger)
    requires JobSafe(r, d, job, l) && d' == d.Rename(names) && names.head.Some?
    requires job.ForCreate? ==> Holds(r, d', names.head.value, [])
    ensures JobSafe(r, d', job, l)
  {
    hide Holds;
    forall u | u in d'.versions && u.head.Some? && job.ForCreate? ensures Holds(r, d', u.head.value, []) {
      if u in d.versions {
        HoldsSame(r, d, d', u.head.value, []);
      } else {
        assert u == names;
      }
    }
  }

  lemma HoldsSame(r: Run, d: Disk, d': Disk, id: nat, es: seq<Entry>)
    requires d'.heads == d.heads && d'.log == d.log
    ensures Holds(r, d', id, es) == Holds(r, d, id, es)
  {
  }

  lemma RenamePreserves(r: Run, w: World, l: Ledger)
    requires r.Admitted() && Related(r, w, l) && w.process.Publishing? && w.process.step.HeadSynced?
    ensures Related(r, Advanced(r, w).value, l)
  {
    var d, p := w.disk, w.process;
    var d' := d.Rename(d.Current().(head := d.Current().next, next := None));
    assert Advanced(r, w) == Some(World(d', p.(step := HeadRenamed)));
    RenamedHeadHolds(r, d, d', p, l);
    hide Advanced, VersionSafe, Holds, HeadFor;
    RenameKeepsVersions(r, d, d', d'.Current(), l);
    hide VersionsSafe;
    RenameKeepsJob(r, d, d', d'.Current(), p.job, l);
  }

  lemma CommitPreserves(r: Run, w: World, l: Ledger)
    requires r.Admitted() && Related(r, w, l) && w.process.Publishing? && w.process.step.HeadRenamed?
    ensures LedgerStep(l, Observed(r, w, Advance)) == Some(Ledger(true, Target(w.process.job, l), None))
    ensures Related(r, Advanced(r, w).value, Ledger(true, Target(w.process.job, l), None))
  {
    var p := w.process;
    SyncSettles(r, w.disk, p.next, Target(p.job, l));
    assert |w.disk.log.data| == p.next.journal_bytes;
  }

  lemma AdvancePreserves(r: Run, w: World, l: Ledger)
    requires r.Admitted() && Related(r, w, l) && Advanced(r, w).Some?
    ensures LedgerStep(l, Observed(r, w, Advance)).Some?
    ensures Related(r, Advanced(r, w).value, LedgerStep(l, Observed(r, w, Advance)).value)
  {
    hide VersionsSafe, ProcessSafe, CreateStep, AppendStep, PublishStep;
    match w.process {
      case Creating(_) => CreateStepPreserves(r, w, l);
      case Opening(_, _) => OpeningPreserves(r, w, l);
      case Appending(_, _, _, _, stage) =>
        if stage.AppendWritten? { AppendSyncPreserves(r, w, l); } else { AppendWritePreserves(r, w, l); }
      case Publishing(_, _, step) =>
        match step {
          case Staging => StagingPreserves(r, w, l);
          case HeadCreated => HeadWritePreserves(r, w, l);
          case HeadWritten => HeadWritePreserves(r, w, l);
          case HeadSynced => RenamePreserves(r, w, l);
          case HeadRenamed => CommitPreserves(r, w, l);
        }
    }
  }

  // ----- failing calls

  lemma SyncDirectoryKeepsVersions(r: Run, d: Disk, l: Ledger)
    requires VersionsSafe(r, d, l)
    ensures VersionsSafe(r, d.SyncDirectory(), l)
  {
    var v := d.Current();
    assert v in d.versions;
    VersionFrame(r, d, d.SyncDirectory(), v, l);
  }

  /** A call that took effect but reported an error. */
  lemma LateErrorPreserves(r: Run, w: World, l: Ledger)
    requires r.Admitted() && Related(r, w, l) && Advanced(r, w).Some?
    ensures VersionsSafe(r, Advanced(r, w).value.disk, l)
  {
    if w.process.Opening? || (w.process.Publishing? && w.process.step.HeadRenamed?) {
      assert Advanced(r, w).value.disk == w.disk.SyncDirectory();
      hide *;
      SyncDirectoryKeepsVersions(r, w.disk, l);
    } else {
      assert Observed(r, w, Advance) == Silent;
      hide Advanced, VersionsSafe, ProcessSafe, Observed;
      AdvancePreserves(r, w, l);
    }
  }

  lemma HalfWrittenLogPreserves(r: Run, w: World, l: Ledger, after: Disk)
    requires Related(r, w, l) && w.process.Appending?
    requires after == w.disk.(log := after.log)
    requires w.disk.log.data <= after.log.data && w.disk.log.synced <= after.log.synced <= |after.log.data|
    ensures VersionsSafe(r, after, l)
  {
    LogGrowthSettled(r, w.disk, after, w.process.handle.head, l);
  }

  /** After an error only the disk matters: the handle is poisoned or gone. */
  lemma FaultedIsSafe(r: Run, p: Process, after: Disk, l: Ledger)
    requires VersionsSafe(r, after, l) && (!l.live ==> l == UNBORN) && !p.Idle? && !p.Open?
    ensures Related(r, World(after, AfterFault(p)), l)
  {
    hide VersionSafe;
  }

  lemma HalfCreatedPreserves(r: Run, w: World, l: Ledger, after: Disk)
    requires Related(r, w, l) && w.process.Creating? && after == w.disk.(manifest := after.manifest)
    requires after.manifest.synced <= |after.manifest.data|
    ensures VersionsSafe(r, after, l)
  {
    forall v | v in after.versions ensures VersionSafe(r, after, v, l) {
      assert v in w.disk.versions;
    }
  }

  lemma HalfStagedPreserves(r: Run, w: World, l: Ledger, after: Disk)
    requires Related(r, w, l) && w.process.Publishing? && FaultLeaves(r, w, after)
    requires after != w.disk && !(Advanced(r, w).Some? && after == Advanced(r, w).value.disk)
    ensures VersionsSafe(r, after, l)
  {
    hide VersionSafe, Holds, HeadFor, Flatten;
    StagedWritePreserves(r, w.disk, after, l);
  }

  lemma FaultPreserves(r: Run, w: World, l: Ledger, after: Disk)
    requires r.Admitted() && Related(r, w, l) && FaultLeaves(r, w, after)
    requires !w.process.Idle? && !w.process.Open?
    ensures Related(r, World(after, AfterFault(w.process)), l)
  {
    hide VersionSafe, ProcessSafe, AfterFault;
    if after == w.disk {
    } else if Advanced(r, w).Some? && after == Advanced(r, w).value.disk {
      LateErrorPreserves(r, w, l);
    } else if w.process.Creating? {
      HalfCreatedPreserves(r, w, l, after);
    } else if w.process.Appending? {
      HalfWrittenLogPreserves(r, w, l, after);
    } else {
      HalfStagedPreserves(r, w, l, after);
    }
    FaultedIsSafe(r, w.process, after, l);
  }

  lemma StopPreserves(r: Run, w: World, l: Ledger)
    requires Related(r, w, l)
    ensures Related(r, World(w.disk, Idle), l)
  {
  }

  // ----- every step, every run

  /** One step of the storage protocol is one step of the ledger. */
  lemma StepRefines(r: Run, w: World, l: Ledger, a: Action)
    requires r.Admitted() && Related(r, w, l) && Next(r, w, a).Some?
    ensures LedgerStep(l, Observed(r, w, a)).Some?
    ensures Related(r, Next(r, w, a).value, LedgerStep(l, Observed(r, w, a)).value)
  {
    hide VersionsSafe, ProcessSafe, Advanced, OpenVerdict, Prepare, PowerLossLeaves, FaultLeaves, AfterFault;
    match a {
      case Kill => StopPreserves(r, w, l);
      case Close => StopPreserves(r, w, l);
      case PowerLoss(after) => PowerLossPreserves(r, w, l, after);
      case OpenRead => OpenReadPreserves(r, w, l);
      case Begin(kind, epoch, body, ts) =>
        if Prepare(r.s, w.process.handle, kind, epoch, body, ts).Some? {
          BeginPreserves(r, w, l, kind, epoch, body, ts);
        }
      case Advance => AdvancePreserves(r, w, l);
      case Fault(after) => FaultPreserves(r, w, l, after);
    }
  }

  /** A run: the world after a sequence of actions, if each was possible. */
  ghost function Execute(r: Run, w: World, actions: seq<Action>): Option<World>
    decreases |actions|
  {
    if actions == [] then Some(w) else
    match Next(r, w, actions[0])
    case None => None
    case Some(w') => Execute(r, w', actions[1..])
  }

  ghost function Events(r: Run, w: World, actions: seq<Action>): seq<Event>
    decreases |actions|
  {
    if actions == [] || Next(r, w, actions[0]).None? then [] else
    [Observed(r, w, actions[0])] + Events(r, Next(r, w, actions[0]).value, actions[1..])
  }

  /** Replaying a trace of events on the ledger; None if the ledger forbids it. */
  function Replayed(l: Ledger, events: seq<Event>): Option<Ledger>
    decreases |events|
  {
    if events == [] then Some(l) else
    match LedgerStep(l, events[0])
    case None => None
    case Some(l') => Replayed(l', events[1..])
  }

  lemma {:induction false} RunRefines(r: Run, w: World, l: Ledger, actions: seq<Action>)
    requires r.Admitted() && Related(r, w, l) && Execute(r, w, actions).Some?
    ensures Replayed(l, Events(r, w, actions)).Some?
    ensures Related(r, Execute(r, w, actions).value, Replayed(l, Events(r, w, actions)).value)
    decreases |actions|
  {
    if actions != [] {
      StepRefines(r, w, l, actions[0]);
      RunRefines(r, Next(r, w, actions[0]).value, LedgerStep(l, Observed(r, w, actions[0])).value, actions[1..]);
      var events := Events(r, w, actions);
      assert events[1..] == Events(r, Next(r, w, actions[0]).value, actions[1..]);
    }
  }

  /**
   Main theorem. Whatever kills, power cuts and I/O errors happen between any two system
   calls, everything callers observe of a Run is a behaviour of the ledger: acknowledged
   entries are exposed by every later open, in order, followed by at most the one append
   in doubt, whose fate the first open settles for ever.
   */
  lemma JournalRefinesLedger(r: Run, actions: seq<Action>)
    requires r.Admitted() && Execute(r, Initial(), actions).Some?
    ensures Replayed(UNBORN, Events(r, Initial(), actions)).Some?
  {
    InitiallyRelated(r);
    RunRefines(r, Initial(), UNBORN, actions);
  }
}
