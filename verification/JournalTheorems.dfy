/**
 What callers of the journal may rely on, as consequences of the refinement: durability
 of every acknowledged head, recovery that always succeeds, preserved tails, and staging
 files that never block a clean journal.
 */
module JournalTheorems {
  import opened Common
  import opened JournalFormat
  import opened JournalDisk
  import opened JournalSafety

  /** World `w` with ledger `l` is the outcome of some run from creation. */
  ghost predicate Reachable(r: Run, w: World, l: Ledger) {
    exists actions ::
      && Execute(r, Initial(), actions) == Some(w)
      && Replayed(UNBORN, Events(r, Initial(), actions)) == Some(l)
  }

  lemma ReachableRelated(r: Run, w: World, l: Ledger)
    requires r.Admitted() && Reachable(r, w, l)
    ensures Related(r, w, l)
  {
    var actions :|
      && Execute(r, Initial(), actions) == Some(w)
      && Replayed(UNBORN, Events(r, Initial(), actions)) == Some(l);
    InitiallyRelated(r);
    RunRefines(r, Initial(), UNBORN, actions);
  }

  /**
   Recovery. Once any handle has been returned, `open` succeeds on whatever a kill or a
   power cut leaves, and exposes the agreed history or the history with the append in
   doubt. With nothing in doubt (just after an acknowledgement or an open) it exposes
   exactly the history.
   */
  lemma RecoverySucceeds(r: Run, w: World, l: Ledger, after: Disk)
    requires r.Admitted() && Reachable(r, w, l) && l.live
    requires after == w.disk || PowerLossLeaves(w.disk, after)
    ensures after.versions != [] && OpenVerdict(r.s, after).Some?
    ensures
      var (h, es) := OpenVerdict(r.s, after).value;
      && h.manifest == r.manifest
      && (es == l.history || (l.doubt.Some? && es == l.history + [l.doubt.value]))
      && h.tail_bytes == |after.log.data| - |Flatten(r.s, es)|
  {
    ReachableRelated(r, w, l);
    if after != w.disk {
      PowerLossPreserves(r, w, l, after);
    }
    var v := after.Current();
    assert v in after.versions;
    if Holds(r, after, v.head.value, l.history) {
      HeldHeadOpens(r, after, l.history);
    } else {
      HeldHeadOpens(r, after, l.history + [l.doubt.value]);
    }
    OpenFindsTheLedger(r, after, l);
  }

  /**
   Durability. In every reachable state, every head that power loss could bring back is
   itself durable, names no more bytes than the durable part of the log, and those
   durable bytes are its complete hash chain.
   */
  lemma DurableHeadsMatchDurableLog(r: Run, w: World, l: Ledger, v: Names)
    requires r.Admitted() && Reachable(r, w, l) && v in w.disk.versions && v.head.Some?
    ensures v.head.value < |w.disk.heads| && w.disk.heads[v.head.value].Durable()
    ensures ReadRecordFile(r.s.head, r.s.readable, w.disk.heads[v.head.value].data).Some?
    ensures w.disk.log.synced <= |w.disk.log.data|
    ensures
      var head := ReadRecordFile(r.s.head, r.s.readable, w.disk.heads[v.head.value].data).value;
      && head.journal_bytes <= w.disk.log.synced
      && Verify(r.s, head, w.disk.log.data[..w.disk.log.synced]).Some?
  {
    hide Verify, ReadRecordFile, ProcessSafe, Chained;
    ReachableRelated(r, w, l);
    var es := if Holds(r, w.disk, v.head.value, l.history) then l.history else l.history + [l.doubt.value];
    var head := ReadRecordFile(r.s.head, r.s.readable, w.disk.heads[v.head.value].data).value;
    VerifyIffCommitted(r.s, head, w.disk.log.data[..w.disk.log.synced], es);
  }

  /** A healthy handle replays exactly the history: writer and reader agree. */
  lemma HealthyHandleReplaysHistory(r: Run, w: World, l: Ledger)
    requires r.Admitted() && Reachable(r, w, l) && w.process.Open? && !w.process.handle.write_failed
    ensures Verify(r.s, w.process.handle.head, w.disk.log.data) == Some(l.history)
    ensures w.process.handle.tail_bytes == |w.disk.log.data| - |Flatten(r.s, l.history)|
  {
    ReachableRelated(r, w, l);
    VerifyIffCommitted(r.s, w.process.handle.head, w.disk.log.data, l.history);
  }

  /**
   Stale staging. A journal that opens without a tail has no leftover `head.next`, and no
   publication in any run ever finds one in its way.
   */
  lemma StagingNeverBlocks(r: Run, w: World, l: Ledger)
    requires r.Admitted() && Reachable(r, w, l)
    ensures w.disk.versions != []
    ensures OpenVerdict(r.s, w.disk).Some? && OpenVerdict(r.s, w.disk).value.0.tail_bytes == 0 ==> w.disk.Current().next.None?
    ensures w.process.Publishing? && w.process.step.Staging? ==> Advanced(r, w).Some?
  {
    hide VersionsSafe, ProcessSafe, OpenVerdict, Advanced;
    ReachableRelated(r, w, l);
    OpenWithoutTailIsUnstaged(r, w.disk, l);
    StagingStarts(r, w, l);
  }

  lemma OpenWithoutTailIsUnstaged(r: Run, d: Disk, l: Ledger)
    requires r.Admitted() && VersionsSafe(r, d, l)
    ensures d.versions != []
    ensures OpenVerdict(r.s, d).Some? && OpenVerdict(r.s, d).value.0.tail_bytes == 0 ==> d.Current().next.None?
  {
    hide OpenVerdict;
    assert d.Current() in d.versions;
    if OpenVerdict(r.s, d).Some? && d.Current().next.Some? {
      OpenFindsTheLedger(r, d, l);
      HeldHeadOpens(r, d, l.history);
    }
  }

  lemma StagingStarts(r: Run, w: World, l: Ledger)
    requires r.Admitted() && Related(r, w, l)
    ensures w.disk.versions != []
    ensures w.process.Publishing? && w.process.step.Staging? ==> Advanced(r, w).Some?
  {
  }

  // ----- what open accepts

  /**
   On any disk whatever, open succeeds with this handle and these entries if and only if
   manifest and head are the canonical records of an object and a head that belong together,
   the log is long enough, and its committed prefix is the chain of those entries.
   */
  lemma OpenAcceptsIff(s: Serde, d: Disk, h: Handle, es: seq<Entry>)
    requires Lawful(s) && d.versions != []
    ensures OpenVerdict(s, d) == Some((h, es)) <==>
      var names := d.Current();
      && names.manifest && names.log && names.head.Some? && names.head.value < |d.heads|
      && h.manifest.Object? && Record(s.manifest, s.readable, h.manifest) == Some(d.manifest.data)
      && Record(s.head, s.readable, h.head) == Some(d.heads[names.head.value].data)
      && h.head.manifest_sha256 == s.sha256(s.manifest.encode(h.manifest))
      && |d.log.data| == h.head.journal_bytes + h.tail_bytes && !h.write_failed
      && Committed(s, h.head, d.log.data, es)
  {
    hide Verify, Committed, Record, ReadRecordFile;
    var names := d.Current();
    RecordRoundTrip(s.manifest, s.readable, h.manifest, d.manifest.data);
    if names.head.Some? && names.head.value < |d.heads| {
      RecordRoundTrip(s.head, s.readable, h.head, d.heads[names.head.value].data);
    }
    VerifyIffCommitted(s, h.head, d.log.data, es);
  }

  // ----- poisoned handles

  /** An action of the process itself, as opposed to its end. */
  predicate WithinProcess(a: Action) { !a.Kill? && !a.PowerLoss? && !a.Close? }

  /**
   A handle whose append failed refuses everything: until it is dropped, whatever its holder
   attempts changes neither the disk nor the handle, and nobody sees an event.
   */
  lemma {:induction false} PoisonedWritesNothing(r: Run, w: World, actions: seq<Action>)
    requires w.process.Open? && w.process.handle.write_failed && Execute(r, w, actions).Some?
    requires forall i | 0 <= i < |actions| :: WithinProcess(actions[i])
    ensures Execute(r, w, actions) == Some(w)
    ensures forall ev | ev in Events(r, w, actions) :: ev.Silent?
    decreases |actions|
  {
    if actions != [] {
      assert WithinProcess(actions[0]);
      assert Next(r, w, actions[0]) == Some(w);
      PoisonedWritesNothing(r, w, actions[1..]);
    }
  }

  // ----- uncommitted tails

  /** The log holds bytes its head does not name, and no operation is under way. */
  ghost predicate Blocked(r: Run, w: World) {
    && w.disk.versions != [] && w.disk.Current().head.Some?
    && w.disk.Current().head.value < |w.disk.heads|
    && (var head := ReadRecordFile(r.s.head, r.s.readable, w.disk.heads[w.disk.Current().head.value].data);
        head.Some? && |w.disk.log.data| > head.value.journal_bytes)
    && match w.process
       case Idle => true
       case Opening(h, _) => h.tail_bytes > 0
       case Open(h) => h.write_failed || h.tail_bytes > 0
       case _ => false
  }

  lemma BlockedStep(r: Run, w: World, a: Action)
    requires Blocked(r, w) && Next(r, w, a).Some? && !a.PowerLoss?
    ensures
      var w' := Next(r, w, a).value;
      && Blocked(r, w') && w'.disk.log == w.disk.log && w'.disk.heads == w.disk.heads
      && w'.disk.Current() == w.disk.Current()
    ensures !Observed(r, w, a).Began? && !Observed(r, w, a).Acked?
  {
  }

  /**
   Tails. Through any number of reopens, failed opens, attempted appends and kills, an
   uncommitted tail is neither changed nor promoted, and it refuses every append.
   */
  lemma {:induction false} TailIsNeverTouched(r: Run, w: World, actions: seq<Action>)
    requires Blocked(r, w) && Execute(r, w, actions).Some?
    requires forall i | 0 <= i < |actions| :: !actions[i].PowerLoss?
    ensures
      var w' := Execute(r, w, actions).value;
      && Blocked(r, w') && w'.disk.log == w.disk.log && w'.disk.heads == w.disk.heads
      && w'.disk.Current() == w.disk.Current()
    ensures forall ev | ev in Events(r, w, actions) :: ev.Silent? || ev.Exposed?
    decreases |actions|
  {
    if actions != [] {
      BlockedStep(r, w, actions[0]);
      TailIsNeverTouched(r, Next(r, w, actions[0]).value, actions[1..]);
    }
  }

  /** At rest, a journal is blocked exactly when reopening it would report uncommitted bytes. */
  lemma BlockedIffTail(r: Run, w: World, l: Ledger)
    requires r.Admitted() && Reachable(r, w, l) && w.process.Idle? && l.live
    ensures w.disk.versions != [] && OpenVerdict(r.s, w.disk).Some?
    ensures Blocked(r, w) <==> OpenVerdict(r.s, w.disk).value.0.tail_bytes > 0
  {
    RecoverySucceeds(r, w, l, w.disk);
    ReachableRelated(r, w, l);
    OpenFindsTheLedger(r, w.disk, l);
  }

  // ----- uncommitted tails and power loss

  /** Every head the directory may come back with is durable, and the durable log goes past what it names. */
  ghost predicate TailDurable(r: Run, d: Disk) {
    && d.versions != [] && d.log.synced <= |d.log.data|
    && forall v | v in d.versions :: PastHead(r, d, v)
  }

  ghost predicate PastHead(r: Run, d: Disk, v: Names) {
    && v.head.Some? && v.head.value < |d.heads| && d.heads[v.head.value].Durable()
    && var head := ReadRecordFile(r.s.head, r.s.readable, d.heads[v.head.value].data);
       head.Some? && head.value.journal_bytes < d.log.synced
  }

  /** A durable tail, and nobody in the middle of an operation. */
  ghost predicate Lodged(r: Run, w: World) { TailDurable(r, w.disk) && Blocked(r, w) }

  /** What is left of a disk with a durable tail: the same heads, and at least the durable log. */
  ghost predicate Keeps(d: Disk, d': Disk) {
    && (forall v | v in d'.versions :: v in d.versions)
    && d.log.synced <= |d.log.data| && d.log.data[..d.log.synced] <= d'.log.data
    && d.log.synced <= d'.log.synced <= |d'.log.data|
    && |d'.heads| == |d.heads|
    && forall i | 0 <= i < |d.heads| && d.heads[i].Durable() :: d'.heads[i] == d.heads[i]
  }

  lemma KeepsTransitive(a: Disk, b: Disk, c: Disk)
    requires Keeps(a, b) && Keeps(b, c)
    ensures Keeps(a, c)
  {
    assert a.log.data[..a.log.synced] <= b.log.data[..b.log.synced];
  }

  lemma KeepsTail(r: Run, d: Disk, d': Disk)
    requires TailDurable(r, d) && Keeps(d, d') && d'.versions != []
    ensures TailDurable(r, d')
  {
    forall v | v in d'.versions ensures PastHead(r, d', v) {
      assert PastHead(r, d, v);
    }
  }

  lemma LodgedPowerLoss(r: Run, w: World, after: Disk)
    requires Lodged(r, w) && PowerLossLeaves(w.disk, after)
    ensures Keeps(w.disk, after) && Lodged(r, World(after, Idle))
  {
    forall i | 0 <= i < |w.disk.heads| && w.disk.heads[i].Durable() ensures after.heads[i] == w.disk.heads[i] {
      assert FileSurvives(w.disk.heads[i], after.heads[i]);
    }
    KeepsTail(r, w.disk, after);
    assert PastHead(r, after, after.Current());
  }

  lemma LodgedStep(r: Run, w: World, a: Action)
    requires Lodged(r, w) && Next(r, w, a).Some?
    ensures Lodged(r, Next(r, w, a).value) && Keeps(w.disk, Next(r, w, a).value.disk)
    ensures Observed(r, w, a).Silent? || Observed(r, w, a).Exposed?
  {
    if a.PowerLoss? {
      LodgedPowerLoss(r, w, a.after);
    } else {
      BlockedStep(r, w, a);
      BlockedKeeps(r, w, a);
      hide Blocked, Next, Observed, TailDurable;
      KeepsTail(r, w.disk, Next(r, w, a).value.disk);
    }
  }

  lemma BlockedKeeps(r: Run, w: World, a: Action)
    requires Blocked(r, w) && w.disk.log.synced <= |w.disk.log.data| && Next(r, w, a).Some? && !a.PowerLoss?
    ensures Keeps(w.disk, Next(r, w, a).value.disk) && Next(r, w, a).value.disk.versions != []
  {
    assert w.disk.Current() in w.disk.versions;
  }

  /**
   Tails across power loss. Once the durable log goes past every head the directory may come
   back with, no run whatever, with any number of power losses, promotes the tail, appends
   after it, changes a head, or loses a byte of the durable part.
   */
  lemma {:induction false} DurableTailSurvives(r: Run, w: World, actions: seq<Action>)
    requires Lodged(r, w) && Execute(r, w, actions).Some?
    ensures Lodged(r, Execute(r, w, actions).value) && Keeps(w.disk, Execute(r, w, actions).value.disk)
    ensures forall ev | ev in Events(r, w, actions) :: ev.Silent? || ev.Exposed?
    decreases |actions|
  {
    hide Lodged, Keeps, Next, Observed;
    if actions == [] {
      LodgedKeepsItself(r, w);
    } else {
      var w' := Next(r, w, actions[0]).value;
      LodgedStep(r, w, actions[0]);
      DurableTailSurvives(r, w', actions[1..]);
      KeepsTransitive(w.disk, w'.disk, Execute(r, w', actions[1..]).value.disk);
    }
  }

  lemma LodgedKeepsItself(r: Run, w: World)
    requires Lodged(r, w)
    ensures Keeps(w.disk, w.disk)
  {
  }

  /** One power loss is enough: the tail it leaves, if any, is there for good. */
  lemma PowerLossLodgesTails(r: Run, w: World, l: Ledger, after: Disk)
    requires r.Admitted() && Reachable(r, w, l) && l.live && PowerLossLeaves(w.disk, after)
    ensures Lodged(r, World(after, Idle)) <==> Blocked(r, World(after, Idle))
  {
    ReachableRelated(r, w, l);
    assert after.Current() in w.disk.versions;
    assert VersionSafe(r, w.disk, after.Current(), l);
    if Blocked(r, World(after, Idle)) {
      var id := after.Current().head.value;
      assert FileSurvives(w.disk.heads[id], after.heads[id]);
      assert PastHead(r, after, after.versions[0]);
    }
  }
}
