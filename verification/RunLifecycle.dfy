/**
 The Run lifecycle reducer (Run Protocol RP-1 to RP-4), folded over arbitrary traces of
 events from arbitrary emitters.
 */
module RunLifecycle {
  import opened Common

  datatype RunState = Preparing | Running | Waiting | Frozen | Delegated | Proving | Review | Accepted | Discarded
  datatype Emitter = Supervisor | Custodian | Broker | Reducer

  /** The event catalogue. Kinds that only differ in name share a constructor. */
  datatype Kind =
    | RunCreated | SandboxReady | RunWaiting | RunResumed | RunFrozen | RunDelegated
    | ProofStarted | ProofFinished | RunAccepted | RunDiscarded
    | Closing            // receipt.sealed, journal.compacted
    | CustodianNote | BrokerNote | SupervisorNote | UnknownMarker
    | Unknown

  function KindOf(name: string): Kind {
    if name == "run.created" then RunCreated
    else if name == "sandbox.ready" then SandboxReady
    else if name == "run.waiting" then RunWaiting
    else if name == "run.resumed" then RunResumed
    else if name == "run.frozen" then RunFrozen
    else if name == "run.delegated" then RunDelegated
    else if name == "proof.started" then ProofStarted
    else if name == "proof.finished" then ProofFinished
    else if name == "run.accepted" then RunAccepted
    else if name == "run.discarded" then RunDiscarded
    else if name == "receipt.sealed" || name == "journal.compacted" then Closing
    else if name == "supervisor.claimed" || name == "supervisor.released" || name == "sandbox.materialized"
         || name == "sandbox.destroyed" || name == "capability.granted" || name == "capability.revoked"
         || name == "checkpoint.sealed" || name == "witness.attached" || name == "witness.observation"
         || name == "witness.loss" then CustodianNote
    else if name == "effect.requested" || name == "effect.executing" || name == "effect.succeeded"
         || name == "effect.failed" || name == "effect.uncertain" || name == "effect.reconciled" then BrokerNote
    else if name == "effect.authorized" || name == "child.finished" || name == "human.asked"
         || name == "human.answered" then SupervisorNote
    else if name == "journal.unknown_event" then UnknownMarker
    else Unknown
  }

  type Phase = Option<RunState>

  predicate Terminal(p: Phase) { p == Some(Accepted) || p == Some(Discarded) }

  /** Who must emit a kind, and the state it leads to; None if the state forbids it. */
  function Transition(p: Phase, k: Kind): Option<(Emitter, Phase)> {
    match k
    case RunCreated => if p.None? then Some((Supervisor, Some(Preparing))) else None
    case SandboxReady => if p == Some(Preparing) then Some((Custodian, Some(Running))) else None
    case RunWaiting => if p == Some(Running) then Some((Supervisor, Some(Waiting))) else None
    case RunResumed =>
      if p == Some(Waiting) || p == Some(Frozen) || p == Some(Delegated) then Some((Supervisor, Some(Running))) else None
    case RunFrozen =>
      if p == Some(Preparing) || p == Some(Running) || p == Some(Waiting) || p == Some(Delegated) || p == Some(Proving)
      then Some((Custodian, Some(Frozen))) else None
    case RunDelegated =>
      if p == Some(Running) || p == Some(Waiting) then Some((Supervisor, Some(Delegated))) else None
    case ProofStarted =>
      if p == Some(Running) || p == Some(Waiting) || p == Some(Delegated) then Some((Supervisor, Some(Proving))) else None
    case ProofFinished => if p == Some(Proving) then Some((Supervisor, Some(Review))) else None
    case RunAccepted => if p == Some(Review) then Some((Supervisor, Some(Accepted))) else None
    case RunDiscarded => if p.Some? then Some((Supervisor, Some(Discarded))) else None
    case Closing => Some((Custodian, p))
    case CustodianNote => Some((Custodian, p))
    case BrokerNote => Some((Broker, p))
    case SupervisorNote => Some((Supervisor, p))
    case UnknownMarker => Some((Reducer, p))
    case Unknown => None
  }

  /** A journal event as the reducer sees it: what kind, and from whom. */
  datatype Event = Event(kind: Kind, emitter: Emitter)

  /** The state after one event; None is a protocol error. */
  function Step(p: Phase, ev: Event): Option<Phase> {
    if Terminal(p) && !ev.kind.Closing? then None
    else if ev.kind.Unknown? then Some(p)
    else
      match Transition(p, ev.kind)
      case None => None
      case Some((source, next)) =>
        if ev.emitter != source || (p.None? && !ev.kind.RunCreated?) then None else Some(next)
  }

  datatype Reduction = Reduction(state: Phase, unknownEvent: Option<string>)

  /** The reducer on named events; an unknown name is handed back for the caller to record. */
  function Reduce(p: Phase, name: string, emitter: Emitter): Option<Reduction> {
    var k := KindOf(name);
    match Step(p, Event(k, emitter))
    case None => None
    case Some(q) => Some(Reduction(q, if k.Unknown? then Some(name) else None))
  }

  /** Folding a trace; None as soon as an event is refused. */
  function Replay(p: Phase, trace: seq<Event>): Option<Phase> {
    if trace == [] then Some(p) else
    match Replay(p, trace[..|trace| - 1])
    case None => None
    case Some(q) =>
      Step(q, trace[|trace| - 1])
  }

  lemma {:induction false} ReplayPrefix(p: Phase, trace: seq<Event>, n: nat)
    requires Replay(p, trace).Some? && n <= |trace|
    ensures Replay(p, trace[..n]).Some?
    decreases |trace|
  {
    if n < |trace| {
      ReplayPrefix(p, trace[..|trace| - 1], n);
      assert trace[..|trace| - 1][..n] == trace[..n];
    } else {
      assert trace[..n] == trace;
    }
  }

  /** The state before event `i` of an accepted trace, and the fact that the event was accepted there. */
  lemma StepAt(p: Phase, trace: seq<Event>, i: nat)
    requires Replay(p, trace).Some? && i < |trace|
    ensures Replay(p, trace[..i]).Some? && Step(Replay(p, trace[..i]).value, trace[i]).Some?
    ensures Replay(p, trace[..i + 1]) == Step(Replay(p, trace[..i]).value, trace[i])
  {
    ReplayPrefix(p, trace, i + 1);
    assert trace[..i + 1][..i] == trace[..i];
  }

  // ----- creation

  predicate Known(ev: Event) { !ev.kind.Unknown? }
  predicate IsCreation(ev: Event) { ev.kind.RunCreated? }

  /** A Run has a state exactly when it has been created. */
  lemma {:induction false} CreatedIffState(trace: seq<Event>)
    requires Replay(None, trace).Some?
    ensures Replay(None, trace).value.Some? <==> exists i | 0 <= i < |trace| :: IsCreation(trace[i])
    decreases |trace|
  {
    if trace != [] {
      var earlier, last := trace[..|trace| - 1], trace[|trace| - 1];
      CreatedIffState(earlier);
      if exists i | 0 <= i < |earlier| :: IsCreation(earlier[i]) {
        var i :| 0 <= i < |earlier| && IsCreation(earlier[i]);
        assert IsCreation(trace[i]);
      } else {
        assert forall i | 0 <= i < |earlier| :: !IsCreation(trace[i]) by {
          assert forall i | 0 <= i < |earlier| :: trace[i] == earlier[i];
        }
        assert IsCreation(last) <==> Replay(None, trace).value.Some?;
        assert trace[|trace| - 1] == last;
      }
    }
  }

  /** In every accepted trace, creation happens at most once and before every other known event. */
  lemma CreationComesFirstAndOnce(trace: seq<Event>, i: nat, j: nat)
    requires Replay(None, trace).Some? && j < i < |trace| && Known(trace[i])
    ensures IsCreation(trace[i]) ==> !Known(trace[j])
  {
    StepAt(None, trace, i);
    CreatedIffState(trace[..i]);
    if Known(trace[j]) {
      StepAt(None, trace, j);
      CreatedIffState(trace[..j + 1]);
      var k :| 0 <= k < j + 1 && IsCreation(trace[..j + 1][k]);
      assert IsCreation(trace[..i][k]);
    }
  }

  lemma KnownNeedsCreation(trace: seq<Event>, i: nat)
    requires Replay(None, trace).Some? && i < |trace| && Known(trace[i])
    ensures exists j | 0 <= j <= i :: IsCreation(trace[j])
  {
    StepAt(None, trace, i);
    CreatedIffState(trace[..i + 1]);
    var j :| 0 <= j < i + 1 && IsCreation(trace[..i + 1][j]);
    assert IsCreation(trace[j]);
  }

  // ----- terminal states

  /** Once accepted or discarded, a Run stays so; only the custodian's closing events follow. */
  lemma {:induction false} TerminalIsAbsorbing(p: Phase, trace: seq<Event>)
    requires Terminal(p) && Replay(p, trace).Some?
    ensures Replay(p, trace).value == p
    ensures forall i | 0 <= i < |trace| :: trace[i].kind.Closing? && trace[i].emitter == Custodian
    decreases |trace|
  {
    if trace != [] {
      var earlier := trace[..|trace| - 1];
      TerminalIsAbsorbing(p, earlier);
      assert forall i | 0 <= i < |earlier| :: trace[i] == earlier[i];
    }
  }

  // ----- named events

  datatype Named = Named(name: string, emitter: Emitter)

  function Classified(trace: seq<Named>): seq<Event> {
    seq(|trace|, i requires 0 <= i < |trace| => Event(KindOf(trace[i].name), trace[i].emitter))
  }

  function ReplayNamed(p: Phase, trace: seq<Named>): Option<Phase> {
    if trace == [] then Some(p) else
    match ReplayNamed(p, trace[..|trace| - 1])
    case None => None
    case Some(q) =>
      match Reduce(q, trace[|trace| - 1].name, trace[|trace| - 1].emitter)
      case None => None
      case Some(r) => Some(r.state)
  }

  /** Folding the reducer over a journal is replaying its classified events. */
  lemma {:induction false} NamedReplayIsReplay(p: Phase, trace: seq<Named>)
    ensures ReplayNamed(p, trace) == Replay(p, Classified(trace))
    decreases |trace|
  {
    hide KindOf, Step, Transition;
    if trace != [] {
      var n := |trace| - 1;
      NamedReplayIsReplay(p, trace[..n]);
      assert Classified(trace)[..n] == Classified(trace[..n]);
    }
  }

  // ----- the way to acceptance

  /** The events that changed the state, in order. */
  function Changes(p: Phase, trace: seq<Event>): seq<Event>
    requires Replay(p, trace).Some?
  {
    if trace == [] then []
    else
      var earlier := trace[..|trace| - 1];
      Changes(p, earlier) +
      (if Replay(p, earlier) != Replay(p, trace) then [trace[|trace| - 1]] else [])
  }

  predicate Supervised(ev: Event, k: Kind) { ev.kind == k && ev.emitter == Supervisor }

  /** The last state changes that each late state of the lifecycle presupposes. */
  predicate Earned(state: Phase, changes: seq<Event>) {
    var n := |changes|;
    && (state == Some(Proving) ==> n >= 1 && Supervised(changes[n - 1], ProofStarted))
    && (state == Some(Review) ==> n >= 2 && Supervised(changes[n - 2], ProofStarted) && Supervised(changes[n - 1], ProofFinished))
    && (state == Some(Accepted) ==>
          && n >= 3 && Supervised(changes[n - 3], ProofStarted)
          && Supervised(changes[n - 2], ProofFinished) && Supervised(changes[n - 1], RunAccepted))
    && (state == Some(Frozen) ==> n >= 1 && changes[n - 1].kind.RunFrozen? && changes[n - 1].emitter == Custodian)
  }

  /**
   An accepted Run was proved: its last three state changes are proof.started,
   proof.finished and run.accepted, all from the supervisor. A frozen Run was frozen by the
   custodian. This holds of every accepted trace, whatever else it contains.
   */
  lemma {:induction false} LateStatesAreEarned(trace: seq<Event>)
    requires Replay(None, trace).Some?
    ensures Earned(Replay(None, trace).value, Changes(None, trace))
    decreases |trace|
  {
    if trace != [] {
      var earlier, last := trace[..|trace| - 1], trace[|trace| - 1];
      LateStatesAreEarned(earlier);
      var before, changes := Replay(None, earlier).value, Changes(None, earlier);
      var after := Replay(None, trace).value;
      EarnedStep(before, changes, last);
      if before == after {
        assert Changes(None, trace) == changes;
      }
    }
  }

  lemma EarnedStep(p: Phase, changes: seq<Event>, ev: Event)
    requires Earned(p, changes) && Step(p, ev).Some?
    ensures
      var q := Step(p, ev).value;
      Earned(q, if q == p then changes else changes + [ev])
  {
  }

  // ----- unknown events

  function DropUnknown(trace: seq<Event>): seq<Event> {
    if trace == [] then []
    else DropUnknown(trace[..|trace| - 1]) + (if Known(trace[|trace| - 1]) then [trace[|trace| - 1]] else [])
  }

  /** No unknown event arrives when the Run is already terminal. */
  predicate UnknownOnlyWhileOpen(p: Phase, trace: seq<Event>) {
    trace == [] ||
    (UnknownOnlyWhileOpen(p, trace[..|trace| - 1]) &&
     (Known(trace[|trace| - 1]) ||
      (Replay(p, DropUnknown(trace[..|trace| - 1])).Some? && !Terminal(Replay(p, DropUnknown(trace[..|trace| - 1])).value))))
  }

  /**
   Unknown events are transparent, exactly as long as they arrive before a terminal state: a
   trace is accepted if and only if its known part is accepted and no unknown event comes
   after the end, and then both reach the same state.
   */
  lemma {:induction false} UnknownEventsAreTransparent(p: Phase, trace: seq<Event>)
    ensures Replay(p, trace).Some? <==> Replay(p, DropUnknown(trace)).Some? && UnknownOnlyWhileOpen(p, trace)
    ensures Replay(p, trace).Some? ==> Replay(p, trace) == Replay(p, DropUnknown(trace))
    decreases |trace|
  {
    if trace != [] {
      var earlier, last := trace[..|trace| - 1], trace[|trace| - 1];
      UnknownEventsAreTransparent(p, earlier);
      var kept := DropUnknown(earlier);
      if Known(last) {
        var all := DropUnknown(trace);
        assert all[..|all| - 1] == kept && all[|all| - 1] == last;
      } else {
        assert DropUnknown(trace) == kept;
      }
    }
  }

  const ENDED: seq<Named> := [Named("run.created", Supervisor), Named("run.discarded", Supervisor)]
  const LATE := Named("run.x", Supervisor)

  lemma EndedKinds()
    ensures KindOf("run.created") == RunCreated && KindOf("run.discarded") == RunDiscarded && KindOf("run.x") == Unknown
  {
  }

  /** An unknown event after the end is refused, although the trace without it is accepted. */
  lemma LateUnknownIsRefused()
    ensures ReplayNamed(None, ENDED + [LATE]) == None
    ensures ReplayNamed(None, ENDED) == Some(Some(Discarded))
    ensures DropUnknown(Classified(ENDED + [LATE])) == Classified(ENDED)
  {
    hide KindOf, Reduce;
    EndedKinds();
    NamedReplayIsReplay(None, ENDED);
    NamedReplayIsReplay(None, ENDED + [LATE]);
    var created, discarded, late := Event(RunCreated, Supervisor), Event(RunDiscarded, Supervisor), Event(Unknown, Supervisor);
    var one, two, three := [created], [created, discarded], [created, discarded, late];
    assert Classified(ENDED) == two && Classified(ENDED + [LATE]) == three;
    assert one[..0] == [] && two[..1] == one && three[..2] == two;
    assert Replay(None, one) == Some(Some(Preparing));
    assert Replay(None, two) == Some(Some(Discarded));
    assert DropUnknown(one) == one;
    assert DropUnknown(two) == two;
  }

  // ----- the reducer, state by state

  /** An event that changes the state: its kind, who must send it, where it leads. */
  datatype Edge = Edge(kind: Kind, emitter: Emitter, to: RunState)

  const DISCARD := Edge(RunDiscarded, Supervisor, Discarded)
  const FREEZE := Edge(RunFrozen, Custodian, Frozen)
  const RESUME := Edge(RunResumed, Supervisor, Running)
  const DELEGATE := Edge(RunDelegated, Supervisor, Delegated)
  const PROVE := Edge(ProofStarted, Supervisor, Proving)

  /** What may happen next to a Run, by the state it is in. */
  function Outgoing(p: Phase): seq<Edge> {
    match p
    case None => [Edge(RunCreated, Supervisor, Preparing)]
    case Some(Preparing) => [Edge(SandboxReady, Custodian, Running), FREEZE, DISCARD]
    case Some(Running) => [Edge(RunWaiting, Supervisor, Waiting), FREEZE, DELEGATE, PROVE, DISCARD]
    case Some(Waiting) => [RESUME, FREEZE, DELEGATE, PROVE, DISCARD]
    case Some(Frozen) => [RESUME, DISCARD]
    case Some(Delegated) => [RESUME, FREEZE, PROVE, DISCARD]
    case Some(Proving) => [Edge(ProofFinished, Supervisor, Review), FREEZE, DISCARD]
    case Some(Review) => [Edge(RunAccepted, Supervisor, Accepted), DISCARD]
    case Some(Accepted) => []
    case Some(Discarded) => []
  }

  /** The name a lifecycle kind has in the journal. */
  function NameOf(k: Kind): Option<string> {
    match k
    case RunCreated => Some("run.created")
    case SandboxReady => Some("sandbox.ready")
    case RunWaiting => Some("run.waiting")
    case RunResumed => Some("run.resumed")
    case RunFrozen => Some("run.frozen")
    case RunDelegated => Some("run.delegated")
    case ProofStarted => Some("proof.started")
    case ProofFinished => Some("proof.finished")
    case RunAccepted => Some("run.accepted")
    case RunDiscarded => Some("run.discarded")
    case _ => None
  }

  const CLOSING: seq<string> := ["receipt.sealed", "journal.compacted"]
  const CUSTODIAN_NOTES: seq<string> := [
    "supervisor.claimed", "supervisor.released", "sandbox.materialized", "sandbox.destroyed", "capability.granted",
    "capability.revoked", "checkpoint.sealed", "witness.attached", "witness.observation", "witness.loss"]
  const BROKER_NOTES: seq<string> := [
    "effect.requested", "effect.executing", "effect.succeeded", "effect.failed", "effect.uncertain", "effect.reconciled"]
  const SUPERVISOR_NOTES: seq<string> := ["effect.authorized", "child.finished", "human.asked", "human.answered"]
  const MARKER := "journal.unknown_event"

  /** Events that are recorded without changing the state, with who must send them. */
  predicate Noted(name: string, emitter: Emitter) {
    || ((name in CLOSING || name in CUSTODIAN_NOTES) && emitter == Custodian)
    || (name in BROKER_NOTES && emitter == Broker)
    || (name in SUPERVISOR_NOTES && emitter == Supervisor)
    || (name == MARKER && emitter == Reducer)
  }

  ghost predicate InCatalogue(name: string) {
    || (exists k :: NameOf(k) == Some(name)) || name in CLOSING || name in CUSTODIAN_NOTES || name in BROKER_NOTES
    || name in SUPERVISOR_NOTES || name == MARKER
  }

  // ----- the catalogue of names

  lemma LifecycleKinds1()
    ensures KindOf("run.created") == RunCreated && KindOf("sandbox.ready") == SandboxReady
    ensures KindOf("run.waiting") == RunWaiting && KindOf("run.resumed") == RunResumed
  {
  }

  lemma LifecycleKinds2()
    ensures KindOf("run.frozen") == RunFrozen && KindOf("run.delegated") == RunDelegated
    ensures KindOf("proof.started") == ProofStarted
  {
  }

  lemma LifecycleKinds3()
    ensures KindOf("proof.finished") == ProofFinished && KindOf("run.accepted") == RunAccepted
    ensures KindOf("run.discarded") == RunDiscarded
  {
  }

  lemma ClosingKinds()
    ensures KindOf("receipt.sealed") == Closing && KindOf("journal.compacted") == Closing
    ensures KindOf("journal.unknown_event") == UnknownMarker
  {
  }

  lemma CustodianKinds1()
    ensures KindOf("supervisor.claimed") == CustodianNote && KindOf("supervisor.released") == CustodianNote
  {
  }

  lemma CustodianKinds2()
    ensures KindOf("sandbox.materialized") == CustodianNote && KindOf("sandbox.destroyed") == CustodianNote
  {
  }

  lemma CustodianKinds3()
    ensures KindOf("capability.granted") == CustodianNote && KindOf("capability.revoked") == CustodianNote
  {
  }

  lemma CustodianKinds4()
    ensures KindOf("checkpoint.sealed") == CustodianNote && KindOf("witness.attached") == CustodianNote
  {
  }

  lemma CustodianKinds5()
    ensures KindOf("witness.observation") == CustodianNote && KindOf("witness.loss") == CustodianNote
  {
  }

  lemma BrokerKinds1()
    ensures KindOf("effect.requested") == BrokerNote && KindOf("effect.executing") == BrokerNote
  {
  }

  lemma BrokerKinds2()
    ensures KindOf("effect.succeeded") == BrokerNote && KindOf("effect.failed") == BrokerNote
  {
  }

  lemma BrokerKinds3()
    ensures KindOf("effect.uncertain") == BrokerNote && KindOf("effect.reconciled") == BrokerNote
  {
  }

  lemma SupervisorKinds1()
    ensures KindOf("effect.authorized") == SupervisorNote && KindOf("child.finished") == SupervisorNote
  {
  }

  lemma SupervisorKinds2()
    ensures KindOf("human.asked") == SupervisorNote && KindOf("human.answered") == SupervisorNote
  {
  }

  /** The kind a listed name has. */
  lemma ListSaysKind(name: string)
    ensures name in CLOSING ==> KindOf(name) == Closing
    ensures name in CUSTODIAN_NOTES ==> KindOf(name) == CustodianNote
    ensures name in BROKER_NOTES ==> KindOf(name) == BrokerNote
    ensures name in SUPERVISOR_NOTES ==> KindOf(name) == SupervisorNote
    ensures name == MARKER ==> KindOf(name) == UnknownMarker
  {
    hide KindOf;
    ClosingKinds();
    CustodianKinds1(); CustodianKinds2(); CustodianKinds3(); CustodianKinds4(); CustodianKinds5();
    BrokerKinds1(); BrokerKinds2(); BrokerKinds3();
    SupervisorKinds1(); SupervisorKinds2();
  }

  /** And the list a name of that kind is in. */
  lemma KindSaysList(name: string)
    ensures KindOf(name) == Closing ==> name in CLOSING
    ensures KindOf(name) == CustodianNote ==> name in CUSTODIAN_NOTES
    ensures KindOf(name) == BrokerNote ==> name in BROKER_NOTES
    ensures KindOf(name) == SupervisorNote ==> name in SUPERVISOR_NOTES
    ensures KindOf(name) == UnknownMarker ==> name == MARKER
  {
  }

  lemma KindSaysName1(name: string)
    ensures KindOf(name) == RunCreated ==> name == "run.created"
    ensures KindOf(name) == SandboxReady ==> name == "sandbox.ready"
    ensures KindOf(name) == RunWaiting ==> name == "run.waiting"
    ensures KindOf(name) == RunResumed ==> name == "run.resumed"
    ensures KindOf(name) == RunFrozen ==> name == "run.frozen"
  {
  }

  lemma KindSaysName2(name: string)
    ensures KindOf(name) == RunDelegated ==> name == "run.delegated"
    ensures KindOf(name) == ProofStarted ==> name == "proof.started"
    ensures KindOf(name) == ProofFinished ==> name == "proof.finished"
    ensures KindOf(name) == RunAccepted ==> name == "run.accepted"
    ensures KindOf(name) == RunDiscarded ==> name == "run.discarded"
  {
  }

  lemma KindSaysName(name: string)
    ensures NameOf(KindOf(name)).Some? ==> NameOf(KindOf(name)) == Some(name)
  {
    hide KindOf;
    KindSaysName1(name);
    KindSaysName2(name);
  }

  lemma NameSaysKind(k: Kind)
    ensures NameOf(k).Some? ==> KindOf(NameOf(k).value) == k
  {
    hide KindOf;
    LifecycleKinds1();
    LifecycleKinds2();
    LifecycleKinds3();
  }

  // ----- for every state, name and emitter

  /** The state changes of the reducer are exactly the edges of the table. */
  lemma StateChangesAre(p: Phase, name: string, emitter: Emitter, q: RunState)
    ensures Reduce(p, name, emitter) == Some(Reduction(Some(q), None)) && p != Some(q) <==>
      exists k :: NameOf(k) == Some(name) && Edge(k, emitter, q) in Outgoing(p)
  {
    hide KindOf, NameOf, Outgoing, Step;
    KindSaysName(name);
    ChangesByKind(p, KindOf(name), emitter, q);
    if k :| NameOf(k) == Some(name) && Edge(k, emitter, q) in Outgoing(p) {
      NameSaysKind(k);
    }
  }

  lemma ChangesByKind(p: Phase, k: Kind, emitter: Emitter, q: RunState)
    ensures Step(p, Event(k, emitter)) == Some(Some(q)) && p != Some(q) && !k.Unknown? <==> Edge(k, emitter, q) in Outgoing(p)
    ensures Edge(k, emitter, q) in Outgoing(p) ==> NameOf(k).Some?
  {
  }

  /** The events accepted without a change of state are exactly the notes, and after the end the closing ones. */
  lemma NotesAre(p: Phase, name: string, emitter: Emitter)
    ensures Reduce(p, name, emitter) == Some(Reduction(p, None)) <==>
      p.Some? && Noted(name, emitter) && (Terminal(p) ==> name in CLOSING)
  {
    hide KindOf;
    KindSaysList(name);
    ListSaysKind(name);
    hide Noted;
    NotedByKind(name, emitter);
    NotesByKind(p, KindOf(name), emitter);
  }

  /** Who must send a note, by its kind. */
  function NoteFrom(k: Kind): Option<Emitter> {
    match k
    case Closing => Some(Custodian)
    case CustodianNote => Some(Custodian)
    case BrokerNote => Some(Broker)
    case SupervisorNote => Some(Supervisor)
    case UnknownMarker => Some(Reducer)
    case _ => None
  }

  lemma NotedByKind(name: string, emitter: Emitter)
    ensures Noted(name, emitter) <==> NoteFrom(KindOf(name)) == Some(emitter)
  {
    hide KindOf;
    KindSaysList(name);
    ListSaysKind(name);
  }

  lemma NotesByKind(p: Phase, k: Kind, emitter: Emitter)
    ensures Step(p, Event(k, emitter)) == Some(p) && !k.Unknown? <==>
      p.Some? && NoteFrom(k) == Some(emitter) && (Terminal(p) ==> k.Closing?)
  {
  }

  /** An event is handed back as unknown if and only if its name is in no catalogue and the Run has not ended. */
  lemma UnknownsAre(p: Phase, name: string, emitter: Emitter)
    ensures Reduce(p, name, emitter) == Some(Reduction(p, Some(name))) <==> !Terminal(p) && !InCatalogue(name)
    ensures Reduce(p, name, emitter).Some? && Reduce(p, name, emitter).value.unknownEvent.Some? ==>
      Reduce(p, name, emitter) == Some(Reduction(p, Some(name)))
  {
    hide KindOf, NameOf;
    UnknownIffUncatalogued(name);
    hide InCatalogue;
  }

  lemma UnknownIffUncatalogued(name: string)
    ensures KindOf(name).Unknown? <==> !InCatalogue(name)
  {
    hide KindOf;
    KindSaysName(name);
    KindSaysList(name);
    ListSaysKind(name);
    assert KindOf(name).Unknown? || NameOf(KindOf(name)).Some? || NoteFrom(KindOf(name)).Some?;
    forall k | NameOf(k) == Some(name) ensures KindOf(name) == k {
      NameSaysKind(k);
    }
  }

  /**
   Every state is earned: a Run in state `q` got there by an edge of the table from the state
   it was in before, and has stayed there since.
   */
  lemma {:induction false} EveryStateIsEarned(trace: seq<Named>, q: RunState) returns (i: nat)
    requires ReplayNamed(None, trace) == Some(Some(q))
    ensures i < |trace| && ReplayNamed(None, trace[..i]).Some? && ReplayNamed(None, trace[..i]).value != Some(q)
    ensures exists k ::
      NameOf(k) == Some(trace[i].name) && Edge(k, trace[i].emitter, q) in Outgoing(ReplayNamed(None, trace[..i]).value)
    ensures forall j | i < j <= |trace| :: ReplayNamed(None, trace[..j]) == Some(Some(q))
    decreases |trace|
  {
    hide Reduce, NameOf, Outgoing;
    var n := |trace| - 1;
    var earlier, last := trace[..n], trace[n];
    var before := ReplayNamed(None, earlier).value;
    assert trace[..n + 1] == trace;
    if before == Some(q) {
      i := EveryStateIsEarned(earlier, q);
      assert forall j | 0 <= j <= n :: earlier[..j] == trace[..j];
    } else {
      i := n;
      UnknownsKeep(before, last.name, last.emitter);
      StateChangesAre(before, last.name, last.emitter, q);
    }
  }

  lemma UnknownsKeep(p: Phase, name: string, emitter: Emitter)
    ensures Reduce(p, name, emitter).Some? && Reduce(p, name, emitter).value.state != p ==>
      Reduce(p, name, emitter).value.unknownEvent.None?
  {
    hide KindOf;
  }
}
