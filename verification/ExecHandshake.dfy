/**
 The three-process handshake that starts an exec session: the shim, an intermediate child
 that enters the container's namespaces, and the grandchild that becomes the workload.
 They share three pipes. A read blocks until there is data or until the last holder of
 the write end has closed it, so who still holds which end is part of the state.

 Every interleaving is covered; either child may die at any step, and every fallible call
 may fail. No process other than these three inherits the pipes.
 */
module ExecHandshake {
  import opened Common

  datatype Who = Shim | Intermediate | Grandchild

  /** Which pipe ends a process has open. */
  datatype Fds = Fds(setupRd: bool, setupWr: bool, readyRd: bool, readyWr: bool, goRd: bool, goWr: bool)

  const ALL := Fds(true, true, true, true, true, true)
  const CLOSED := Fds(false, false, false, false, false, false)

  // ----- program points; each names the statement about to run

  datatype ShimAt =
    | DropSetupWr | DropGoRd | DropReadyRd | DropReadyWr
    | ReadPid
    | PidRead(gotPid: bool)      // drop(setup_rd)
    | AbandonGo                  // no pid: drop(go_wr), then reap
    | Enroll                     // write the pid to cgroup.procs
    | KillUnenrolled
    | SignalGo
    | SignalSent(sent: bool)     // drop(go_wr)
    | KillUnsignaled
    | Reap(holdsGo: bool)        // waitpid on the intermediate
    | DropGoLast
    | Returned(ok: bool)

  datatype IntermediateAt =
    | DropSetupRd | DropGoWr
    | EnterNamespaces
    | Clone
    | DropGoRdI | DropReadyWrI
    | ReadReady
    | ReadyRead(isReady: bool)   // drop(ready_rd)
    | SendPid
    | DropSetupWrI
    | WaitGrandchild
    | Gone

  datatype GrandchildAt =
    | Unborn
    | DropSetupWrG
    | EnterRoot
    | DropPrivileges
    | SendReady
    | DropReadyWrG
    | ReadGo
    | GoRead(enrolled: bool)     // drop(go_rd)
    | Execvp
    | Executing                  // image code is running
    | Dead

  datatype State = State(
    shim: ShimAt, inter: IntermediateAt, grand: GrandchildAt,
    setup: Option<int>, ready: bool, go: bool,   // in flight: the pid, the ready byte, the go byte
    grandPid: int, pidRead: int,
    cgroup: set<int>, rooted: bool, unprivileged: bool)

  /** Just after the first fork: the child has a copy of every descriptor. */
  ghost predicate Init(s: State) {
    && s.shim == DropSetupWr && s.inter == DropSetupRd && s.grand == Unborn
    && s.setup == None && !s.ready && !s.go
    && s.grandPid !in s.cgroup && !s.rooted && !s.unprivileged
  }

  // A process holds a pipe end from the fork that copied it to the statement that drops it.
  // The first child inherits all six, the grandchild what the first child holds at its clone.

  function ShimHolds(at: ShimAt): Fds {
    match at
    case DropSetupWr => ALL
    case DropGoRd => Fds(true, false, true, true, true, true)
    case DropReadyRd => Fds(true, false, true, true, false, true)
    case DropReadyWr => Fds(true, false, false, true, false, true)
    case ReadPid => Fds(true, false, false, false, false, true)
    case PidRead(_) => Fds(true, false, false, false, false, true)
    case AbandonGo => Fds(false, false, false, false, false, true)
    case Enroll => Fds(false, false, false, false, false, true)
    case KillUnenrolled => Fds(false, false, false, false, false, true)
    case SignalGo => Fds(false, false, false, false, false, true)
    case SignalSent(_) => Fds(false, false, false, false, false, true)
    case KillUnsignaled => CLOSED
    case Reap(holdsGo) => if holdsGo then Fds(false, false, false, false, false, true) else CLOSED
    case DropGoLast => Fds(false, false, false, false, false, true)
    case Returned(_) => CLOSED
  }

  function InterHolds(at: IntermediateAt): Fds {
    match at
    case DropSetupRd => ALL
    case DropGoWr => Fds(false, true, true, true, true, true)
    case EnterNamespaces => Fds(false, true, true, true, true, false)
    case Clone => Fds(false, true, true, true, true, false)
    case DropGoRdI => Fds(false, true, true, true, true, false)
    case DropReadyWrI => Fds(false, true, true, true, false, false)
    case ReadReady => Fds(false, true, true, false, false, false)
    case ReadyRead(_) => Fds(false, true, true, false, false, false)
    case SendPid => Fds(false, true, false, false, false, false)
    case DropSetupWrI => Fds(false, true, false, false, false, false)
    case WaitGrandchild => CLOSED
    case Gone => CLOSED
  }

  function GrandHolds(at: GrandchildAt): Fds {
    match at
    case Unborn => CLOSED
    case DropSetupWrG => Fds(false, true, true, true, true, false)
    case EnterRoot => Fds(false, false, true, true, true, false)
    case DropPrivileges => Fds(false, false, true, true, true, false)
    case SendReady => Fds(false, false, true, true, true, false)
    case DropReadyWrG => Fds(false, false, true, true, true, false)
    case ReadGo => Fds(false, false, true, false, true, false)
    case GoRead(_) => Fds(false, false, true, false, true, false)
    case Execvp => Fds(false, false, true, false, false, false)
    case Executing => Fds(false, false, true, false, false, false)
    case Dead => CLOSED
  }

  // Somebody could still write to the pipe.
  predicate SetupOpen(s: State) { ShimHolds(s.shim).setupWr || InterHolds(s.inter).setupWr || GrandHolds(s.grand).setupWr }
  predicate ReadyOpen(s: State) { ShimHolds(s.shim).readyWr || InterHolds(s.inter).readyWr || GrandHolds(s.grand).readyWr }
  predicate GoOpen(s: State) { ShimHolds(s.shim).goWr || InterHolds(s.inter).goWr || GrandHolds(s.grand).goWr }

  function InterGone(s: State): State { s.(inter := Gone) }
  function GrandDead(s: State): State { s.(grand := Dead) }

  // ----- one statement of each process; `ok` is the outcome of a fallible call, None is blocked

  function ShimStep(s: State, ok: bool): Option<State> {
    match s.shim
    case DropSetupWr => Some(s.(shim := DropGoRd))
    case DropGoRd => Some(s.(shim := DropReadyRd))
    case DropReadyRd => Some(s.(shim := DropReadyWr))
    case DropReadyWr => Some(s.(shim := ReadPid))
    case ReadPid =>
      if s.setup.Some? then
        if ok then Some(s.(shim := PidRead(true), pidRead := s.setup.value, setup := None))
        else Some(s.(shim := PidRead(false)))
      else if SetupOpen(s) && ok then None
      else Some(s.(shim := PidRead(false)))
    case PidRead(got) => Some(s.(shim := if got then Enroll else AbandonGo))
    case AbandonGo => Some(s.(shim := Reap(false)))
    case Enroll =>
      if ok then Some(s.(shim := SignalGo, cgroup := s.cgroup + {s.pidRead})) else Some(s.(shim := KillUnenrolled))
    case KillUnenrolled => Some(Kill(s).(shim := Reap(true)))
    case SignalGo =>
      if ok && (InterHolds(s.inter).goRd || GrandHolds(s.grand).goRd)
      then Some(s.(shim := SignalSent(true), go := true)) else Some(s.(shim := SignalSent(false)))
    case SignalSent(sent) => Some(s.(shim := if sent then Returned(true) else KillUnsignaled))
    case KillUnsignaled => Some(Kill(s).(shim := Reap(false)))
    case Reap(holdsGo) =>
      if s.inter.Gone? || !ok then Some(s.(shim := if holdsGo then DropGoLast else Returned(false))) else None
    case DropGoLast => Some(s.(shim := Returned(false)))
    case Returned(_) => None
  }

  /** SIGKILL to the pid that was read from the setup pipe. */
  function Kill(s: State): State {
    if s.pidRead == s.grandPid && !s.grand.Unborn? then GrandDead(s) else s
  }

  function IntermediateStep(s: State, ok: bool): Option<State> {
    match s.inter
    case DropSetupRd => Some(s.(inter := DropGoWr))
    case DropGoWr => Some(s.(inter := EnterNamespaces))
    case EnterNamespaces => if ok then Some(s.(inter := Clone)) else Some(InterGone(s))
    case Clone => if ok then Some(s.(inter := DropGoRdI, grand := DropSetupWrG)) else Some(InterGone(s))
    case DropGoRdI => Some(s.(inter := DropReadyWrI))
    case DropReadyWrI => Some(s.(inter := ReadReady))
    case ReadReady =>
      if s.ready then
        if ok then Some(s.(inter := ReadyRead(true), ready := false)) else Some(s.(inter := ReadyRead(false)))
      else if ReadyOpen(s) && ok then None
      else Some(s.(inter := ReadyRead(false)))
    case ReadyRead(isReady) => Some(s.(inter := if isReady then SendPid else DropSetupWrI))
    case SendPid =>
      if ok && ShimHolds(s.shim).setupRd then Some(s.(inter := DropSetupWrI, setup := Some(s.grandPid)))
      else Some(s.(inter := DropSetupWrI))
    case DropSetupWrI => Some(s.(inter := WaitGrandchild))
    case WaitGrandchild => if s.grand.Dead? || !ok then Some(InterGone(s)) else None
    case Gone => None
  }

  function GrandchildStep(s: State, ok: bool): Option<State> {
    match s.grand
    case Unborn => None
    case DropSetupWrG => Some(s.(grand := EnterRoot))
    case EnterRoot => if ok then Some(s.(grand := DropPrivileges, rooted := true)) else Some(GrandDead(s))
    case DropPrivileges => if ok then Some(s.(grand := SendReady, unprivileged := true)) else Some(GrandDead(s))
    case SendReady => Some(s.(grand := DropReadyWrG, ready := ok))
    case DropReadyWrG => Some(s.(grand := ReadGo))
    case ReadGo =>
      if s.go then
        if ok then Some(s.(grand := GoRead(true), go := false)) else Some(s.(grand := GoRead(false)))
      else if GoOpen(s) && ok then None
      else Some(s.(grand := GoRead(false)))
    case GoRead(enrolled) =>
      if enrolled then Some(s.(grand := Execvp)) else Some(GrandDead(s))
    case Execvp => if ok then Some(s.(grand := Executing)) else Some(GrandDead(s))
    case Executing => None
    case Dead => None
  }

  /** A process executes its next statement, or a child dies where it stands. */
  datatype Action = Execute(who: Who, ok: bool) | Die(victim: Who)

  function Next(s: State, a: Action): Option<State> {
    match a
    case Execute(Shim, ok) => ShimStep(s, ok)
    case Execute(Intermediate, ok) => IntermediateStep(s, ok)
    case Execute(Grandchild, ok) => GrandchildStep(s, ok)
    case Die(Shim) => None
    case Die(Intermediate) => if s.inter.Gone? then None else Some(InterGone(s))
    case Die(Grandchild) => if s.grand.Unborn? || s.grand.Dead? then None else Some(GrandDead(s))
  }

  // ----- the invariant

  /** The shim has written the go byte. */
  predicate Signaled(at: ShimAt) { at == SignalSent(true) || at == Returned(true) }

  /** The shim knows the pid and has enrolled it. */
  predicate Enrolled(at: ShimAt) { at.SignalGo? || at.SignalSent? || at.KillUnsignaled? || Signaled(at) }

  predicate KnowsPid(at: ShimAt) {
    at == PidRead(true) || at.Enroll? || at.KillUnenrolled? || Enrolled(at)
  }

  predicate PastRoot(at: GrandchildAt) {
    !(at.Unborn? || at.DropSetupWrG? || at.EnterRoot? || at.Dead?)
  }

  predicate PastPrivileges(at: GrandchildAt) { PastRoot(at) && !at.DropPrivileges? }

  predicate Released(at: GrandchildAt) { at == GoRead(true) || at.Execvp? || at.Executing? }

  predicate BeforeClone(at: IntermediateAt) {
    at.DropSetupRd? || at.DropGoWr? || at.EnterNamespaces? || at.Clone?
  }

  /** What each process's position says about the others and about the world. */
  ghost predicate Inv(s: State) {
    && (s.setup.Some? ==> s.setup.value == s.grandPid)
    && (s.setup.Some? || s.inter.SendPid? || s.inter == ReadyRead(true) || s.ready || KnowsPid(s.shim) ==> !s.grand.Unborn?)
    && (BeforeClone(s.inter) ==> s.grand.Unborn?)
    && (!BeforeClone(s.inter) && !s.inter.Gone? ==> !s.grand.Unborn?)
    && (KnowsPid(s.shim) ==> s.pidRead == s.grandPid)
    && (Enrolled(s.shim) ==> s.grandPid in s.cgroup)
    && (s.go || Released(s.grand) ==> Signaled(s.shim))
    && (s.shim == Reap(true) || s.shim.DropGoLast? ==> s.grand.Dead?)
    && (s.setup.Some? || s.inter.SendPid? || s.inter == ReadyRead(true) || s.ready || KnowsPid(s.shim) ==> s.rooted && s.unprivileged)
    && (PastRoot(s.grand) ==> s.rooted)
    && (PastPrivileges(s.grand) ==> s.unprivileged)
  }

  lemma InitInv(s: State)
    requires Init(s)
    ensures Inv(s)
  {
  }

  /** What one step must preserve: the invariant, a doomed call, and the bound on what is left. */
  ghost predicate Advances(s: State, s': State) {
    Inv(s') && Rank(s') < Rank(s) && (Failing(s.shim) ==> Failing(s'.shim))
  }

  lemma ShimEarlyStep(s: State, ok: bool)
    requires Inv(s) && ShimStep(s, ok).Some?
    requires s.shim.DropSetupWr? || s.shim.DropGoRd? || s.shim.DropReadyRd? || s.shim.DropReadyWr? || s.shim.ReadPid?
    ensures Advances(s, ShimStep(s, ok).value)
  {
    hide InterHolds, GrandHolds, InterRank, GrandRank, PastRoot, PastPrivileges, BeforeClone, Released;
    match s.shim
    case DropSetupWr =>
    case DropGoRd =>
    case DropReadyRd =>
    case DropReadyWr =>
    case ReadPid =>
  }

  lemma ShimMiddleStep(s: State, ok: bool)
    requires Inv(s) && ShimStep(s, ok).Some?
    requires s.shim.PidRead? || s.shim.AbandonGo? || s.shim.Enroll? || s.shim.SignalGo?
    ensures Advances(s, ShimStep(s, ok).value)
  {
    hide InterHolds, GrandHolds, InterRank, GrandRank, PastRoot, PastPrivileges, BeforeClone, Released;
    match s.shim
    case PidRead(_) =>
    case AbandonGo =>
    case Enroll =>
    case SignalGo =>
  }

  lemma ShimKillStep(s: State, ok: bool)
    requires Inv(s) && ShimStep(s, ok).Some?
    requires s.shim.KillUnenrolled? || s.shim.KillUnsignaled?
    ensures Advances(s, ShimStep(s, ok).value)
  {
    match s.shim
    case KillUnenrolled =>
    case KillUnsignaled =>
  }

  lemma ShimLateStep(s: State, ok: bool)
    requires Inv(s) && ShimStep(s, ok).Some?
    requires s.shim.SignalSent? || s.shim.Reap? || s.shim.DropGoLast?
    ensures Advances(s, ShimStep(s, ok).value)
  {
    hide InterHolds, GrandHolds, InterRank, GrandRank, PastRoot, PastPrivileges, BeforeClone, Released;
    match s.shim
    case SignalSent(_) =>
    case Reap(_) =>
    case DropGoLast =>
  }

  lemma IntermediateEarlyStep(s: State, ok: bool)
    requires Inv(s) && IntermediateStep(s, ok).Some?
    requires s.inter.DropSetupRd? || s.inter.DropGoWr? || s.inter.EnterNamespaces? || s.inter.Clone? || s.inter.DropGoRdI?
    ensures Advances(s, IntermediateStep(s, ok).value)
  {
    match s.inter
    case DropSetupRd =>
    case DropGoWr =>
    case EnterNamespaces =>
    case Clone =>
    case DropGoRdI =>
  }

  lemma IntermediateMiddleStep(s: State, ok: bool)
    requires Inv(s) && IntermediateStep(s, ok).Some?
    requires s.inter.DropReadyWrI? || s.inter.ReadReady? || s.inter.ReadyRead?
    ensures Advances(s, IntermediateStep(s, ok).value)
  {
    match s.inter
    case DropReadyWrI =>
    case ReadReady =>
    case ReadyRead(_) =>
  }

  lemma IntermediateLateStep(s: State, ok: bool)
    requires Inv(s) && IntermediateStep(s, ok).Some?
    requires s.inter.SendPid? || s.inter.DropSetupWrI? || s.inter.WaitGrandchild?
    ensures Advances(s, IntermediateStep(s, ok).value)
  {
    match s.inter
    case SendPid =>
    case DropSetupWrI =>
    case WaitGrandchild =>
  }

  lemma GrandchildEarlyStep(s: State, ok: bool)
    requires Inv(s) && GrandchildStep(s, ok).Some?
    requires s.grand.DropSetupWrG? || s.grand.EnterRoot? || s.grand.DropPrivileges? || s.grand.SendReady?
    ensures Advances(s, GrandchildStep(s, ok).value)
  {
    match s.grand
    case DropSetupWrG =>
    case EnterRoot =>
    case DropPrivileges =>
    case SendReady =>
  }

  lemma GrandchildLateStep(s: State, ok: bool)
    requires Inv(s) && GrandchildStep(s, ok).Some?
    requires s.grand.DropReadyWrG? || s.grand.ReadGo? || s.grand.GoRead? || s.grand.Execvp?
    ensures Advances(s, GrandchildStep(s, ok).value)
  {
    match s.grand
    case DropReadyWrG =>
    case ReadGo =>
    case GoRead(_) =>
    case Execvp =>
  }

  lemma StepAdvances(s: State, a: Action)
    requires Inv(s) && Next(s, a).Some?
    ensures Advances(s, Next(s, a).value)
  {
    match a {
      case Execute(Shim, ok) =>
        match s.shim {
          case DropSetupWr | DropGoRd | DropReadyRd | DropReadyWr | ReadPid => ShimEarlyStep(s, ok);
          case PidRead(_) | AbandonGo | Enroll | SignalGo => ShimMiddleStep(s, ok);
          case KillUnenrolled | KillUnsignaled => ShimKillStep(s, ok);
          case _ => ShimLateStep(s, ok);
        }
      case Execute(Intermediate, ok) =>
        match s.inter {
          case DropSetupRd | DropGoWr | EnterNamespaces | Clone | DropGoRdI => IntermediateEarlyStep(s, ok);
          case DropReadyWrI | ReadReady | ReadyRead(_) => IntermediateMiddleStep(s, ok);
          case _ => IntermediateLateStep(s, ok);
        }
      case Execute(Grandchild, ok) =>
        match s.grand {
          case DropSetupWrG | EnterRoot | DropPrivileges | SendReady => GrandchildEarlyStep(s, ok);
          case _ => GrandchildLateStep(s, ok);
        }
      case Die(Intermediate) => DeathOfIntermediate(s);
      case Die(Grandchild) => DeathOfGrandchild(s);
    }
  }

  lemma DeathOfIntermediate(s: State)
    requires Inv(s) && !s.inter.Gone?
    ensures Advances(s, InterGone(s))
  {
  }

  lemma DeathOfGrandchild(s: State)
    requires Inv(s) && !s.grand.Unborn? && !s.grand.Dead?
    ensures Advances(s, GrandDead(s))
  {
  }

  // ----- runs

  ghost function Run(s: State, actions: seq<Action>): Option<State>
    decreases |actions|
  {
    if actions == [] then Some(s) else
    match Next(s, actions[0])
    case None => None
    case Some(s') => Run(s', actions[1..])
  }

  lemma {:induction false} RunKeepsInv(s: State, actions: seq<Action>)
    requires Inv(s) && Run(s, actions).Some?
    ensures Inv(Run(s, actions).value)
    decreases |actions|
  {
    if actions != [] {
      StepAdvances(s, actions[0]);
      RunKeepsInv(Next(s, actions[0]).value, actions[1..]);
    }
  }

  ghost predicate Reachable(s: State) {
    exists s0, actions :: Init(s0) && Run(s0, actions) == Some(s)
  }

  lemma ReachableInv(s: State)
    requires Reachable(s)
    ensures Inv(s)
  {
    var s0, actions :| Init(s0) && Run(s0, actions) == Some(s);
    InitInv(s0);
    RunKeepsInv(s0, actions);
  }

  /**
   Containment. In every interleaving, a grandchild that has reached execvp is enrolled in
   the zone's cgroup under its own pid, inside the container root, and unprivileged.
   */
  lemma ExecOnlyWhenContained(s: State)
    requires Reachable(s) && (s.grand.Execvp? || s.grand.Executing?)
    ensures s.grandPid in s.cgroup && s.rooted && s.unprivileged
  {
    ReachableInv(s);
  }

  /** The shim is on its way to an error and the go byte cannot be sent any more. */
  predicate Failing(at: ShimAt) {
    at == PidRead(false) || at.AbandonGo? || at.KillUnenrolled? || at == SignalSent(false)
    || at.KillUnsignaled? || at.Reap? || at.DropGoLast? || at == Returned(false)
  }

  lemma {:induction false} FailingRun(s: State, actions: seq<Action>)
    requires Inv(s) && Failing(s.shim) && Run(s, actions).Some?
    ensures Inv(Run(s, actions).value) && Failing(Run(s, actions).value.shim)
    decreases |actions|
  {
    if actions != [] {
      StepAdvances(s, actions[0]);
      FailingRun(Next(s, actions[0]).value, actions[1..]);
    }
  }

  /**
   All or nothing. If the call returns an error, the workload has not started and cannot
   start later, whatever the surviving children do.
   */
  lemma ErrorMeansNeverExecuted(s: State, actions: seq<Action>)
    requires Reachable(s) && s.shim == Returned(false) && Run(s, actions).Some?
    ensures
      var s' := Run(s, actions).value;
      !s.grand.Execvp? && !s.grand.Executing? && !s'.grand.Execvp? && !s'.grand.Executing?
  {
    ReachableInv(s);
    FailingRun(s, actions);
  }

  // ----- progress

  function ShimRank(at: ShimAt): nat {
    match at
    case DropSetupWr => 12
    case DropGoRd => 11
    case DropReadyRd => 10
    case DropReadyWr => 9
    case ReadPid => 8
    case PidRead(_) => 7
    case AbandonGo => 6
    case Enroll => 6
    case SignalGo => 5
    case SignalSent(_) => 4
    case KillUnenrolled => 3
    case KillUnsignaled => 3
    case Reap(_) => 2
    case DropGoLast => 1
    case Returned(_) => 0
  }

  function InterRank(at: IntermediateAt): nat {
    match at
    case DropSetupRd => 11
    case DropGoWr => 10
    case EnterNamespaces => 9
    case Clone => 8
    case DropGoRdI => 7
    case DropReadyWrI => 6
    case ReadReady => 5
    case ReadyRead(_) => 4
    case SendPid => 3
    case DropSetupWrI => 2
    case WaitGrandchild => 1
    case Gone => 0
  }

  function GrandRank(at: GrandchildAt): nat {
    match at
    case Unborn => 10
    case DropSetupWrG => 9
    case EnterRoot => 8
    case DropPrivileges => 7
    case SendReady => 6
    case DropReadyWrG => 5
    case ReadGo => 4
    case GoRead(_) => 3
    case Execvp => 2
    case Executing => 1
    case Dead => 0
  }

  function Rank(s: State): nat { ShimRank(s.shim) + InterRank(s.inter) + GrandRank(s.grand) }

  lemma {:induction false} RunsAreShort(s: State, actions: seq<Action>)
    requires Inv(s) && Run(s, actions).Some?
    ensures |actions| <= Rank(s)
    decreases |actions|
  {
    if actions != [] {
      StepAdvances(s, actions[0]);
      RunsAreShort(Next(s, actions[0]).value, actions[1..]);
    }
  }

  /** The intermediate is never stuck unless it waits for a live grandchild. */
  lemma IntermediateMoves(s: State)
    requires Inv(s) && !s.inter.Gone? && !s.inter.WaitGrandchild? && !ShimHolds(s.shim).readyWr
    ensures Next(s, Execute(Intermediate, true)).Some? || Next(s, Execute(Grandchild, true)).Some?
  {
    if s.inter.ReadReady? && !s.ready && ReadyOpen(s) {
      assert GrandHolds(s.grand).readyWr;
    }
  }

  /**
   No deadlock. While the call has not returned, some process can execute its next
   statement without anyone having to die or any call having to fail.
   */
  lemma SomebodyMoves(s: State)
    requires Reachable(s) && !s.shim.Returned?
    ensures exists who :: Next(s, Execute(who, true)).Some?
  {
    ReachableInv(s);
    if Next(s, Execute(Shim, true)).None? {
      assert s.shim.ReadPid? || s.shim.Reap?;
      if s.shim.ReadPid? && !InterHolds(s.inter).setupWr {
        assert s.grand.DropSetupWrG?;
        assert Next(s, Execute(Grandchild, true)).Some?;
      } else if s.inter.WaitGrandchild? {
        assert s.shim.Reap?;
        if s.grand.Dead? {
          assert Next(s, Execute(Intermediate, true)).Some?;
        } else {
          assert !GoOpen(s);
          assert Next(s, Execute(Grandchild, true)).Some?;
        }
      } else {
        IntermediateMoves(s);
      }
    }
  }

  /** Every run is bounded, and a run that nobody can extend has returned. */
  lemma HandshakeTerminates(s0: State, actions: seq<Action>)
    requires Init(s0) && Run(s0, actions).Some?
    ensures |actions| <= 33
    ensures (forall who :: Next(Run(s0, actions).value, Execute(who, true)).None?) ==> Run(s0, actions).value.shim.Returned?
  {
    InitInv(s0);
    RunsAreShort(s0, actions);
    var s := Run(s0, actions).value;
    if !s.shim.Returned? {
      SomebodyMoves(s);
    }
  }

  // ----- without faults the call succeeds

  predicate PastSendReady(at: GrandchildAt) { PastPrivileges(at) && !at.SendReady? }

  predicate BeforeReady(at: IntermediateAt) { BeforeClone(at) || at.DropGoRdI? || at.DropReadyWrI? || at.ReadReady? }

  predicate PastSendPid(at: IntermediateAt) { at.DropSetupWrI? || at.WaitGrandchild? }

  /** Nobody has died or given up, and every byte is either still due, in flight, or received. */
  ghost predicate Healthy(s: State) {
    && !Failing(s.shim) && !s.inter.Gone? && !s.grand.Dead?
    && s.inter != ReadyRead(false) && s.grand != GoRead(false)
    && (BeforeReady(s.inter) ==> (s.ready <==> PastSendReady(s.grand)))
    && (PastSendPid(s.inter) <==> s.setup.Some? || KnowsPid(s.shim))
    && (Signaled(s.shim) && !Released(s.grand) ==> s.go)
  }

  lemma HealthyShimEarlyStep(s: State)
    requires Inv(s) && Healthy(s) && ShimStep(s, true).Some?
    requires s.shim.DropSetupWr? || s.shim.DropGoRd? || s.shim.DropReadyRd? || s.shim.DropReadyWr? || s.shim.ReadPid?
    ensures Healthy(ShimStep(s, true).value)
  {
    hide PastSendReady, BeforeReady, Released, PastRoot, PastPrivileges, BeforeClone;
    match s.shim
    case DropSetupWr =>
    case DropGoRd =>
    case DropReadyRd =>
    case DropReadyWr =>
    case ReadPid =>
  }

  lemma HealthyShimStep(s: State)
    requires Inv(s) && Healthy(s) && ShimStep(s, true).Some?
    ensures Healthy(ShimStep(s, true).value)
  {
    hide PastSendReady, BeforeReady, PastSendPid, PastRoot, PastPrivileges, BeforeClone, InterHolds;
    match s.shim
    case DropSetupWr => HealthyShimEarlyStep(s);
    case DropGoRd => HealthyShimEarlyStep(s);
    case DropReadyRd => HealthyShimEarlyStep(s);
    case DropReadyWr => HealthyShimEarlyStep(s);
    case ReadPid => HealthyShimEarlyStep(s);
    case PidRead(_) =>
    case Enroll =>
    case SignalGo =>
    case SignalSent(_) =>
  }

  lemma HealthyIntermediateStep(s: State)
    requires Inv(s) && Healthy(s) && IntermediateStep(s, true).Some?
    ensures Healthy(IntermediateStep(s, true).value)
  {
    match s.inter
    case DropSetupRd =>
    case DropGoWr =>
    case EnterNamespaces =>
    case Clone =>
    case DropGoRdI =>
    case DropReadyWrI =>
    case ReadReady =>
    case ReadyRead(_) =>
    case SendPid =>
    case DropSetupWrI =>
  }

  lemma HealthyGrandchildStep(s: State)
    requires Inv(s) && Healthy(s) && GrandchildStep(s, true).Some?
    ensures Healthy(GrandchildStep(s, true).value)
  {
    match s.grand
    case DropSetupWrG =>
    case EnterRoot =>
    case DropPrivileges =>
    case SendReady =>
    case DropReadyWrG =>
    case ReadGo =>
    case GoRead(_) =>
    case Execvp =>
  }

  lemma {:induction false} HealthyRun(s: State, whos: seq<Who>)
    requires Inv(s) && Healthy(s) && Run(s, Faultless(whos)).Some?
    ensures Inv(Run(s, Faultless(whos)).value) && Healthy(Run(s, Faultless(whos)).value)
    decreases |whos|
  {
    if whos != [] {
      var actions := Faultless(whos);
      assert actions[1..] == Faultless(whos[1..]);
      StepAdvances(s, actions[0]);
      match whos[0] {
        case Shim => HealthyShimStep(s);
        case Intermediate => HealthyIntermediateStep(s);
        case Grandchild => HealthyGrandchildStep(s);
      }
      HealthyRun(Next(s, actions[0]).value, whos[1..]);
    }
  }

  /** A schedule in which no call fails and nobody dies. */
  function Faultless(whos: seq<Who>): seq<Action> {
    seq(|whos|, i requires 0 <= i < |whos| => Execute(whos[i], true))
  }

  /** Under every fault-free schedule the call ends by returning success, and the workload is executing. */
  lemma FaultlessRunSucceeds(s0: State, whos: seq<Who>)
    requires Init(s0) && Run(s0, Faultless(whos)).Some?
    requires forall who :: Next(Run(s0, Faultless(whos)).value, Execute(who, true)).None?
    ensures Run(s0, Faultless(whos)).value.shim == Returned(true)
    ensures Run(s0, Faultless(whos)).value.grand == Executing
  {
    hide Run, Inv, Healthy, Failing;
    InitInv(s0);
    InitHealthy(s0);
    HealthyRun(s0, whos);
    HandshakeTerminates(s0, Faultless(whos));
    SettledIsExecuting(Run(s0, Faultless(whos)).value);
  }

  lemma InitHealthy(s: State)
    requires Init(s)
    ensures Healthy(s)
  {
  }

  /** Once the shim is done and nobody has failed, only an executing workload has no step left. */
  lemma SettledIsExecuting(s: State)
    requires Inv(s) && Healthy(s) && s.shim.Returned? && Next(s, Execute(Grandchild, true)).None?
    ensures s.shim == Returned(true) && s.grand == Executing
  {
  }

  /** What the caller gets with success: the workload's own pid, enrolled, with its trusted setup done. */
  lemma SuccessMeansEnrolled(s: State)
    requires Reachable(s) && s.shim == Returned(true)
    ensures s.pidRead == s.grandPid && s.grandPid in s.cgroup && s.rooted && s.unprivileged
  {
    ReachableInv(s);
  }
}
