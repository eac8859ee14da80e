/**
 Ownership of task identifiers in the daemon: reserve a result slot, write a recovery
 record, execute, save the result, clean up, and only then allow the identifier to be
 deleted and reused. Requests run concurrently under one lock; the daemon may crash at any
 step; a store transaction may fail after it has in fact committed.
 */
module TaskOwnership {
  import opened Common

  const MAX_RESULT_BYTES: nat := 4 * 1024 * 1024

  type Id = string

  /**
   The durable store: result lengths by task (0 is a reservation), tasks with a recovery
   record, and tasks whose container still exists.
   */
  datatype Store = Store(results: map<Id, nat>, recovery: set<Id>, containers: set<Id>)

  /** How a write transaction ends: committed, lost, or committed although an error is reported. */
  datatype Commit = Committed | Lost | HiddenCommit

  predicate TakesEffect(c: Commit) { !c.Lost? }

  // ----- the store's transactions

  /** Bytes a retained entry counts for: its full budget until it is saved and recovered. */
  function Weight(st: Store, id: Id): nat
    requires id in st.results
  {
    if st.results[id] == 0 || id in st.recovery then MAX_RESULT_BYTES else st.results[id]
  }

  ghost function UsedBy(st: Store, keys: set<Id>): nat
    requires keys <= st.results.Keys
  {
    if keys == {} then 0 else
    var k :| k in keys;
    Weight(st, k) + UsedBy(st, keys - {k})
  }

  ghost predicate CanReserve(st: Store, id: Id, capacity: nat) {
    id !in st.results && UsedBy(st, st.results.Keys) + MAX_RESULT_BYTES <= capacity
  }

  function Reserve(st: Store, id: Id): Store { st.(results := st.results[id := 0]) }

  predicate CanRecord(st: Store, id: Id) { id in st.results && st.results[id] == 0 }
  function Record(st: Store, id: Id): Store { st.(recovery := st.recovery + {id}) }

  predicate CanSave(st: Store, id: Id, len: nat) { 0 < len <= MAX_RESULT_BYTES && id in st.results && st.results[id] == 0 }
  function Save(st: Store, id: Id, len: nat): Store { st.(results := st.results[id := len]) }

  predicate CanFinish(st: Store, id: Id) { id in st.results && st.results[id] > 0 }
  function Finish(st: Store, id: Id): Store { st.(recovery := st.recovery - {id}) }

  predicate CanDelete(st: Store, id: Id) { id !in st.recovery }
  function Delete(st: Store, id: Id): Store { st.(results := st.results - {id}) }

  // ----- the daemon

  /** Where a run request stands once it holds its identifier. */
  datatype Stage = Admitted | Refusing | Recorded | ContainerCreated | Started | Saved | ContainerRemoved

  datatype Handler = Handler(id: Id, stage: Stage)

  /**
   `ran` is history: the identifiers whose command has started since their slot was last
   deleted. Nothing in the program reads it.
   */
  datatype State = State(store: Store, active: set<Id>, handlers: map<nat, Handler>, up: bool, ran: set<Id>)

  datatype Action =
    | Request(h: nat, id: Id, commit: Commit)
    | Refuse(h: nat, commit: Commit)
    | PutRecovery(h: nat, commit: Commit)
    | CreateContainer(h: nat)
    | Start(h: nat)
    | SaveResult(h: nat, len: nat, commit: Commit)
    | RemoveContainer(h: nat)
    | FinishRecovery(h: nat, commit: Commit)
    | GiveUp(h: nat)                       // sealing or cleanup failed; the record stays
    | Crash
    | RecoverSave(id: Id, len: nat)
    | RecoverRemove(id: Id)
    | RecoverFinish(id: Id)
    | ComeUp
    | DeleteResult(id: Id, commit: Commit)

  /** The request ends and drops its guard: an attempted task keeps its slot. */
  function Leave(s: State, h: nat): State
    requires h in s.handlers
  {
    s.(handlers := s.handlers - {h}, active := s.active - {s.handlers[h].id})
  }

  function At(s: State, h: nat, stage: Stage): State
    requires h in s.handlers
  {
    s.(handlers := s.handlers[h := Handler(s.handlers[h].id, stage)])
  }

  /** A run request under the lock. Only a reservation that is known to have committed owns the identifier. */
  ghost function OnRequest(s: State, capacity: nat, h: nat, id: Id, commit: Commit): Option<State> {
    if !s.up || h in s.handlers then None
    else if !CanReserve(s.store, id, capacity) || commit.Lost? then Some(s)
    else
      var s' := s.(store := Reserve(s.store, id));
      if commit.HiddenCommit? then Some(s')
      else Some(s'.(active := s.active + {id}, handlers := s.handlers[h := Handler(id, Admitted)]))
  }

  /** Refusal before execution: release the reservation if the store lets it go, then the identifier. */
  function OnRefuse(s: State, h: nat, commit: Commit): State
    requires h in s.handlers
  {
    var id := s.handlers[h].id;
    Leave(if CanDelete(s.store, id) && TakesEffect(commit) then s.(store := Delete(s.store, id)) else s, h)
  }

  function OnPutRecovery(s: State, h: nat, commit: Commit): State
    requires h in s.handlers
  {
    var id := s.handlers[h].id;
    if !CanRecord(s.store, id) then At(s, h, Refusing) else
    match commit
    case Committed => At(s.(store := Record(s.store, id)), h, Recorded)
    case Lost => At(s, h, Refusing)
    case HiddenCommit => At(s.(store := Record(s.store, id)), h, Refusing)
  }

  function OnSave(s: State, h: nat, len: nat, commit: Commit): State
    requires h in s.handlers
  {
    var id := s.handlers[h].id;
    if !CanSave(s.store, id, len) then Leave(s, h) else
    match commit
    case Committed => At(s.(store := Save(s.store, id, len)), h, Saved)
    case Lost => Leave(s, h)
    case HiddenCommit => Leave(s.(store := Save(s.store, id, len)), h)
  }

  function OnFinish(s: State, h: nat, commit: Commit): State
    requires h in s.handlers
  {
    var id := s.handlers[h].id;
    Leave(if CanFinish(s.store, id) && TakesEffect(commit) then s.(store := Finish(s.store, id)) else s, h)
  }

  /** An explicit delete: refused while the identifier is active, unrecovered, or still has a container. */
  function OnDelete(s: State, id: Id, commit: Commit): State {
    if id in s.active || id in s.store.recovery || id in s.store.containers then s
    else if !CanDelete(s.store, id) || commit.Lost? then s
    else s.(store := Delete(s.store, id), ran := s.ran - {id})
  }

  predicate Standing(s: State, h: nat, stages: set<Stage>) { h in s.handlers && s.handlers[h].stage in stages }

  ghost function Next(s: State, capacity: nat, a: Action): Option<State> {
    match a
    case Request(h, id, commit) => OnRequest(s, capacity, h, id, commit)
    case Refuse(h, commit) => if Standing(s, h, {Admitted, Refusing}) then Some(OnRefuse(s, h, commit)) else None
    case PutRecovery(h, commit) => if Standing(s, h, {Admitted}) then Some(OnPutRecovery(s, h, commit)) else None
    case CreateContainer(h) =>
      if !Standing(s, h, {Recorded}) then None else
      Some(At(s.(store := s.store.(containers := s.store.containers + {s.handlers[h].id})), h, ContainerCreated))
    case Start(h) =>
      if !Standing(s, h, {ContainerCreated}) then None else
      Some(At(s.(ran := s.ran + {s.handlers[h].id}), h, Started))
    case SaveResult(h, len, commit) =>
      if Standing(s, h, {Recorded, ContainerCreated, Started}) then Some(OnSave(s, h, len, commit)) else None
    case RemoveContainer(h) =>
      if !Standing(s, h, {Saved}) then None else
      Some(At(s.(store := s.store.(containers := s.store.containers - {s.handlers[h].id})), h, ContainerRemoved))
    case FinishRecovery(h, commit) => if Standing(s, h, {ContainerRemoved}) then Some(OnFinish(s, h, commit)) else None
    case GiveUp(h) =>
      if Standing(s, h, {Recorded, ContainerCreated, Started, Saved, ContainerRemoved}) then Some(Leave(s, h)) else None
    case Crash => Some(s.(active := {}, handlers := map[], up := false))
    case RecoverSave(id, len) =>
      if s.up || id !in s.store.recovery || !CanSave(s.store, id, len) then None else
      Some(s.(store := Save(s.store, id, len)))
    case RecoverRemove(id) =>
      if s.up || id !in s.store.recovery || !CanFinish(s.store, id) then None else
      Some(s.(store := s.store.(containers := s.store.containers - {id})))
    case RecoverFinish(id) =>
      if s.up || id !in s.store.recovery || !CanFinish(s.store, id) || id in s.store.containers then None else
      Some(s.(store := Finish(s.store, id)))
    case ComeUp => if !s.up && s.store.recovery == {} then Some(s.(up := true)) else None
    case DeleteResult(id, commit) => if s.up then Some(OnDelete(s, id, commit)) else None
  }

  const EMPTY := State(Store(map[], {}, {}), {}, map[], false, {})

  // ----- the invariant

  /** What a handler's stage says about its identifier. */
  ghost predicate HandlerSafe(s: State, h: Handler) {
    && h.id in s.active && h.id in s.store.results
    && (h.stage.Saved? || h.stage.ContainerRemoved? <==> s.store.results[h.id] > 0)
    && (h.stage.Admitted? ==> h.id !in s.store.recovery)
    && (!h.stage.Admitted? && !h.stage.Refusing? ==> h.id in s.store.recovery)
    && (h.stage.Admitted? || h.stage.Refusing? || h.stage.Recorded? ==> h.id !in s.store.containers)
    && (h.stage.Admitted? || h.stage.Refusing? || h.stage.Recorded? || h.stage.ContainerCreated? ==> h.id !in s.ran)
    && (h.stage.ContainerRemoved? ==> h.id !in s.store.containers)
  }

  ghost predicate StoreSafe(st: Store, capacity: nat) {
    && st.containers <= st.recovery <= st.results.Keys
    && (forall id | id in st.results :: st.results[id] <= MAX_RESULT_BYTES)
    && UsedBy(st, st.results.Keys) <= capacity
  }

  ghost predicate Inv(s: State, capacity: nat) {
    && StoreSafe(s.store, capacity)
    && s.ran <= s.store.results.Keys && s.active <= s.store.results.Keys
    && (forall h | h in s.handlers :: HandlerSafe(s, s.handlers[h]))
    && (forall h, k | h in s.handlers && k in s.handlers && h != k :: s.handlers[h].id != s.handlers[k].id)
    && (!s.up ==> s.handlers == map[] && s.active == {})
  }

  // ----- capacity

  lemma {:induction false} UsedBySplit(st: Store, keys: set<Id>, k: Id)
    requires keys <= st.results.Keys && k in keys
    ensures UsedBy(st, keys) == Weight(st, k) + UsedBy(st, keys - {k})
    decreases keys
  {
    var j :| j in keys && UsedBy(st, keys) == Weight(st, j) + UsedBy(st, keys - {j});
    if j != k {
      UsedBySplit(st, keys - {j}, k);
      UsedBySplit(st, keys - {k}, j);
      assert keys - {j} - {k} == keys - {k} - {j};
    }
  }

  /** Fewer and lighter entries use no more. */
  lemma {:induction false} LighterUsesLess(st: Store, keys: set<Id>, st': Store, keys': set<Id>)
    requires keys <= st.results.Keys && keys' <= st'.results.Keys && keys' <= keys
    requires forall k | k in keys' :: Weight(st', k) <= Weight(st, k)
    ensures UsedBy(st', keys') <= UsedBy(st, keys)
    decreases keys
  {
    if keys != {} {
      var k :| k in keys;
      UsedBySplit(st, keys, k);
      if k in keys' {
        UsedBySplit(st', keys', k);
        LighterUsesLess(st, keys - {k}, st', keys' - {k});
      } else {
        LighterUsesLess(st, keys - {k}, st', keys');
      }
    }
  }

  lemma ReserveFits(st: Store, id: Id, capacity: nat)
    requires StoreSafe(st, capacity) && CanReserve(st, id, capacity)
    ensures StoreSafe(Reserve(st, id), capacity)
  {
    var st' := Reserve(st, id);
    UsedBySplit(st', st'.results.Keys, id);
    assert st'.results.Keys - {id} == st.results.Keys;
    LighterUsesLess(st, st.results.Keys, st', st.results.Keys);
  }

  /** No transaction other than a reservation makes the store heavier. */
  lemma OthersOnlyLighten(st: Store, st': Store, capacity: nat)
    requires StoreSafe(st, capacity)
    requires st'.results.Keys <= st.results.Keys
    requires st'.containers <= st'.recovery <= st'.results.Keys
    requires forall k | k in st'.results :: st'.results[k] <= MAX_RESULT_BYTES && Weight(st', k) <= Weight(st, k)
    ensures StoreSafe(st', capacity)
  {
    LighterUsesLess(st, st.results.Keys, st', st'.results.Keys);
  }

  // ----- every step keeps the invariant

  lemma RequestKeepsInv(s: State, capacity: nat, h: nat, id: Id, commit: Commit)
    requires Inv(s, capacity) && OnRequest(s, capacity, h, id, commit).Some?
    ensures Inv(OnRequest(s, capacity, h, id, commit).value, capacity)
  {
    if CanReserve(s.store, id, capacity) {
      ReserveFits(s.store, id, capacity);
    }
  }

  lemma LeaveKeepsInv(s: State, capacity: nat, h: nat)
    requires Inv(s, capacity) && h in s.handlers
    ensures Inv(Leave(s, h), capacity)
  {
  }

  /** A stage change of one handler, with a store change confined to its identifier. */
  lemma AdvanceKeepsInv(s: State, capacity: nat, h: nat, st': Store, stage: Stage, ran': set<Id>)
    requires Inv(s, capacity) && h in s.handlers
    requires
      var id := s.handlers[h].id;
      && st'.results.Keys == s.store.results.Keys
      && (forall k | k in st'.results && k != id :: st'.results[k] == s.store.results[k])
      && st'.recovery - {id} == s.store.recovery - {id} && st'.containers - {id} == s.store.containers - {id}
      && ran' - {id} == s.ran - {id} && st'.results[id] <= MAX_RESULT_BYTES
      && st'.containers <= st'.recovery <= st'.results.Keys
      && Weight(st', id) <= Weight(s.store, id)
      && HandlerSafe(s.(store := st', ran := ran'), Handler(id, stage))
    ensures Inv(At(s.(store := st', ran := ran'), h, stage), capacity)
  {
    var id := s.handlers[h].id;
    forall k | k in st'.results ensures st'.results[k] <= MAX_RESULT_BYTES && Weight(st', k) <= Weight(s.store, k) {
      assert k != id ==> (k in st'.recovery <==> k in st'.recovery - {id}) && (k in s.store.recovery <==> k in s.store.recovery - {id});
    }
    OthersOnlyLighten(s.store, st', capacity);
    var s' := At(s.(store := st', ran := ran'), h, stage);
    forall k | k in s'.handlers ensures HandlerSafe(s', s'.handlers[k]) {
      var j := s'.handlers[k].id;
      if k != h {
        assert HandlerSafe(s, s.handlers[k]);
        assert j in st'.recovery - {id} <==> j in s.store.recovery - {id};
        assert j in st'.containers - {id} <==> j in s.store.containers - {id};
        assert j in ran' - {id} <==> j in s.ran - {id};
      }
    }
    assert forall j | j in ran' :: j == id || j in ran' - {id};
  }

  lemma RefuseKeepsInv(s: State, capacity: nat, h: nat, commit: Commit)
    requires Inv(s, capacity) && Standing(s, h, {Admitted, Refusing})
    ensures Inv(OnRefuse(s, h, commit), capacity)
  {
    LeaveKeepsInv(s, capacity, h);
    var id := s.handlers[h].id;
    if CanDelete(s.store, id) && TakesEffect(commit) {
      OthersOnlyLighten(s.store, Delete(s.store, id), capacity);
    }
  }

  lemma PutRecoveryKeepsInv(s: State, capacity: nat, h: nat, commit: Commit)
    requires Inv(s, capacity) && Standing(s, h, {Admitted})
    ensures Inv(OnPutRecovery(s, h, commit), capacity)
  {
    var recorded := Record(s.store, s.handlers[h].id);
    match commit
    case Committed => AdvanceKeepsInv(s, capacity, h, recorded, Recorded, s.ran);
    case Lost => AdvanceKeepsInv(s, capacity, h, s.store, Refusing, s.ran);
    case HiddenCommit => AdvanceKeepsInv(s, capacity, h, recorded, Refusing, s.ran);
  }

  lemma SaveKeepsInv(s: State, capacity: nat, h: nat, len: nat, commit: Commit)
    requires Inv(s, capacity) && Standing(s, h, {Recorded, ContainerCreated, Started})
    ensures Inv(OnSave(s, h, len, commit), capacity)
  {
    var id := s.handlers[h].id;
    if CanSave(s.store, id, len) {
      AdvanceKeepsInv(s, capacity, h, Save(s.store, id, len), Saved, s.ran);
      LeaveKeepsInv(At(s.(store := Save(s.store, id, len)), h, Saved), capacity, h);
      assert At(s.(store := Save(s.store, id, len)), h, Saved).handlers - {h} == s.handlers - {h};
    }
    LeaveKeepsInv(s, capacity, h);
  }

  lemma FinishKeepsInv(s: State, capacity: nat, h: nat, commit: Commit)
    requires Inv(s, capacity) && Standing(s, h, {ContainerRemoved})
    ensures Inv(OnFinish(s, h, commit), capacity)
  {
    var id := s.handlers[h].id;
    LeaveKeepsInv(s, capacity, h);
    var s' := Leave(s, h);
    assert id !in s.store.containers;
    OthersOnlyLighten(s.store, Finish(s.store, id), capacity);
  }

  /** Recovery at startup and explicit deletes touch only identifiers nobody holds. */
  lemma UnheldKeepsInv(s: State, capacity: nat, st': Store, id: Id, ran': set<Id>)
    requires Inv(s, capacity) && id !in s.active
    requires StoreSafe(st', capacity) && ran' <= st'.results.Keys
    requires st'.results.Keys - {id} == s.store.results.Keys - {id}
    requires forall k | k in st'.results && k in s.store.results && k != id :: st'.results[k] == s.store.results[k]
    requires st'.recovery - {id} == s.store.recovery - {id} && st'.containers - {id} == s.store.containers - {id}
    requires ran' - {id} == s.ran - {id}
    ensures Inv(s.(store := st', ran := ran'), capacity)
  {
    var s' := s.(store := st', ran := ran');
    assert forall j | j in s.active :: j in s.store.results.Keys - {id};
    forall k | k in s'.handlers ensures HandlerSafe(s', s'.handlers[k]) {
      var j := s'.handlers[k].id;
      assert HandlerSafe(s, s.handlers[k]);
      assert j in st'.results.Keys - {id} <==> j in s.store.results.Keys - {id};
      assert j in st'.recovery - {id} <==> j in s.store.recovery - {id};
      assert j in st'.containers - {id} <==> j in s.store.containers - {id};
      assert j in ran' - {id} <==> j in s.ran - {id};
    }
  }

  lemma RecoverKeepsInv(s: State, capacity: nat, st': Store, id: Id)
    requires Inv(s, capacity) && !s.up && id in s.store.recovery
    requires
      || (exists len :: CanSave(s.store, id, len) && st' == Save(s.store, id, len))
      || (CanFinish(s.store, id) && st' == s.store.(containers := s.store.containers - {id}))
      || (CanFinish(s.store, id) && id !in s.store.containers && st' == Finish(s.store, id))
    ensures Inv(s.(store := st'), capacity)
  {
    OthersOnlyLighten(s.store, st', capacity);
    UnheldKeepsInv(s, capacity, st', id, s.ran);
  }

  lemma DeleteKeepsInv(s: State, capacity: nat, id: Id, commit: Commit)
    requires Inv(s, capacity) && s.up
    ensures Inv(OnDelete(s, id, commit), capacity)
  {
    var s' := OnDelete(s, id, commit);
    if s' != s {
      OthersOnlyLighten(s.store, s'.store, capacity);
      UnheldKeepsInv(s, capacity, s'.store, id, s'.ran);
    }
  }

  lemma ContainerKeepsInv(s: State, capacity: nat, h: nat, a: Action)
    requires Inv(s, capacity) && (a == CreateContainer(h) || a == RemoveContainer(h) || a == Start(h))
    requires Next(s, capacity, a).Some?
    ensures Inv(Next(s, capacity, a).value, capacity)
  {
    var id, st := s.handlers[h].id, s.store;
    match a
    case CreateContainer(_) =>
      AdvanceKeepsInv(s, capacity, h, st.(containers := st.containers + {id}), ContainerCreated, s.ran);
    case RemoveContainer(_) =>
      AdvanceKeepsInv(s, capacity, h, st.(containers := st.containers - {id}), ContainerRemoved, s.ran);
    case Start(_) =>
      AdvanceKeepsInv(s, capacity, h, st, Started, s.ran + {id});
  }

  lemma StepKeepsInv(s: State, capacity: nat, a: Action)
    requires Inv(s, capacity) && Next(s, capacity, a).Some?
    ensures Inv(Next(s, capacity, a).value, capacity)
  {
    match a
    case Request(h, id, commit) => RequestKeepsInv(s, capacity, h, id, commit);
    case Refuse(h, commit) => RefuseKeepsInv(s, capacity, h, commit);
    case PutRecovery(h, commit) => PutRecoveryKeepsInv(s, capacity, h, commit);
    case CreateContainer(h) => ContainerKeepsInv(s, capacity, h, a);
    case Start(h) => ContainerKeepsInv(s, capacity, h, a);
    case SaveResult(h, len, commit) => SaveKeepsInv(s, capacity, h, len, commit);
    case RemoveContainer(h) => ContainerKeepsInv(s, capacity, h, a);
    case FinishRecovery(h, commit) => FinishKeepsInv(s, capacity, h, commit);
    case GiveUp(h) => LeaveKeepsInv(s, capacity, h);
    case Crash =>
    case RecoverSave(id, len) => RecoverKeepsInv(s, capacity, Save(s.store, id, len), id);
    case RecoverRemove(id) => RecoverKeepsInv(s, capacity, s.store.(containers := s.store.containers - {id}), id);
    case RecoverFinish(id) => RecoverKeepsInv(s, capacity, Finish(s.store, id), id);
    case ComeUp =>
    case DeleteResult(id, commit) => DeleteKeepsInv(s, capacity, id, commit);
  }

  // ----- runs

  ghost function Run(s: State, capacity: nat, actions: seq<Action>): Option<State>
    decreases |actions|
  {
    if actions == [] then Some(s) else
    match Next(s, capacity, actions[0])
    case None => None
    case Some(s') => Run(s', capacity, actions[1..])
  }

  lemma {:induction false} RunKeepsInv(s: State, capacity: nat, actions: seq<Action>)
    requires Inv(s, capacity) && Run(s, capacity, actions).Some?
    ensures Inv(Run(s, capacity, actions).value, capacity)
    decreases |actions|
  {
    if actions != [] {
      StepKeepsInv(s, capacity, actions[0]);
      RunKeepsInv(Next(s, capacity, actions[0]).value, capacity, actions[1..]);
    }
  }

  ghost predicate Reachable(s: State, capacity: nat) {
    exists actions :: Run(EMPTY, capacity, actions) == Some(s)
  }

  lemma ReachableInv(s: State, capacity: nat)
    requires Reachable(s, capacity)
    ensures Inv(s, capacity)
  {
    var actions :| Run(EMPTY, capacity, actions) == Some(s);
    RunKeepsInv(EMPTY, capacity, actions);
  }

  /** An explicit delete takes the slot of `id` out of the store in this step. */
  ghost predicate Deletes(s: State, capacity: nat, a: Action, id: Id) {
    && a.DeleteResult? && id in s.store.results
    && Next(s, capacity, a).Some? && id !in Next(s, capacity, a).value.store.results
  }

  predicate Starts(s: State, a: Action, id: Id) {
    a.Start? && a.h in s.handlers && s.handlers[a.h].id == id
  }

  /** Some step of the run satisfies `Starts` (respectively `Deletes`) for `id`. */
  ghost predicate EverStarts(s: State, capacity: nat, actions: seq<Action>, id: Id)
    decreases |actions|
  {
    actions != [] && Next(s, capacity, actions[0]).Some? &&
    (Starts(s, actions[0], id) || EverStarts(Next(s, capacity, actions[0]).value, capacity, actions[1..], id))
  }

  ghost predicate EverDeletes(s: State, capacity: nat, actions: seq<Action>, id: Id)
    decreases |actions|
  {
    actions != [] && Next(s, capacity, actions[0]).Some? &&
    (Deletes(s, capacity, actions[0], id) || EverDeletes(Next(s, capacity, actions[0]).value, capacity, actions[1..], id))
  }

  lemma RanStays(s: State, capacity: nat, a: Action, id: Id)
    requires Inv(s, capacity) && Next(s, capacity, a).Some? && id in s.ran && !Deletes(s, capacity, a, id)
    ensures !Starts(s, a, id) && id in Next(s, capacity, a).value.ran
  {
    if a.Start? && a.h in s.handlers {
      assert HandlerSafe(s, s.handlers[a.h]);
    }
  }

  /**
   At most once. After a task's command has started, no interleaving of requests, refusals,
   store errors, daemon crashes and recoveries starts it again before somebody explicitly
   deletes that identifier.
   */
  lemma {:induction false} NeverReplayed(s: State, capacity: nat, actions: seq<Action>, id: Id)
    requires Inv(s, capacity) && id in s.ran && Run(s, capacity, actions).Some?
    ensures EverStarts(s, capacity, actions, id) ==> EverDeletes(s, capacity, actions, id)
    decreases |actions|
  {
    if actions != [] && !Deletes(s, capacity, actions[0], id) {
      RanStays(s, capacity, actions[0], id);
      StepKeepsInv(s, capacity, actions[0]);
      NeverReplayed(Next(s, capacity, actions[0]).value, capacity, actions[1..], id);
    }
  }

  /** The same from the very beginning: split any run at a start; what follows does not start again undeleted. */
  lemma AtMostOnceBetweenDeletes(capacity: nat, before: seq<Action>, start: Action, after: seq<Action>, id: Id)
    requires Run(EMPTY, capacity, before).Some?
    requires
      var s := Run(EMPTY, capacity, before).value;
      && Starts(s, start, id) && Next(s, capacity, start).Some?
      && Run(Next(s, capacity, start).value, capacity, after).Some?
    ensures
      var s' := Next(Run(EMPTY, capacity, before).value, capacity, start).value;
      EverStarts(s', capacity, after, id) ==> EverDeletes(s', capacity, after, id)
  {
    RunKeepsInv(EMPTY, capacity, before);
    var s := Run(EMPTY, capacity, before).value;
    StepKeepsInv(s, capacity, start);
    NeverReplayed(Next(s, capacity, start).value, capacity, after, id);
  }

  /**
   Write-ahead. A command starts only while its identifier is active, its slot reserved and
   its recovery record durable; containers never outlive their record; a record is
   discarded, and a container removed, only after the result is saved.
   */
  lemma ExecutionIsRecorded(s: State, capacity: nat, a: Action, id: Id)
    requires Reachable(s, capacity) && Next(s, capacity, a).Some?
    ensures Starts(s, a, id) ==>
      id in s.active && id in s.store.recovery && id in s.store.results && s.store.results[id] == 0 && id !in s.ran
    ensures s.store.containers <= s.store.recovery <= s.store.results.Keys && s.active <= s.store.results.Keys
    ensures
      var s' := Next(s, capacity, a).value;
      (id in s.store.recovery && id !in s'.store.recovery) || (id in s.store.containers && id !in s'.store.containers) ==>
        id in s.store.results && s.store.results[id] > 0
  {
    ReachableInv(s, capacity);
    if a.Start? && a.h in s.handlers {
      assert HandlerSafe(s, s.handlers[a.h]);
    }
    if a.RemoveContainer? || a.FinishRecovery? {
      assert HandlerSafe(s, s.handlers[a.h]);
    }
  }

  /** A saved result is immutable: only an explicit delete of that identifier removes or changes it. */
  lemma SavedResultsAreImmutable(s: State, capacity: nat, a: Action, id: Id)
    requires Reachable(s, capacity) && Next(s, capacity, a).Some?
    requires id in s.store.results && s.store.results[id] > 0
    ensures
      var s' := Next(s, capacity, a).value;
      Deletes(s, capacity, a, id) || (id in s'.store.results && s'.store.results[id] == s.store.results[id])
  {
    ReachableInv(s, capacity);
    if a.Refuse? {
      assert HandlerSafe(s, s.handlers[a.h]);
    }
  }

  /**
   A refused request gives up its own reservation and nothing else. The slot stays only if the
   store keeps it for a recovery record that did get written, or loses the delete.
   */
  lemma RefusalReleasesOnlyItsOwn(s: State, capacity: nat, h: nat, commit: Commit, other: Id)
    requires Reachable(s, capacity) && Next(s, capacity, Refuse(h, commit)).Some?
    ensures
      var s', id := Next(s, capacity, Refuse(h, commit)).value, s.handlers[h].id;
      && id !in s.ran && id !in s'.active
      && (id in s'.store.results <==> id in s.store.recovery || commit.Lost?)
      && s'.store.recovery == s.store.recovery && s'.store.containers == s.store.containers
      && (other != id ==>
            && (other in s'.active <==> other in s.active)
            && (other in s'.store.results <==> other in s.store.results)
            && (other in s.store.results ==> s'.store.results[other] == s.store.results[other]))
  {
    ReachableInv(s, capacity);
    assert HandlerSafe(s, s.handlers[h]);
  }

  ghost function Stored(results: map<Id, nat>, keys: set<Id>): nat
    requires keys <= results.Keys
  {
    if keys == {} then 0 else
    var k :| k in keys;
    results[k] + Stored(results, keys - {k})
  }

  /** Conservation: in every reachable state the retained results fit the configured capacity. */
  lemma ResultsFitCapacity(s: State, capacity: nat)
    requires Reachable(s, capacity)
    ensures Stored(s.store.results, s.store.results.Keys) <= capacity
  {
    ReachableInv(s, capacity);
    StoredWithinUsed(s.store, s.store.results.Keys);
  }

  lemma {:induction false} StoredWithinUsed(st: Store, keys: set<Id>)
    requires keys <= st.results.Keys && forall id | id in st.results :: st.results[id] <= MAX_RESULT_BYTES
    ensures Stored(st.results, keys) <= UsedBy(st, keys)
    decreases keys
  {
    if keys != {} {
      var k :| k in keys && Stored(st.results, keys) == st.results[k] + Stored(st.results, keys - {k});
      UsedBySplit(st, keys, k);
      StoredWithinUsed(st, keys - {k});
    }
  }

  // ----- what operations do achieve

  /** A request owns its identifier if and only if the identifier is new, there is room, and the commit is seen. */
  lemma RequestOwnsIff(s: State, capacity: nat, h: nat, id: Id, commit: Commit)
    requires Inv(s, capacity) && s.up && h !in s.handlers
    ensures Next(s, capacity, Request(h, id, commit)).Some?
    ensures
      var s' := Next(s, capacity, Request(h, id, commit)).value;
      var room := id !in s.store.results && UsedBy(s.store, s.store.results.Keys) + MAX_RESULT_BYTES <= capacity;
      && s'.store == (if room && !commit.Lost? then s.store.(results := s.store.results[id := 0]) else s.store)
      && s'.ran == s.ran && s'.up
      && (if room && commit.Committed?
          then id !in s.active && s'.active == s.active + {id} && s'.handlers == s.handlers[h := Handler(id, Admitted)]
          else s'.active == s.active && s'.handlers == s.handlers)
  {
  }

  /** A delete removes the slot if and only if nothing holds the identifier and the commit happens; nothing else changes. */
  lemma DeleteRemovesIff(s: State, capacity: nat, id: Id, commit: Commit)
    requires Reachable(s, capacity) && s.up && id in s.store.results
    ensures Next(s, capacity, DeleteResult(id, commit)).Some?
    ensures
      var s' := Next(s, capacity, DeleteResult(id, commit)).value;
      && (id !in s'.store.results <==> id !in s.active && id !in s.store.recovery && !commit.Lost?)
      && s'.store.results - {id} == s.store.results - {id} && s'.ran - {id} == s.ran - {id}
      && s' == s.(store := s.store.(results := s'.store.results), ran := s'.ran)
  {
    ReachableInv(s, capacity);
  }

  /**
   How the transactions of an owned identifier end. The store changes if and only if the
   commit happens; the request goes on if and only if it is also seen; an identifier whose
   request ends keeps its slot and, once recorded, its record until the result is saved.
   */
  lemma TransactionsEnd(s: State, capacity: nat, h: nat, len: nat, commit: Commit)
    requires Inv(s, capacity) && h in s.handlers
    ensures
      var id, gone := s.handlers[h].id, Leave(s, h);
      && (s.handlers[h].stage.Admitted? ==>
            Next(s, capacity, PutRecovery(h, commit)) == Some(
              var s' := if commit.Lost? then s else s.(store := s.store.(recovery := s.store.recovery + {id}));
              s'.(handlers := s.handlers[h := Handler(id, if commit.Committed? then Recorded else Refusing)])))
      && (s.handlers[h].stage.Started? && 0 < len <= MAX_RESULT_BYTES ==>
            Next(s, capacity, SaveResult(h, len, commit)) == Some(
              var st := if commit.Lost? then s.store else s.store.(results := s.store.results[id := len]);
              if commit.Committed? then s.(store := st, handlers := s.handlers[h := Handler(id, Saved)])
              else gone.(store := st)))
      && (s.handlers[h].stage.ContainerRemoved? ==>
            Next(s, capacity, FinishRecovery(h, commit)) == Some(
              gone.(store := if commit.Lost? then s.store else s.store.(recovery := s.store.recovery - {id}))))
      && (s.handlers[h].stage.Started? ==> Next(s, capacity, GiveUp(h)) == Some(gone) && id in gone.store.recovery)
      && gone == s.(handlers := s.handlers - {h}, active := s.active - {id})
  {
    assert HandlerSafe(s, s.handlers[h]);
  }

  /** The steps of a run in which nothing fails. */
  function Smooth(h: nat, id: Id, len: nat): seq<Action> {
    [Request(h, id, Committed), PutRecovery(h, Committed), CreateContainer(h), Start(h),
     SaveResult(h, len, Committed), RemoveContainer(h), FinishRecovery(h, Committed)]
  }

  lemma OneStep(s: State, capacity: nat, actions: seq<Action>, s': State)
    requires actions != [] && Next(s, capacity, actions[0]) == Some(s')
    ensures Run(s, capacity, actions) == Run(s', capacity, actions[1..])
  {
  }

  lemma SmoothStartSteps(s: State, capacity: nat, h: nat, id: Id) returns (s1: State, s2: State, s3: State, s4: State)
    requires Inv(s, capacity) && s.up && h !in s.handlers && id !in s.store.results
    requires UsedBy(s.store, s.store.results.Keys) + MAX_RESULT_BYTES <= capacity
    ensures Next(s, capacity, Request(h, id, Committed)) == Some(s1) && Next(s1, capacity, PutRecovery(h, Committed)) == Some(s2)
    ensures Next(s2, capacity, CreateContainer(h)) == Some(s3) && Next(s3, capacity, Start(h)) == Some(s4)
    ensures s4 == State(
      Store(s.store.results[id := 0], s.store.recovery + {id}, s.store.containers + {id}),
      s.active + {id}, s.handlers[h := Handler(id, Started)], true, s.ran + {id})
  {
    RequestOwnsIff(s, capacity, h, id, Committed);
    s1 := Next(s, capacity, Request(h, id, Committed)).value;
    s2 := Next(s1, capacity, PutRecovery(h, Committed)).value;
    s3 := Next(s2, capacity, CreateContainer(h)).value;
    s4 := Next(s3, capacity, Start(h)).value;
  }

  /** Up to the start of the command: the identifier is owned, reserved and recorded. */
  lemma SmoothStart(s: State, capacity: nat, h: nat, id: Id, rest: seq<Action>) returns (started: State)
    requires Inv(s, capacity) && s.up && h !in s.handlers && id !in s.store.results
    requires UsedBy(s.store, s.store.results.Keys) + MAX_RESULT_BYTES <= capacity
    ensures Run(s, capacity, [Request(h, id, Committed), PutRecovery(h, Committed), CreateContainer(h), Start(h)] + rest)
      == Run(started, capacity, rest)
    ensures started == State(
      Store(s.store.results[id := 0], s.store.recovery + {id}, s.store.containers + {id}),
      s.active + {id}, s.handlers[h := Handler(id, Started)], true, s.ran + {id})
  {
    hide Next, Run, Inv, UsedBy;
    var s1, s2, s3;
    s1, s2, s3, started := SmoothStartSteps(s, capacity, h, id);
    var a4 := [Start(h)] + rest;
    var a3 := [CreateContainer(h)] + a4;
    var a2 := [PutRecovery(h, Committed)] + a3;
    var a1 := [Request(h, id, Committed)] + a2;
    assert a1[1..] == a2 && a2[1..] == a3 && a3[1..] == a4 && a4[1..] == rest;
    OneStep(s, capacity, a1, s1);
    OneStep(s1, capacity, a2, s2);
    OneStep(s2, capacity, a3, s3);
    OneStep(s3, capacity, a4, started);
    assert a1 == [Request(h, id, Committed), PutRecovery(h, Committed), CreateContainer(h), Start(h)] + rest;
  }

  /** From the start to the end: the result is saved, then the container and the record go. */
  lemma SmoothEnd(s: State, capacity: nat, h: nat, len: nat) returns (ended: State)
    requires Standing(s, h, {Started}) && CanSave(s.store, s.handlers[h].id, len)
    ensures Run(s, capacity, [SaveResult(h, len, Committed), RemoveContainer(h), FinishRecovery(h, Committed)]) == Some(ended)
    ensures
      var id := s.handlers[h].id;
      ended == s.(
        store := Store(s.store.results[id := len], s.store.recovery - {id}, s.store.containers - {id}),
        active := s.active - {id}, handlers := s.handlers - {h})
  {
    var s1 := Next(s, capacity, SaveResult(h, len, Committed)).value;
    var s2 := Next(s1, capacity, RemoveContainer(h)).value;
    ended := Next(s2, capacity, FinishRecovery(h, Committed)).value;
    assert s.handlers[h := s.handlers[h].(stage := Saved)][h := s.handlers[h].(stage := ContainerRemoved)] - {h} == s.handlers - {h};
    hide Next;
    var a1 := [SaveResult(h, len, Committed), RemoveContainer(h), FinishRecovery(h, Committed)];
    OneStep(s, capacity, a1, s1);
    OneStep(s1, capacity, a1[1..], s2);
    OneStep(s2, capacity, a1[1..][1..], ended);
    assert a1[1..][1..][1..] == [];
  }

  /**
   A request that meets no failure runs its command once and leaves exactly its result behind;
   deleting that gives the store back as it was, with the identifier free again.
   */
  lemma SmoothRunLeavesItsResult(s: State, capacity: nat, h: nat, id: Id, len: nat)
    requires Inv(s, capacity) && s.up && h !in s.handlers && id !in s.store.results && 0 < len <= MAX_RESULT_BYTES
    requires UsedBy(s.store, s.store.results.Keys) + MAX_RESULT_BYTES <= capacity
    ensures Run(s, capacity, Smooth(h, id, len)) ==
      Some(s.(store := s.store.(results := s.store.results[id := len]), ran := s.ran + {id}))
    ensures
      var ended := s.(store := s.store.(results := s.store.results[id := len]), ran := s.ran + {id});
      Next(ended, capacity, DeleteResult(id, Committed)) == Some(s)
  {
    hide Run, UsedBy;
    var last := [SaveResult(h, len, Committed), RemoveContainer(h), FinishRecovery(h, Committed)];
    assert Smooth(h, id, len) == [Request(h, id, Committed), PutRecovery(h, Committed), CreateContainer(h), Start(h)] + last;
    assert id !in s.active && id !in s.store.recovery && id !in s.store.containers && id !in s.ran;
    var started := SmoothStart(s, capacity, h, id, last);
    var ended := SmoothEnd(started, capacity, h, len);
    DeleteUndoes(s, capacity, id, len);
    hide Next, Inv, Standing;
    assert s.store.results[id := 0][id := len] == s.store.results[id := len];
    assert s.store.recovery + {id} - {id} == s.store.recovery && s.store.containers + {id} - {id} == s.store.containers;
    assert s.active + {id} - {id} == s.active && s.handlers[h := Handler(id, Started)] - {h} == s.handlers;
  }

  lemma DeleteUndoes(s: State, capacity: nat, id: Id, len: nat)
    requires s.up && id !in s.store.results && id !in s.active && id !in s.store.recovery && id !in s.store.containers && id !in s.ran
    ensures
      var ended := s.(store := s.store.(results := s.store.results[id := len]), ran := s.ran + {id});
      Next(ended, capacity, DeleteResult(id, Committed)) == Some(s)
  {
    assert s.store.results[id := len] - {id} == s.store.results && s.ran + {id} - {id} == s.ran;
  }

  // ----- recovery always completes

  /** The daemon begins to serve only when nothing awaits recovery, and serving changes neither store nor history. */
  lemma ServesOnlyRecovered(s: State, capacity: nat, a: Action)
    requires Reachable(s, capacity) && Next(s, capacity, a).Some? && !s.up && Next(s, capacity, a).value.up
    ensures s.store.recovery == {} && s.store.containers == {} && Next(s, capacity, a).value == s.(up := true)
  {
    ReachableInv(s, capacity);
  }

  /** Recovering one identifier: a result if it has none, then its container and its record. */
  function RecoverOne(s: State, id: Id): seq<Action>
    requires id in s.store.results
  {
    (if s.store.results[id] == 0 then [RecoverSave(id, 1)] else []) + [RecoverRemove(id), RecoverFinish(id)]
  }

  function Recovered(s: State, id: Id): State
    requires id in s.store.results
  {
    s.(store := Store(if s.store.results[id] == 0 then s.store.results[id := 1] else s.store.results,
                      s.store.recovery - {id}, s.store.containers - {id}))
  }

  /** A result for the identifier, if it has none yet. */
  function WithResult(s: State, id: Id): State
    requires id in s.store.results
  {
    if s.store.results[id] == 0 then s.(store := Save(s.store, id, 1)) else s
  }

  function WithoutContainer(s: State, id: Id): State { s.(store := s.store.(containers := s.store.containers - {id})) }

  lemma RecoverSteps(s: State, capacity: nat, id: Id)
    requires !s.up && id in s.store.recovery && id in s.store.results
    ensures
      var s1 := WithResult(s, id);
      && (s.store.results[id] == 0 ==> Next(s, capacity, RecoverSave(id, 1)) == Some(s1))
      && Next(s1, capacity, RecoverRemove(id)) == Some(WithoutContainer(s1, id))
      && Next(WithoutContainer(s1, id), capacity, RecoverFinish(id)) == Some(Recovered(s, id))
  {
  }

  lemma RecoverOneRuns(s: State, capacity: nat, id: Id, rest: seq<Action>)
    requires !s.up && id in s.store.recovery && id in s.store.results
    ensures Run(s, capacity, RecoverOne(s, id) + rest) == Run(Recovered(s, id), capacity, rest)
  {
    RecoverSteps(s, capacity, id);
    var s1 := WithResult(s, id);
    var s2 := WithoutContainer(s1, id);
    assert s.store.results[id] != 0 ==> s1 == s;
    hide Next, Run, Recovered, WithResult, WithoutContainer;
    var a3 := [RecoverFinish(id)] + rest;
    var a2 := [RecoverRemove(id)] + a3;
    assert a2[1..] == a3 && a3[1..] == rest;
    OneStep(s1, capacity, a2, s2);
    OneStep(s2, capacity, a3, Recovered(s, id));
    if s.store.results[id] == 0 {
      var a1 := [RecoverSave(id, 1)] + a2;
      assert a1[1..] == a2 && RecoverOne(s, id) + rest == a1;
      OneStep(s, capacity, a1, s1);
    } else {
      assert RecoverOne(s, id) + rest == a2;
    }
  }

  /** What a finished start-up leaves: no record, no container, every result that was saved, one for every interrupted task. */
  ghost predicate Restored(s: State, s': State) {
    && s'.up && s'.store.recovery == {} && s'.store.containers == {} && s'.active == {} && s'.handlers == map[]
    && s'.ran == s.ran && s'.store.results.Keys == s.store.results.Keys
    && (forall id | id in s.store.results && (s.store.results[id] > 0 || id !in s.store.recovery) ::
          s'.store.results[id] == s.store.results[id])
    && (forall id | id in s.store.recovery && id in s.store.results :: s'.store.results[id] > 0)
  }

  /** A crash loses only what was in memory. */
  lemma CrashKeepsTheStore(s: State, capacity: nat)
    ensures Next(s, capacity, Crash) == Some(State(s.store, {}, map[], false, s.ran))
  {
  }

  /** From any crash, start-up can always finish, without starting a command. */
  lemma {:induction false} RecoveryCompletes(s: State, capacity: nat) returns (actions: seq<Action>)
    requires Inv(s, capacity) && !s.up
    ensures Run(s, capacity, actions).Some? && Restored(s, Run(s, capacity, actions).value)
    ensures forall i | 0 <= i < |actions| :: !actions[i].Start?
    decreases |s.store.recovery|
  {
    if s.store.recovery == {} {
      actions := [ComeUp];
      OneStep(s, capacity, actions, s.(up := true));
    } else {
      var id :| id in s.store.recovery;
      var s' := Recovered(s, id);
      RecoveredKeepsInv(s, capacity, id);
      hide Inv, Run, Restored, Next;
      var rest := RecoveryCompletes(s', capacity);
      actions := RecoverOne(s, id) + rest;
      RecoverOneRuns(s, capacity, id, rest);
      RestoredOnward(s, id, Run(s', capacity, rest).value);
    }
  }

  lemma RestoredOnward(s: State, id: Id, last: State)
    requires id in s.store.recovery && id in s.store.results && Restored(Recovered(s, id), last)
    ensures Restored(s, last)
  {
  }

  lemma RecoveredKeepsInv(s: State, capacity: nat, id: Id)
    requires Inv(s, capacity) && !s.up && id in s.store.recovery
    ensures id in s.store.results && !Recovered(s, id).up
    ensures Inv(Recovered(s, id), capacity) && |Recovered(s, id).store.recovery| < |s.store.recovery|
  {
    var st' := Recovered(s, id).store;
    OthersOnlyLighten(s.store, st', capacity);
  }
}
