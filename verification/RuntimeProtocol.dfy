/**
 Any number of runtimes over one pipe and one store. Each has a process lock, a guard and any number
 of cleanups under way; a step is what happens between two awaits, and steps come in any order.

 Two runtimes never both pass the local check, and no order of an older generation is sent after a
 newer generation has been persisted.
 */
module RuntimeProtocol {
  import opened Basics
  import opened OwnershipStore
  import opened OwnershipGuard
  import opened ProcessLock

  const TTL := 45000

  /** The three ways to give a runtime up. */
  datatype Path = Shutdown | StartupFailure | Scoped

  datatype Stage = Entered | Fenced | Waited(quiesced: bool) | Finished

  datatype Cleanup = Cleanup(path: Path, stage: Stage)

  /** How far the only acquisition of a guard has come. */
  datatype Acquisition = Idle | Asked | Stored(row: OwnershipRecord, takenOver: bool) | Settled

  datatype Runtime = Runtime(
    ownerToken: string,
    lock: Lock,
    guard: Option<Guard>,
    acquisition: Acquisition,
    abandoned: bool,
    cleanups: seq<Cleanup>)

  datatype TraceEvent = Persisted(generation: nat) | Executed(id: nat, generation: nat)

  datatype World = World(pipe: Option<nat>, runtimes: map<nat, Runtime>, store: Store, trace: seq<TraceEvent>)

  const EMPTY_WORLD := World(None, map[], EMPTY_STORE, [])

  datatype Step =
    | Launch(ownerToken: string)
    | ListenerClosed
    | ListenerFailed
    | PipeFreed
    | ReleaseAnswered(failed: bool)
    | CreateGuard
    | AbandonSetup
    | Reserve
    | Persist(mode: string, at: int)
    | Settle
    | Lost(reason: string)
    | CheckLocally(now: int)
    | CheckPersistedRow(expected: OwnershipRecord, persisted: Option<OwnershipRecord>, at: int, now: int)
    | Extend(at: int)
    | Renewed(renewed: OwnershipRecord)
    | GiveUpRow(at: int)
    | RecordLoss(reason: string, at: int)
    | Send(input: SendInput, state: Option<ExecutionState>, now: int, later: int)
    | EnterCleanup(path: Path)
    | Fence(k: nat)
    | Wait(k: nat, quiesced: bool)
    | Free(k: nat)

  function FenceReason(path: Path): string {
    match path
    case Shutdown => "RUNTIME_SHUTDOWN"
    case StartupFailure => "STARTUP_FAILED"
    case Scoped => "SCOPED_WORK_COMPLETE"
  }

  /** Whether a cleanup goes on to free the process lock: only Shutdown looks at quiescence. */
  predicate FreesLock(c: Cleanup, g: Guard) {
    c.stage.Waited? &&
    match c.path
    case Shutdown => c.stage.quiesced
    case StartupFailure => true
    case Scoped => g.lossReason != Some("SCOPED_WORK_QUIESCENCE_FAILED")
  }

  // ---------------------------------------------------------------------------------------------
  // Steps of one runtime
  // ---------------------------------------------------------------------------------------------

  /** The guard hears of a lock that has been lost, in the same step. */
  function Hear(r: Runtime, lock: Lock): Runtime {
    if r.lock.held && !lock.held && r.guard.Some?
    then r.(lock := lock, guard := Some(Lose(r.guard.value, "PROCESS_LOCK_LOST")))
    else r.(lock := lock)
  }

  /** The steps that touch nothing but the runtime; None if the step cannot be taken. */
  function Local(r: Runtime, step: Step): Option<Runtime> {
    match step
    case ListenerFailed => Some(Hear(r, HandleError(r.lock)))
    case ReleaseAnswered(failed) => if r.lock.releaseInProgress then Some(r.(lock := FinishRelease(r.lock, failed))) else None
    case CreateGuard => if r.guard.None? && !r.abandoned then Some(r.(guard := Some(Created(r.lock.held)))) else None
    case AbandonSetup => if r.guard.None? then Some(r.(abandoned := true, lock := BeginRelease(r.lock))) else None
    case _ => if r.guard.None? then None else Guarded(r, r.guard.value, step)
  }

  function Guarded(r: Runtime, g: Guard, step: Step): Option<Runtime> {
    match step
    case Reserve =>
      var (h, reply) := BeginAcquire(g, r.lock.held);
      Some(r.(guard := Some(h), acquisition := if reply.Ok? then Asked else r.acquisition))
    case Settle =>
      if r.acquisition.Stored? then
        Some(r.(guard := Some(FinishAcquire(g, r.acquisition.row, r.acquisition.takenOver, r.lock.held).0), acquisition := Settled))
      else None
    case Lost(reason) => if IsReasonCode(reason) then Some(r.(guard := Some(Lose(g, reason)))) else None
    case CheckLocally(now) => Some(r.(guard := Some(AssertLocallyHeld(g, r.lock.held, now).0)))
    case CheckPersistedRow(expected, persisted, at, now) =>
      if g.record.Some? && SameOwnership(g.record.value, Some(expected)) then
        Some(r.(guard := Some(FinishAssertCurrent(g, expected, persisted, at, r.lock.held, now).0)))
      else None
    case Renewed(renewed) => Some(r.(guard := Some(AcceptRenewal(g, renewed).0)))
    case EnterCleanup(path) => Some(r.(cleanups := r.cleanups + [Cleanup(path, Entered)]))
    case Fence(k) =>
      if k < |r.cleanups| && r.cleanups[k].stage.Entered? then
        Some(r.(guard := Some(Lose(g, FenceReason(r.cleanups[k].path))), cleanups := r.cleanups[k := r.cleanups[k].(stage := Fenced)]))
      else None
    case Wait(k, quiesced) =>
      if k < |r.cleanups| && r.cleanups[k].stage.Fenced? then
        var h := if r.cleanups[k].path.Shutdown? && !quiesced then Lose(g, "RUNTIME_WORK_QUIESCENCE_FAILED") else g;
        Some(r.(guard := Some(h), cleanups := r.cleanups[k := r.cleanups[k].(stage := Waited(quiesced))]))
      else None
    case Free(k) =>
      if k < |r.cleanups| && r.cleanups[k].stage.Waited? then
        var lock := if FreesLock(r.cleanups[k], g) then BeginRelease(r.lock) else r.lock;
        Some(r.(lock := lock, cleanups := r.cleanups[k := r.cleanups[k].(stage := Finished)]))
      else None
    case _ => None
  }

  // ---------------------------------------------------------------------------------------------
  // Steps of the world
  // ---------------------------------------------------------------------------------------------

  function Put(w: World, id: nat, r: Runtime): World { w.(runtimes := w.runtimes[id := r]) }

  function Next(w: World, id: nat, step: Step): Option<World> {
    if step.Launch? then
      if id in w.runtimes || w.pipe.Some? then None
      else Some(Put(w, id, Runtime(step.ownerToken, BOUND, None, Idle, false, [])).(pipe := Some(id)))
    else if id !in w.runtimes then None
    else Act(w, id, w.runtimes[id], step)
  }

  function Act(w: World, id: nat, r: Runtime, step: Step): Option<World> {
    match step
    case ListenerClosed =>
      var closed := Put(w, id, Hear(r, HandleClose(r.lock)));
      Some(if w.pipe == Some(id) then closed.(pipe := None) else closed)
    case PipeFreed =>
      if r.lock.asked && w.pipe == Some(id) then Some(w.(pipe := None)) else None
    case Persist(mode, at) =>
      if r.acquisition.Asked? then
        var (store, reply) := Acquire(w.store, r.ownerToken, mode, at, at + TTL);
        if reply.Refused? then Some(w)
        else Some(Put(w, id, r.(acquisition := Stored(reply.value, w.store.current.Some?)))
                  .(store := store, trace := w.trace + [Persisted(reply.value.generation)]))
      else None
    case Extend(at) => WithRecord(w, r, (record: OwnershipRecord) => Renew(w.store, r.ownerToken, record.generation, at, at + TTL).0)
    case GiveUpRow(at) => WithRecord(w, r, (record: OwnershipRecord) => Release(w.store, r.ownerToken, record.generation, at).0)
    case RecordLoss(reason, at) => WithRecord(w, r, (record: OwnershipRecord) => RecordLost(w.store, r.ownerToken, record.generation, reason, at).0)
    case Send(input, state, now, later) =>
      if r.guard.None? then None
      else
        var (h, sent) := RunWithAuthority(r.guard.value, input, w.store.current, state, r.lock.held, now, later);
        var next := Put(w, id, r.(guard := Some(h)));
        Some(if sent.Ok? then next.(trace := w.trace + [Executed(id, sent.value.generation)]) else next)
    case _ =>
      var next := Local(r, step);
      if next.Some? then Some(Put(w, id, next.value)) else None
  }

  /** A transaction of the store under the generation of the runtime's record. */
  function WithRecord(w: World, r: Runtime, transaction: OwnershipRecord -> Store): Option<World> {
    if r.guard.Some? && r.guard.value.record.Some? then Some(w.(store := transaction(r.guard.value.record.value))) else None
  }

  /** A run: who steps, and how. */
  function Run(w: World, steps: seq<(nat, Step)>): Option<World> {
    if steps == [] then Some(w)
    else
      var before :- Run(w, steps[..|steps| - 1]);
      Next(before, steps[|steps| - 1].0, steps[|steps| - 1].1)
  }

  ghost predicate Reachable(w: World) { exists steps :: Run(EMPTY_WORLD, steps) == Some(w) }

  // ---------------------------------------------------------------------------------------------
  // The invariant
  // ---------------------------------------------------------------------------------------------

  predicate IsLost(r: Runtime) { r.guard.Some? && r.guard.value.status == Status.Lost }

  /** Events stop, and a release is under way, only when it has been asked for. */
  predicate LockOk(l: Lock) { l.releaseInProgress || !l.attached ==> l.asked }

  /** The lock is freed only behind a fence, and a cleanup past its fence has a lost guard. */
  ghost predicate RuntimeOk(r: Runtime) {
    (r.guard.Some? ==> GuardOk(r.guard.value) && !r.abandoned) &&
    (r.guard.None? ==> r.acquisition.Idle? && r.cleanups == []) &&
    LockOk(r.lock) && (r.lock.asked ==> r.abandoned || IsLost(r)) &&
    (forall k :: 0 <= k < |r.cleanups| && !r.cleanups[k].stage.Entered? ==> IsLost(r)) &&
    (r.guard.Some? ==> AcquisitionOk(r.acquisition, r.guard.value))
  }

  ghost predicate AcquisitionOk(a: Acquisition, g: Guard) {
    (a.Asked? || a.Stored? ==> g.reserved) && (!a.Settled? ==> g.record.None? && g.status != Owned)
  }

  /** Who believes to hold the lock, and has not asked to free it, holds the pipe. */
  ghost predicate HoldsPipe(w: World, id: nat, r: Runtime) {
    r.lock.held && !r.lock.asked ==> w.pipe == Some(id)
  }

  ghost predicate TraceOk(trace: seq<TraceEvent>, store: Store) {
    TraceOrdered(trace) && forall e :: e in trace ==> e.generation <= Newest(store)
  }

  /** Generations never go back along the trace, and a persisted one is new. */
  ghost predicate TraceOrdered(trace: seq<TraceEvent>) {
    forall i, j :: 0 <= i < j < |trace| ==>
      trace[i].generation <= trace[j].generation && (trace[j].Persisted? ==> trace[i].generation < trace[j].generation)
  }

  ghost predicate WorldOk(w: World) {
    StoreOk(w.store) && TraceOk(w.trace, w.store) &&
    forall id :: id in w.runtimes ==> RuntimeOk(w.runtimes[id]) && HoldsPipe(w, id, w.runtimes[id])
  }

  // ---------------------------------------------------------------------------------------------
  // Every step keeps it
  // ---------------------------------------------------------------------------------------------

  /** r may become s without a new claim to the pipe. */
  ghost predicate Calm(r: Runtime, s: Runtime) {
    RuntimeOk(s) && (s.lock.held ==> r.lock.held) && (r.lock.asked ==> s.lock.asked)
  }

  lemma GuardChange(r: Runtime, h: Guard)
    requires RuntimeOk(r) && r.guard.Some?
    requires GuardOk(h) && Follows(r.guard.value, h) && AcquisitionOk(r.acquisition, h)
    ensures Calm(r, r.(guard := Some(h)))
  {
  }

  lemma HearKeeps(r: Runtime, lock: Lock)
    requires RuntimeOk(r) && LockOk(lock) && (lock.held ==> r.lock.held) && lock.asked == r.lock.asked
    ensures Calm(r, Hear(r, lock))
  {
    if r.guard.Some? { LoseFollows(r.guard.value, "PROCESS_LOCK_LOST"); }
  }

  lemma AcquisitionKeeps(r: Runtime, step: Step)
    requires RuntimeOk(r) && r.guard.Some? && (step.Reserve? || step.Settle?) && Guarded(r, r.guard.value, step).Some?
    ensures Calm(r, Guarded(r, r.guard.value, step).value)
  {
    var row := if r.acquisition.Stored? then r.acquisition.row else OwnershipRecord("", 0, "", 0, 0, 0);
    var takenOver := r.acquisition.Stored? && r.acquisition.takenOver;
    AcquireFollows(r.guard.value, row, takenOver, r.lock.held);
  }

  lemma UseKeeps(r: Runtime, step: Step)
    requires RuntimeOk(r) && r.guard.Some?
    requires step.Lost? || step.CheckLocally? || step.CheckPersistedRow? || step.Renewed?
    requires Guarded(r, r.guard.value, step).Some?
    ensures Calm(r, Guarded(r, r.guard.value, step).value)
  {
    hide RuntimeOk;
    var g := r.guard.value;
    var h := Guarded(r, g, step).value.guard.value;
    RuntimeParts(r);
    match step {
      case Lost(reason) => LoseFollows(g, reason);
      case CheckLocally(now) =>
        LoseFollows(g, "PROCESS_LOCK_LOST");
        LoseFollows(g, "OWNERSHIP_EXPIRED");
      case CheckPersistedRow(expected, persisted, at, now) =>
        UseFollows(g, expected, persisted, at, r.lock.held, now);
        CheckKeepsRecord(g, expected, persisted, at, r.lock.held, now);
      case Renewed(renewed) =>
        UseFollows(g, renewed, Some(renewed), 0, r.lock.held, 0);
    }
    GuardChange(r, h);
  }

  lemma RuntimeParts(r: Runtime)
    requires RuntimeOk(r) && r.guard.Some?
    ensures GuardOk(r.guard.value) && AcquisitionOk(r.acquisition, r.guard.value)
  {
  }

  lemma CheckKeepsRecord(g: Guard, expected: OwnershipRecord, persisted: Option<OwnershipRecord>, at: int, lockHeld: bool, now: int)
    requires g.record.Some?
    ensures FinishAssertCurrent(g, expected, persisted, at, lockHeld, now).0.record.Some?
  {
  }

  lemma CleanupKeeps(r: Runtime, step: Step)
    requires RuntimeOk(r) && r.guard.Some?
    requires step.EnterCleanup? || step.Fence? || step.Wait? || step.Free?
    requires Guarded(r, r.guard.value, step).Some?
    ensures Calm(r, Guarded(r, r.guard.value, step).value)
  {
    hide Lose;
    if step.Fence? { LoseFollows(r.guard.value, FenceReason(r.cleanups[step.k].path)); }
    LoseFollows(r.guard.value, "RUNTIME_WORK_QUIESCENCE_FAILED");
  }

  lemma LocalKeeps(r: Runtime, step: Step)
    requires RuntimeOk(r) && Local(r, step).Some?
    ensures Calm(r, Local(r, step).value)
  {
    hide Guarded;
    match step {
      case ListenerFailed => HearKeeps(r, HandleError(r.lock));
      case ReleaseAnswered(_) =>
      case CreateGuard =>
      case AbandonSetup =>
      case Reserve => AcquisitionKeeps(r, step);
      case Settle => AcquisitionKeeps(r, step);
      case EnterCleanup(_) => CleanupKeeps(r, step);
      case Fence(_) => CleanupKeeps(r, step);
      case Wait(_, _) => CleanupKeeps(r, step);
      case Free(_) => CleanupKeeps(r, step);
      case Lost(_) => UseKeeps(r, step);
      case CheckLocally(_) => UseKeeps(r, step);
      case CheckPersistedRow(_, _, _, _) => UseKeeps(r, step);
      case Renewed(_) => UseKeeps(r, step);
      case _ => GuardedNone(r, step);
    }
  }

  lemma GuardedNone(r: Runtime, step: Step)
    requires r.guard.Some?
    requires step.Launch? || step.ListenerClosed? || step.PipeFreed? || step.Persist? || step.Extend? || step.GiveUpRow? || step.RecordLoss? || step.Send?
    ensures Guarded(r, r.guard.value, step).None?
  {
  }

  /** A calm change of one runtime. */
  lemma PutKeeps(w: World, id: nat, r: Runtime)
    requires WorldOk(w) && id in w.runtimes && Calm(w.runtimes[id], r)
    ensures WorldOk(Put(w, id, r))
  {
    hide RuntimeOk, TraceOk, StoreOk;
    var x := Put(w, id, r);
    forall k | k in x.runtimes ensures RuntimeOk(x.runtimes[k]) && HoldsPipe(x, k, x.runtimes[k]) {
      if k != id { assert RuntimeOk(w.runtimes[k]) && HoldsPipe(w, k, w.runtimes[k]); }
    }
  }

  /** The pipe is freed by a runtime that has no claim to it. */
  lemma FreeKeeps(w: World, id: nat)
    requires WorldOk(w) && w.pipe == Some(id)
    requires id in w.runtimes ==> !(w.runtimes[id].lock.held && !w.runtimes[id].lock.asked)
    ensures WorldOk(w.(pipe := None))
  {
    hide RuntimeOk, TraceOk, StoreOk;
    var x := w.(pipe := None);
    forall k | k in x.runtimes ensures RuntimeOk(x.runtimes[k]) && HoldsPipe(x, k, x.runtimes[k]) {
      assert RuntimeOk(w.runtimes[k]) && HoldsPipe(w, k, w.runtimes[k]);
    }
  }

  lemma LaunchKeeps(w: World, id: nat, ownerToken: string)
    requires WorldOk(w) && id !in w.runtimes && w.pipe.None?
    ensures WorldOk(Put(w, id, Runtime(ownerToken, BOUND, None, Idle, false, [])).(pipe := Some(id)))
  {
    var r := Runtime(ownerToken, BOUND, None, Idle, false, []);
    assert RuntimeOk(r);
    hide RuntimeOk, TraceOk, StoreOk;
    var x := Put(w, id, r).(pipe := Some(id));
    forall k | k in x.runtimes ensures RuntimeOk(x.runtimes[k]) && HoldsPipe(x, k, x.runtimes[k]) {
      if k != id { assert RuntimeOk(w.runtimes[k]) && HoldsPipe(w, k, w.runtimes[k]); }
    }
  }

  lemma TransactionKeeps(w: World, store: Store, trace: seq<TraceEvent>)
    requires WorldOk(w) && StoreOk(store) && TraceOk(trace, store)
    ensures WorldOk(w.(store := store, trace := trace))
  {
    hide RuntimeOk, TraceOk, StoreOk;
    var x := w.(store := store, trace := trace);
    forall k | k in x.runtimes ensures RuntimeOk(x.runtimes[k]) && HoldsPipe(x, k, x.runtimes[k]) {
      assert RuntimeOk(w.runtimes[k]) && HoldsPipe(w, k, w.runtimes[k]);
    }
  }

  lemma TraceGrows(w: World, store: Store, e: TraceEvent)
    requires TraceOk(w.trace, w.store) && Newest(w.store) <= Newest(store) && e.generation == Newest(store)
    requires e.Persisted? ==> Newest(w.store) < e.generation
    ensures TraceOk(w.trace + [e], store)
  {
    hide Newest;
    var t := w.trace + [e];
    forall i, j | 0 <= i < j < |t|
      ensures t[i].generation <= t[j].generation && (t[j].Persisted? ==> t[i].generation < t[j].generation)
    {
      if j == |w.trace| { assert w.trace[i] in w.trace; } else { assert t[j] == w.trace[j]; }
    }
  }

  lemma TraceStays(w: World, store: Store)
    requires TraceOk(w.trace, w.store) && Newest(w.store) <= Newest(store)
    ensures TraceOk(w.trace, store)
  {
    hide Newest, TraceOrdered;
  }

  lemma PersistKeeps(w: World, id: nat, mode: string, at: int)
    requires WorldOk(w) && id in w.runtimes && w.runtimes[id].acquisition.Asked?
    ensures Act(w, id, w.runtimes[id], Persist(mode, at)).Some? && WorldOk(Act(w, id, w.runtimes[id], Persist(mode, at)).value)
  {
    hide StoreOk, TraceOk, Newest, Acquire, WorldOk;
    var r := w.runtimes[id];
    WorldParts(w, id);
    AcquireGrows(w.store, r.ownerToken, mode, at, at + TTL);
    var (store, reply) := Acquire(w.store, r.ownerToken, mode, at, at + TTL);
    if reply.Reply? {
      var s := r.(acquisition := Stored(reply.value, w.store.current.Some?));
      assert Calm(r, s);
      TraceGrows(w, store, Persisted(reply.value.generation));
      TransactionKeeps(w, store, w.trace + [Persisted(reply.value.generation)]);
      var x := w.(store := store, trace := w.trace + [Persisted(reply.value.generation)]);
      PutKeeps(x, id, s);
      assert Put(x, id, s) == Put(w, id, s).(store := store, trace := w.trace + [Persisted(reply.value.generation)]);
    }
  }

  lemma WorldParts(w: World, id: nat)
    requires WorldOk(w) && id in w.runtimes
    ensures StoreOk(w.store) && TraceOk(w.trace, w.store) && RuntimeOk(w.runtimes[id]) && HoldsPipe(w, id, w.runtimes[id])
  {
    hide RuntimeOk, TraceOk, StoreOk, HoldsPipe;
  }

  lemma RowKeeps(w: World, id: nat, step: Step)
    requires WorldOk(w) && id in w.runtimes && (step.Extend? || step.GiveUpRow? || step.RecordLoss?)
    requires Act(w, id, w.runtimes[id], step).Some?
    ensures WorldOk(Act(w, id, w.runtimes[id], step).value)
  {
    hide StoreOk, TraceOk, Newest, Renew, Release, RecordLost, RuntimeOk, HoldsPipe, WorldOk;
    var r := w.runtimes[id];
    WorldParts(w, id);
    var g := r.guard.value.record.value.generation;
    var store := Act(w, id, r, step).value.store;
    match step {
      case Extend(at) => RenewKeeps(w.store, r.ownerToken, g, at, at + TTL);
      case GiveUpRow(at) => ReleaseKeeps(w.store, r.ownerToken, g, at);
      case RecordLoss(reason, at) => RecordLostKeeps(w.store, r.ownerToken, g, reason, at);
    }
    TraceStays(w, store);
    TransactionKeeps(w, store, w.trace);
    assert w.(store := store, trace := w.trace) == w.(store := store);
  }

  /** An order is sent by a runtime with the newest generation of all, while it holds the pipe. */
  lemma SendKeeps(w: World, id: nat, step: Step)
    requires WorldOk(w) && id in w.runtimes && step.Send? && Act(w, id, w.runtimes[id], step).Some?
    ensures var x := Act(w, id, w.runtimes[id], step).value;
            WorldOk(x) && x.store == w.store &&
            (x.trace == w.trace || (x.trace == w.trace + [Executed(id, Newest(w.store))] && w.pipe == Some(id)))
  {
    hide StoreOk, TraceOk, Newest, RunWithAuthority, WorldOk;
    var r := w.runtimes[id];
    var g := r.guard.value;
    WorldParts(w, id);
    SendIsAuthorised(g, step.input, w.store.current, step.state, r.lock.held, step.now, step.later);
    var (h, sent) := RunWithAuthority(g, step.input, w.store.current, step.state, r.lock.held, step.now, step.later);
    AuthorityKeepsRecord(g, step.input, w.store.current, step.state, r.lock.held, step.now, step.later);
    GuardChange(r, h);
    var s := r.(guard := Some(h));
    PutKeeps(w, id, s);
    if sent.Ok? {
      CurrentIsNewest(w.store);
      var x := Put(w, id, s);
      TraceGrows(w, w.store, Executed(id, sent.value.generation));
      TransactionKeeps(x, w.store, w.trace + [Executed(id, sent.value.generation)]);
      assert x.(store := w.store, trace := w.trace + [Executed(id, sent.value.generation)]) == x.(trace := w.trace + [Executed(id, sent.value.generation)]);
    }
  }

  lemma AuthorityKeepsRecord(g: Guard, input: SendInput, persisted: Option<OwnershipRecord>, state: Option<ExecutionState>,
                             lockHeld: bool, now: int, later: int)
    ensures RunWithAuthority(g, input, persisted, state, lockHeld, now, later).0.record.None? ==> g.record.None?
    ensures g.record.None? ==> RunWithAuthority(g, input, persisted, state, lockHeld, now, later).0.record.None?
    ensures g.status != Owned ==> RunWithAuthority(g, input, persisted, state, lockHeld, now, later).0.status != Owned
  {
  }

  lemma CurrentIsNewest(s: Store)
    requires StoreOk(s) && s.current.Some?
    ensures s.current.value.generation == Newest(s)
  {
    hide EventGenerations;
  }

  lemma ClosedKeeps(w: World, id: nat)
    requires WorldOk(w) && id in w.runtimes
    ensures WorldOk(Act(w, id, w.runtimes[id], Step.ListenerClosed).value)
  {
    var r := w.runtimes[id];
    assert LockOk(r.lock);
    hide WorldOk, RuntimeOk, Hear, HandleClose;
    ClosedLock(r.lock);
    HearKeeps(r, HandleClose(r.lock));
    PutKeeps(w, id, Hear(r, HandleClose(r.lock)));
    HearLock(r, HandleClose(r.lock));
    if w.pipe == Some(id) { FreeKeeps(Put(w, id, Hear(r, HandleClose(r.lock))), id); }
  }

  lemma ClosedLock(l: Lock)
    requires LockOk(l)
    ensures LockOk(HandleClose(l)) && !(HandleClose(l).held && !HandleClose(l).asked)
    ensures HandleClose(l).asked == l.asked && (HandleClose(l).held ==> l.held)
  {
  }

  lemma HearLock(r: Runtime, lock: Lock)
    ensures Hear(r, lock).lock == lock
  {
  }

  lemma LocalStepKeeps(w: World, id: nat, r: Runtime, step: Step)
    requires WorldOk(w) && id in w.runtimes && w.runtimes[id] == r && Local(r, step).Some?
    ensures WorldOk(Put(w, id, Local(r, step).value))
  {
    hide WorldOk, RuntimeOk, TraceOk, StoreOk, Local;
    WorldParts(w, id);
    LocalKeeps(r, step);
    PutKeeps(w, id, Local(r, step).value);
  }

  lemma StepKeeps(w: World, id: nat, step: Step)
    requires WorldOk(w) && Next(w, id, step).Some?
    ensures WorldOk(Next(w, id, step).value)
  {
    hide WorldOk, RuntimeOk, TraceOk, StoreOk, Local, Hear, HandleClose, RunWithAuthority, Acquire, Renew, Release, RecordLost;
    if step.Launch? {
      LaunchKeeps(w, id, step.ownerToken);
    } else {
      var r := w.runtimes[id];
      WorldParts(w, id);
      match step {
        case ListenerClosed => ClosedKeeps(w, id);
        case PipeFreed => FreeKeeps(w, id);
        case Persist(mode, at) => PersistKeeps(w, id, mode, at);
        case Extend(_) => RowKeeps(w, id, step);
        case GiveUpRow(_) => RowKeeps(w, id, step);
        case RecordLoss(_, _) => RowKeeps(w, id, step);
        case Send(_, _, _, _) => SendKeeps(w, id, step);
        case _ => LocalStepKeeps(w, id, r, step);
      }
    }
  }

  lemma {:induction false} RunKeeps(w: World, steps: seq<(nat, Step)>)
    requires WorldOk(w) && Run(w, steps).Some?
    ensures WorldOk(Run(w, steps).value)
  {
    hide WorldOk, Next;
    if steps != [] {
      RunKeeps(w, steps[..|steps| - 1]);
      StepKeeps(Run(w, steps[..|steps| - 1]).value, steps[|steps| - 1].0, steps[|steps| - 1].1);
    }
  }

  lemma ReachableOk(w: World)
    requires Reachable(w)
    ensures WorldOk(w)
  {
    hide Run;
    var steps :| Run(EMPTY_WORLD, steps) == Some(w);
    RunKeeps(EMPTY_WORLD, steps);
  }

  // ---------------------------------------------------------------------------------------------
  // Main results
  // ---------------------------------------------------------------------------------------------

  /** What assertLocallyHeld would answer at this instant. */
  predicate Passes(w: World, id: nat, now: int) {
    id in w.runtimes && w.runtimes[id].guard.Some? &&
    AssertLocallyHeld(w.runtimes[id].guard.value, w.runtimes[id].lock.held, now).1.Ok?
  }

  /** Whoever passes the local check holds the pipe. */
  lemma PassesHoldsPipe(w: World, id: nat, now: int)
    requires Reachable(w) && Passes(w, id, now)
    ensures w.pipe == Some(id) && !w.runtimes[id].lock.asked
  {
    ReachableOk(w);
    WorldParts(w, id);
  }

  /** Single owner: no two runtimes pass the local check, whatever their clocks say. */
  lemma SingleOwner(w: World, i: nat, j: nat, nowI: int, nowJ: int)
    requires Reachable(w) && Passes(w, i, nowI) && Passes(w, j, nowJ)
    ensures i == j
  {
    hide *;
    PassesHoldsPipe(w, i, nowI);
    PassesHoldsPipe(w, j, nowJ);
  }

  /** Fencing: along every run generations never go back, and a persisted one exceeds all that were sent before. */
  lemma Fencing(w: World, i: nat, j: nat)
    requires Reachable(w) && i < j < |w.trace|
    ensures w.trace[i].generation <= w.trace[j].generation
    ensures w.trace[j].Persisted? ==> w.trace[i].generation < w.trace[j].generation
  {
    ReachableOk(w);
  }

  /** The lock is asked to be freed only by a runtime whose guard is lost, or that never had one. */
  lemma FencedBeforeFreed(w: World, id: nat)
    requires Reachable(w) && id in w.runtimes && w.runtimes[id].lock.asked
    ensures w.runtimes[id].guard.None? || w.runtimes[id].guard.value.status == Status.Lost
  {
    ReachableOk(w);
    WorldParts(w, id);
  }

  /** Nothing brings a lost guard back, and nothing is sent in its name. */
  lemma LostStays(w: World, id: nat, other: nat, step: Step)
    requires WorldOk(w) && id in w.runtimes && IsLost(w.runtimes[id]) && Next(w, other, step).Some?
    ensures var x := Next(w, other, step).value;
            id in x.runtimes && IsLost(x.runtimes[id]) &&
            (|x.trace| > |w.trace| ==> x.trace[|w.trace|].Persisted? || x.trace[|w.trace|].id != id)
  {
    hide WorldOk, Acquire, Renew, Release, RecordLost;
    if other == id && !step.Launch? { LostStaysOwn(w, id, step); }
  }

  lemma LostStaysOwn(w: World, id: nat, step: Step)
    requires id in w.runtimes && IsLost(w.runtimes[id]) && !step.Launch? && Act(w, id, w.runtimes[id], step).Some?
    ensures var x := Act(w, id, w.runtimes[id], step).value;
            id in x.runtimes && IsLost(x.runtimes[id]) &&
            (|x.trace| > |w.trace| ==> x.trace[|w.trace|].Persisted?)
  {
    hide Acquire, Renew, Release, RecordLost, Local, Lose, HandleClose;
    var r := w.runtimes[id];
    if Local(r, step).Some? { LostStaysLocal(r, step); }
    LoseIsLost(r.guard.value, "PROCESS_LOCK_LOST");
  }

  lemma LoseIsLost(g: Guard, reason: string)
    ensures Lose(g, reason).status == Status.Lost
  {
  }

  lemma LostStaysLocal(r: Runtime, step: Step)
    requires IsLost(r) && Local(r, step).Some?
    ensures IsLost(Local(r, step).value)
  {
    hide Lose, HandleError, HandleClose, SameOwnership;
    var g := r.guard.value;
    LoseIsLost(g, "PROCESS_LOCK_LOST");
    if step.Lost? { LoseIsLost(g, step.reason); }
    if step.Wait? { LoseIsLost(g, "RUNTIME_WORK_QUIESCENCE_FAILED"); }
    if step.Fence? && step.k < |r.cleanups| { LoseIsLost(g, FenceReason(r.cleanups[step.k].path)); }
    if step.Settle? && r.acquisition.Stored? {
      LoseIsLost(g.(record := Some(r.acquisition.row), takeover := r.acquisition.takenOver), "PROCESS_LOCK_LOST");
    }
  }

  /** From a loss on, however the run goes on, the runtime stays lost and sends nothing. */
  lemma {:induction false} LostForever(w: World, id: nat, steps: seq<(nat, Step)>)
    requires WorldOk(w) && id in w.runtimes && IsLost(w.runtimes[id]) && Run(w, steps).Some?
    ensures var x := Run(w, steps).value;
            id in x.runtimes && IsLost(x.runtimes[id]) && |w.trace| <= |x.trace| && x.trace[..|w.trace|] == w.trace &&
            forall k :: |w.trace| <= k < |x.trace| ==> x.trace[k].Persisted? || x.trace[k].id != id
  {
    hide WorldOk, Next, IsLost;
    if steps != [] {
      var front := steps[..|steps| - 1];
      LostForever(w, id, front);
      RunKeeps(w, front);
      var before := Run(w, front).value;
      LostStays(before, id, steps[|steps| - 1].0, steps[|steps| - 1].1);
      TraceExtends(before, steps[|steps| - 1].0, steps[|steps| - 1].1);
    }
  }

  lemma TraceExtends(w: World, id: nat, step: Step)
    requires Next(w, id, step).Some?
    ensures var t := Next(w, id, step).value.trace; t == w.trace || (|t| == |w.trace| + 1 && t[..|w.trace|] == w.trace)
  {
    hide Local, Hear, RunWithAuthority, Acquire, Renew, Release, RecordLost;
  }
}
