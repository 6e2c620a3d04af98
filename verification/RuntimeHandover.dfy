/**
 The protocol is not only safe: whoever finds the pipe free acquires the next generation and sends, and
 gives ownership up so that another can. Each cleanup frees the lock, or keeps it, as its path demands.
 */
module RuntimeHandover {
  import opened Basics
  import opened OwnershipStore
  import opened OwnershipGuard
  import opened ProcessLock
  import opened RuntimeProtocol

  // ---------------------------------------------------------------------------------------------
  // Runs in pieces
  // ---------------------------------------------------------------------------------------------

  lemma RunSnoc(w: World, steps: seq<(nat, Step)>, id: nat, step: Step)
    requires Run(w, steps).Some?
    ensures Run(w, steps + [(id, step)]) == Next(Run(w, steps).value, id, step)
  {
    hide Next;
    assert (steps + [(id, step)])[..|steps|] == steps;
  }

  lemma {:induction false} RunAppend(w: World, before: seq<(nat, Step)>, after: seq<(nat, Step)>)
    requires Run(w, before).Some?
    ensures Run(w, before + after) == Run(Run(w, before).value, after)
  {
    hide Next;
    if after == [] {
      assert before + after == before;
    } else {
      var s := before + after;
      assert s[..|s| - 1] == before + after[..|after| - 1];
      RunAppend(w, before, after[..|after| - 1]);
    }
  }

  /** A step that touches the runtime alone. */
  lemma LocalStep(w: World, steps: seq<(nat, Step)>, x: World, id: nat, r: Runtime, step: Step, next: Runtime)
    requires Run(w, steps) == Some(Put(x, id, r)) && Local(r, step) == Some(next)
    requires step.CreateGuard? || step.Reserve? || step.Settle? || step.EnterCleanup? || step.Fence? || step.Wait? || step.Free?
    ensures Run(w, steps + [(id, step)]) == Some(Put(x, id, next))
  {
    hide Run, Local;
    RunSnoc(w, steps, id, step);
    assert x.runtimes[id := r][id := next] == x.runtimes[id := next];
  }

  lemma NothingRun(w: World)
    ensures Run(w, []) == Some(w)
    ensures forall id :: id in w.runtimes ==> Put(w, id, w.runtimes[id]) == w
  {
    forall id | id in w.runtimes ensures Put(w, id, w.runtimes[id]) == w { assert w.runtimes[id := w.runtimes[id]] == w.runtimes; }
  }

  // ---------------------------------------------------------------------------------------------
  // Coming
  // ---------------------------------------------------------------------------------------------

  /** Up to the first order. */
  function Newcomer(id: nat, token: string, mode: string, at: int, input: SendInput): seq<(nat, Step)> {
    var state := ExecutionState(input.account, input.mode, input.gate, true, false);
    [(id, Launch(token)), (id, CreateGuard), (id, Reserve), (id, Persist(mode, at)), (id, RuntimeProtocol.Settle),
     (id, Send(input, Some(state), input.at, input.at))]
  }

  function Row(w: World, token: string, mode: string, at: int): OwnershipRecord {
    OwnershipRecord(token, Newest(w.store) + 1, mode, at, at, at + 45000)
  }

  function Owner(token: string, row: OwnershipRecord, takenOver: bool): Runtime {
    Runtime(token, BOUND, Some(Guard(Owned, true, Some(row), takenOver, None)), Acquisition.Settled, false, [])
  }

  /** The clock has not gone back, generations are left, and the order can be sent while the lease lasts. */
  ghost predicate MayCome(w: World, id: nat, at: int, input: SendInput) {
    && id !in w.runtimes && w.pipe.None? && StoreOk(w.store)
    && NotBefore(w.store, at) && Newest(w.store) < 9007199254740991
    && 0 <= input.at <= 9007199254740991 && input.at < at + 45000 && input.account != ""
  }

  /** Launched, with a reserved guard. */
  function Comer(token: string, acquisition: Acquisition): Runtime {
    Runtime(token, BOUND, Some(Guard(Unowned, true, None, false, None)), acquisition, false, [])
  }

  lemma ComesInSteps(w: World, id: nat, token: string)
    requires id !in w.runtimes && w.pipe.None?
    ensures Run(w, [(id, Launch(token)), (id, CreateGuard), (id, Reserve)]) == Some(Put(w.(pipe := Some(id)), id, Comer(token, Asked)))
  {
    hide Run, Next, Local;
    var x, a, b := w.(pipe := Some(id)), [(id, Launch(token))], [(id, Launch(token)), (id, CreateGuard)];
    assert [] + a == a && a + [(id, CreateGuard)] == b && b + [(id, Reserve)] == [(id, Launch(token)), (id, CreateGuard), (id, Reserve)];
    NothingRun(w);
    RunSnoc(w, [], id, Launch(token));
    Launches(w, id, token);
    GuardsAndReserves(token);
    LocalStep(w, a, x, id, Bare(token, None), CreateGuard, Bare(token, Some(FRESH_GUARD)));
    LocalStep(w, b, x, id, Bare(token, Some(FRESH_GUARD)), Reserve, Comer(token, Asked));
  }

  function Bare(token: string, guard: Option<Guard>): Runtime { Runtime(token, BOUND, guard, Idle, false, []) }

  lemma Launches(w: World, id: nat, token: string)
    requires id !in w.runtimes && w.pipe.None?
    ensures Next(w, id, Launch(token)) == Some(Put(w.(pipe := Some(id)), id, Bare(token, None)))
  {
  }

  lemma GuardsAndReserves(token: string)
    ensures Local(Bare(token, None), CreateGuard) == Some(Bare(token, Some(FRESH_GUARD)))
    ensures Local(Bare(token, Some(FRESH_GUARD)), Reserve) == Some(Comer(token, Asked))
  {
  }

  lemma Persists(w: World, steps: seq<(nat, Step)>, x: World, id: nat, token: string, mode: string, at: int)
    requires Run(w, steps) == Some(Put(x, id, Comer(token, Asked)))
    requires StoreOk(x.store) && NotBefore(x.store, at) && Newest(x.store) < 9007199254740991
    ensures Run(w, steps + [(id, Persist(mode, at))]) ==
              Some(Put(x.(store := Acquire(x.store, token, mode, at, at + 45000).0, trace := x.trace + [Persisted(Newest(x.store) + 1)]),
                       id, Comer(token, Stored(Row(x, token, mode, at), x.store.current.Some?))))
    ensures Acquire(x.store, token, mode, at, at + 45000).0.current == Some(Row(x, token, mode, at))
  {
    hide Run, StoreOk, NotBefore, Acquire, Newest;
    AcquireIff(x.store, token, mode, at, at + 45000);
    RunSnoc(w, steps, id, Persist(mode, at));
    var r := Comer(token, Stored(Row(x, token, mode, at), x.store.current.Some?));
    assert x.runtimes[id := Comer(token, Asked)][id := r] == x.runtimes[id := r];
  }

  lemma Sends(w: World, steps: seq<(nat, Step)>, x: World, id: nat, token: string, row: OwnershipRecord, takenOver: bool, input: SendInput)
    requires Run(w, steps) == Some(Put(x, id, Owner(token, row, takenOver))) && x.store.current == Some(row)
    requires 0 <= input.at <= 9007199254740991 && input.at < row.expiresAt && input.account != ""
    ensures Run(w, steps + [(id, Send(input, Some(ExecutionState(input.account, input.mode, input.gate, true, false)), input.at, input.at))]) ==
              Some(Put(x.(trace := x.trace + [Executed(id, row.generation)]), id, Owner(token, row, takenOver)))
  {
    hide Run, RunWithAuthority;
    var state := ExecutionState(input.account, input.mode, input.gate, true, false);
    SendIsAuthorised(Guard(Owned, true, Some(row), takenOver, None), input, Some(row), Some(state), true, input.at, input.at);
    RunSnoc(w, steps, id, Send(input, Some(state), input.at, input.at));
    var r := Owner(token, row, takenOver);
    assert x.runtimes[id := r][id := r] == x.runtimes[id := r];
  }

  /** Whoever finds the pipe free acquires the generation after the newest one and sends an order under it. */
  lemma NewcomerSends(w: World, id: nat, token: string, mode: string, at: int, input: SendInput)
    requires MayCome(w, id, at, input)
    ensures Run(w, Newcomer(id, token, mode, at, input)).Some?
    ensures var x := Run(w, Newcomer(id, token, mode, at, input)).value;
            && x.pipe == Some(id) && x.store.current == Some(Row(w, token, mode, at))
            && x.store == Acquire(w.store, token, mode, at, at + 45000).0
            && x.runtimes == w.runtimes[id := Owner(token, Row(w, token, mode, at), w.store.current.Some?)]
            && x.trace == w.trace + [Persisted(Newest(w.store) + 1), Executed(id, Newest(w.store) + 1)]
  {
    hide Run, Next, Local, StoreOk, NotBefore, Acquire, Newest;
    var row, state := Row(w, token, mode, at), ExecutionState(input.account, input.mode, input.gate, true, false);
    var x, takenOver := w.(pipe := Some(id)), w.store.current.Some?;
    var a := [(id, Launch(token)), (id, CreateGuard), (id, Reserve)];
    var b := a + [(id, Persist(mode, at))];
    var c := b + [(id, RuntimeProtocol.Settle)];
    ComesInSteps(w, id, token);
    Persists(w, a, x, id, token, mode, at);
    var y := x.(store := Acquire(x.store, token, mode, at, at + 45000).0, trace := x.trace + [Persisted(Newest(x.store) + 1)]);
    SettlesOwned(token, row, takenOver);
    LocalStep(w, b, y, id, Comer(token, Stored(row, takenOver)), RuntimeProtocol.Settle, Owner(token, row, takenOver));
    Sends(w, c, y, id, token, row, takenOver, input);
    assert Newcomer(id, token, mode, at, input) == c + [(id, Send(input, Some(state), input.at, input.at))];
  }

  lemma SettlesOwned(token: string, row: OwnershipRecord, takenOver: bool)
    ensures Local(Comer(token, Stored(row, takenOver)), RuntimeProtocol.Settle) == Some(Owner(token, row, takenOver))
  {
  }

  // ---------------------------------------------------------------------------------------------
  // Going
  // ---------------------------------------------------------------------------------------------

  function Cleaning(id: nat, path: Path, quiesced: bool): seq<(nat, Step)> {
    [(id, EnterCleanup(path)), (id, Fence(0)), (id, Wait(0, quiesced)), (id, Free(0))]
  }

  /** Why the runtime is lost in the end. */
  function EndReason(path: Path, quiesced: bool): string {
    match path
    case Shutdown => if quiesced then "RUNTIME_SHUTDOWN" else "RUNTIME_WORK_QUIESCENCE_FAILED"
    case StartupFailure => "STARTUP_FAILED"
    case Scoped => "SCOPED_WORK_COMPLETE"
  }

  function Leaver(token: string, row: OwnershipRecord, takenOver: bool, lock: Lock, reason: string, path: Path, stage: Stage): Runtime {
    Runtime(token, lock, Some(Guard(Status.Lost, true, Some(row), takenOver, Some(reason))), Acquisition.Settled, false, [Cleanup(path, stage)])
  }

  /** The lock is kept exactly by an orderly shutdown whose work has not stopped; that is a loss of its own. */
  lemma OwnerCleansUp(w: World, id: nat, token: string, row: OwnershipRecord, takenOver: bool, path: Path, quiesced: bool)
    requires id in w.runtimes && w.runtimes[id] == Owner(token, row, takenOver)
    ensures var kept := path == Shutdown && !quiesced;
            Run(w, Cleaning(id, path, quiesced)) ==
              Some(Put(w, id, Leaver(token, row, takenOver, Lock(true, false, !kept, !kept, true), EndReason(path, quiesced), path, Finished)))
  {
    hide Run, Local, Next;
    var kept := path == Shutdown && !quiesced;
    var r0 := Owner(token, row, takenOver);
    var r1 := r0.(cleanups := [Cleanup(path, Entered)]);
    var r2 := Leaver(token, row, takenOver, BOUND, EndReason(path, true), path, Fenced);
    var r3 := Leaver(token, row, takenOver, BOUND, EndReason(path, quiesced), path, Waited(quiesced));
    var r4 := Leaver(token, row, takenOver, Lock(true, false, !kept, !kept, true), EndReason(path, quiesced), path, Finished);
    var a, b, c := [(id, EnterCleanup(path))], [(id, EnterCleanup(path)), (id, Fence(0))], [(id, EnterCleanup(path)), (id, Fence(0)), (id, Wait(0, quiesced))];
    assert [] + a == a && a + [(id, Fence(0))] == b && b + [(id, Wait(0, quiesced))] == c && c + [(id, Free(0))] == Cleaning(id, path, quiesced);
    NothingRun(w);
    EntersAndFences(token, row, takenOver, path);
    Waits(token, row, takenOver, path, quiesced);
    Frees(token, row, takenOver, path, quiesced);
    LocalStep(w, [], w, id, r0, EnterCleanup(path), r1);
    LocalStep(w, a, w, id, r1, Fence(0), r2);
    LocalStep(w, b, w, id, r2, Wait(0, quiesced), r3);
    LocalStep(w, c, w, id, r3, Free(0), r4);
  }

  lemma EntersAndFences(token: string, row: OwnershipRecord, takenOver: bool, path: Path)
    ensures var r := Owner(token, row, takenOver).(cleanups := [Cleanup(path, Entered)]);
            && Local(Owner(token, row, takenOver), EnterCleanup(path)) == Some(r)
            && Local(r, Fence(0)) == Some(Leaver(token, row, takenOver, BOUND, EndReason(path, true), path, Fenced))
  {
    hide Lose, EndReason, FenceReason;
    assert [] + [Cleanup(path, Entered)] == [Cleanup(path, Entered)];
    Restaged(path, Entered, Fenced);
    LossOfOwner(row, takenOver, path);
  }

  lemma Waits(token: string, row: OwnershipRecord, takenOver: bool, path: Path, quiesced: bool)
    ensures Local(Leaver(token, row, takenOver, BOUND, EndReason(path, true), path, Fenced), Wait(0, quiesced)) ==
              Some(Leaver(token, row, takenOver, BOUND, EndReason(path, quiesced), path, Waited(quiesced)))
  {
    hide Lose;
    Restaged(path, Fenced, Waited(quiesced));
    LossOfOwner(row, takenOver, path);
  }

  lemma Frees(token: string, row: OwnershipRecord, takenOver: bool, path: Path, quiesced: bool)
    ensures var kept := path == Shutdown && !quiesced;
            Local(Leaver(token, row, takenOver, BOUND, EndReason(path, quiesced), path, Waited(quiesced)), Free(0)) ==
              Some(Leaver(token, row, takenOver, Lock(true, false, !kept, !kept, true), EndReason(path, quiesced), path, Finished))
  {
    hide EndReason;
    Restaged(path, Waited(quiesced), Finished);
    assert path == Scoped ==> EndReason(path, quiesced) != "SCOPED_WORK_QUIESCENCE_FAILED" by { ScopedEnds(quiesced); }
  }

  lemma ScopedEnds(quiesced: bool)
    ensures EndReason(Scoped, quiesced) != "SCOPED_WORK_QUIESCENCE_FAILED"
  {
  }

  lemma Restaged(path: Path, a: Stage, b: Stage)
    ensures [Cleanup(path, a)][0 := Cleanup(path, a).(stage := b)] == [Cleanup(path, b)]
  {
  }

  lemma LossOfOwner(row: OwnershipRecord, takenOver: bool, path: Path)
    ensures Lose(Guard(Owned, true, Some(row), takenOver, None), FenceReason(path)) == Guard(Status.Lost, true, Some(row), takenOver, Some(EndReason(path, true)))
    ensures Lose(Guard(Status.Lost, true, Some(row), takenOver, Some("RUNTIME_SHUTDOWN")), "RUNTIME_WORK_QUIESCENCE_FAILED") ==
              Guard(Status.Lost, true, Some(row), takenOver, Some("RUNTIME_WORK_QUIESCENCE_FAILED"))
  {
  }

  /** The guard hears of a listener that closes unasked, and of no orderly close. */
  lemma CloseIsHeardIff(w: World, id: nat)
    requires id in w.runtimes && w.runtimes[id].guard.Some?
    ensures Next(w, id, Step.ListenerClosed).Some?
    ensures var r, x := w.runtimes[id], Next(w, id, Step.ListenerClosed).value;
            && x.runtimes[id].guard ==
                 (if r.lock.held && r.lock.attached && !r.lock.releaseInProgress then Some(Lose(r.guard.value, "PROCESS_LOCK_LOST")) else r.guard)
            && x.pipe == (if w.pipe == Some(id) then None else w.pipe)
  {
    hide Lose;
  }

  /** A runtime whose scoped work is known not to have stopped. */
  function Unsafe(r: Runtime, lock: Lock, cleanups: seq<Cleanup>): Runtime {
    r.(lock := lock, guard := Some(Guard(Status.Lost, true, None, false, Some("SCOPED_WORK_QUIESCENCE_FAILED"))), cleanups := cleanups)
  }

  /** Of such a runtime the scoped cleanup keeps the lock, whatever else it hears; the start-up cleanup frees it all the same. */
  lemma UnsafeScopeCleansUp(w: World, id: nat, r: Runtime, lock: Lock, path: Path, quiesced: bool)
    requires id in w.runtimes && w.runtimes[id] == Unsafe(r, lock, [])
    ensures var freed := path == StartupFailure || (path == Shutdown && quiesced);
            Run(w, Cleaning(id, path, quiesced)) == Some(Put(w, id, Unsafe(r, if freed then BeginRelease(lock) else lock, [Cleanup(path, Finished)])))
  {
    hide Run, Local, Next;
    var freed := path == StartupFailure || (path == Shutdown && quiesced);
    var a, b, c := [(id, EnterCleanup(path))], [(id, EnterCleanup(path)), (id, Fence(0))], [(id, EnterCleanup(path)), (id, Fence(0)), (id, Wait(0, quiesced))];
    assert [] + a == a && a + [(id, Fence(0))] == b && b + [(id, Wait(0, quiesced))] == c && c + [(id, Free(0))] == Cleaning(id, path, quiesced);
    NothingRun(w);
    UnsafeEnters(r, lock, path);
    UnsafeWaits(r, lock, path, quiesced);
    UnsafeFrees(r, lock, path, quiesced);
    LocalStep(w, [], w, id, Unsafe(r, lock, []), EnterCleanup(path), Unsafe(r, lock, [Cleanup(path, Entered)]));
    LocalStep(w, a, w, id, Unsafe(r, lock, [Cleanup(path, Entered)]), Fence(0), Unsafe(r, lock, [Cleanup(path, Fenced)]));
    LocalStep(w, b, w, id, Unsafe(r, lock, [Cleanup(path, Fenced)]), Wait(0, quiesced), Unsafe(r, lock, [Cleanup(path, Waited(quiesced))]));
    LocalStep(w, c, w, id, Unsafe(r, lock, [Cleanup(path, Waited(quiesced))]), Free(0),
              Unsafe(r, if freed then BeginRelease(lock) else lock, [Cleanup(path, Finished)]));
  }

  lemma UnsafeEnters(r: Runtime, lock: Lock, path: Path)
    ensures Local(Unsafe(r, lock, []), EnterCleanup(path)) == Some(Unsafe(r, lock, [Cleanup(path, Entered)]))
    ensures Local(Unsafe(r, lock, [Cleanup(path, Entered)]), Fence(0)) == Some(Unsafe(r, lock, [Cleanup(path, Fenced)]))
  {
    hide Lose, FenceReason;
    assert [] + [Cleanup(path, Entered)] == [Cleanup(path, Entered)];
    Restaged(path, Entered, Fenced);
    UnsafeStays(FenceReason(path));
  }

  lemma UnsafeWaits(r: Runtime, lock: Lock, path: Path, quiesced: bool)
    ensures Local(Unsafe(r, lock, [Cleanup(path, Fenced)]), Wait(0, quiesced)) == Some(Unsafe(r, lock, [Cleanup(path, Waited(quiesced))]))
  {
    hide Lose;
    Restaged(path, Fenced, Waited(quiesced));
    UnsafeStays("RUNTIME_WORK_QUIESCENCE_FAILED");
  }

  lemma UnsafeFrees(r: Runtime, lock: Lock, path: Path, quiesced: bool)
    ensures Local(Unsafe(r, lock, [Cleanup(path, Waited(quiesced))]), Free(0)) ==
              Some(Unsafe(r, if path == StartupFailure || (path == Shutdown && quiesced) then BeginRelease(lock) else lock, [Cleanup(path, Finished)]))
  {
    hide BeginRelease;
    Restaged(path, Waited(quiesced), Finished);
  }

  lemma UnsafeStays(reason: string)
    ensures var g := Guard(Status.Lost, true, None, false, Some("SCOPED_WORK_QUIESCENCE_FAILED")); Lose(g, reason) == g
  {
  }

  // ---------------------------------------------------------------------------------------------
  // Handing over
  // ---------------------------------------------------------------------------------------------

  function HandOver(first: nat, second: nat, tokens: (string, string), mode: string, at: (int, int), input: SendInput, other: SendInput): seq<(nat, Step)> {
    Newcomer(first, tokens.0, mode, at.0, input) + Cleaning(first, Shutdown, true) + [(first, PipeFreed)] + Newcomer(second, tokens.1, mode, at.1, other)
  }

  /** One runtime sends, shuts down in order, and the next one sends under the next generation. */
  lemma HandedOver(w: World, first: nat, second: nat, tokens: (string, string), mode: string, at: (int, int), input: SendInput, other: SendInput)
    requires MayCome(w, first, at.0, input) && second !in w.runtimes && second != first
    requires at.0 <= at.1 && Newest(w.store) + 1 < 9007199254740991
    requires 0 <= other.at <= 9007199254740991 && other.at < at.1 + 45000 && other.account != ""
    ensures var n, x := Newest(w.store), Run(w, HandOver(first, second, tokens, mode, at, input, other));
            && x.Some? && x.value.pipe == Some(second)
            && x.value.trace == w.trace + [Persisted(n + 1), Executed(first, n + 1), Persisted(n + 2), Executed(second, n + 2)]
  {
    hide Run, Next, MayCome, Newcomer, Cleaning, NotBefore, StoreOk, Newest, Acquire;
    NewcomerSends(w, first, tokens.0, mode, at.0, input);
    var s := Newcomer(first, tokens.0, mode, at.0, input);
    var x := Run(w, s).value;
    OwnerCleansUp(x, first, tokens.0, Row(w, tokens.0, mode, at.0), w.store.current.Some?, Shutdown, true);
    RunAppend(w, s, Cleaning(first, Shutdown, true));
    var t := s + Cleaning(first, Shutdown, true);
    RunSnoc(w, t, first, PipeFreed);
    PipeIsFreed(Run(w, t).value, first);
    var y := Run(w, t + [(first, PipeFreed)]).value;
    NextMayCome(w, y, first, second, tokens.0, mode, at, input, other);
    NewcomerSends(y, second, tokens.1, mode, at.1, other);
    RunAppend(w, t + [(first, PipeFreed)], Newcomer(second, tokens.1, mode, at.1, other));
    assert HandOver(first, second, tokens, mode, at, input, other) == t + [(first, PipeFreed)] + Newcomer(second, tokens.1, mode, at.1, other);
  }

  lemma PipeIsFreed(w: World, id: nat)
    requires id in w.runtimes && w.runtimes[id].lock.asked && w.pipe == Some(id)
    ensures Next(w, id, PipeFreed) == Some(w.(pipe := None))
  {
  }

  lemma NextMayCome(w: World, y: World, first: nat, second: nat, token: string, mode: string, at: (int, int), input: SendInput, other: SendInput)
    requires MayCome(w, first, at.0, input) && second !in y.runtimes && y.pipe.None?
    requires at.0 <= at.1 && Newest(w.store) + 1 < 9007199254740991 && y.store == Acquire(w.store, token, mode, at.0, at.0 + 45000).0
    requires 0 <= other.at <= 9007199254740991 && other.at < at.1 + 45000 && other.account != ""
    ensures MayCome(y, second, at.1, other) && Newest(y.store) == Newest(w.store) + 1
  {
    hide Acquire, Newest, StoreOk;
    AcquireIff(w.store, token, mode, at.0, at.0 + 45000);
    AcquireGrows(w.store, token, mode, at.0, at.0 + 45000);
  }
}
