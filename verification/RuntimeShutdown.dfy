/**
 The three ways a runtime is given up. Each is a sequence of steps with awaits between them; during
 an await the guard may be lost for any reason. `journal` remembers what was done and whether the
 guard was lost at that moment.
 */
module RuntimeShutdown {
  import opened Basics
  import opened OwnershipGuard
  import opened ProcessLock

  datatype Deed = Fencing | AskWorkers | AwaitWorkers | TryRowRelease | ClosePersistence | CloseDatabase | AskLock

  datatype Entry = Entry(deed: Deed, lost: bool)

  /** What the store answers to the release of the row. */
  datatype RowAnswer = Accepted | Declined | Threw

  /** What the workers report within the time limit. */
  datatype WorkersReport =
    | TimedOut
    | Reported(rejected: bool, deliveryQuiesced: bool, telegramRunning: bool, schedulerQuiesced: bool, marketRunning: bool)

  predicate Quiet(w: WorkersReport) {
    w.Reported? && !w.rejected && w.deliveryQuiesced && !w.telegramRunning && w.schedulerQuiesced && !w.marketRunning
  }

  datatype StepName =
    | FenceStep | DeliveryStep | TelegramStep | SchedulerStep | QuiescenceStep | LossRecordingStep
    | ReleaseStep | PersistenceStep | DatabaseStep | LockStep

  datatype StepStatus = Stopped | Skipped | Failed

  datatype StopStep = StopStep(name: StepName, status: StepStatus)

  /** What goes wrong, and what else happens to the guard, during a shutdown. */
  datatype Circumstances = Circumstances(
    fenceThrows: bool,
    deliveryThrows: bool,
    telegramThrows: bool,
    schedulerThrows: bool,
    workers: WorkersReport,
    lossRecorded: bool,
    row: RowAnswer,
    persistenceThrows: bool,
    databaseThrows: bool,
    lockFails: bool,
    heartbeatThrows: bool,
    meanwhile: seq<string>,
    later: seq<string>)

  /** The losses that are written to the journal of the store. */
  predicate IsRecordedLoss(reason: string) {
    reason in {"PROCESS_LOCK_LOST", "PERSISTED_OWNERSHIP_MISMATCH", "OWNERSHIP_EXPIRED", "HEARTBEAT_EXPIRED",
               "HEARTBEAT_RENEWAL_MISMATCH", "HEARTBEAT_RENEWAL_FAILED", "RUNTIME_WORK_QUIESCENCE_FAILED", "SCOPED_WORK_QUIESCENCE_FAILED"}
  }

  function LoseAll(g: Guard, reasons: seq<string>): Guard
    decreases reasons
  {
    if reasons == [] then g else LoseAll(Lose(g, reasons[0]), reasons[1..])
  }

  /** Losses during an await keep a loss, and never make a real one orderly again. */
  lemma {:induction false} LoseAllKeeps(g: Guard, reasons: seq<string>)
    requires GuardOk(g)
    ensures GuardOk(LoseAll(g, reasons))
    ensures g.status == Status.Lost ==> LoseAll(g, reasons).status == Status.Lost
    ensures g.status == Status.Lost && !IsCleanupFence(g.lossReason) ==> LoseAll(g, reasons).lossReason == g.lossReason
    decreases reasons
  {
    if reasons != [] { LoseAllKeeps(Lose(g, reasons[0]), reasons[1..]); }
  }

  /** Only a lost guard frees the lock. */
  predicate OnlyWhenLost(journal: seq<Entry>) {
    forall e :: e in journal && e.deed == AskLock ==> e.lost
  }

  lemma JournalGrows(journal: seq<Entry>, e: Entry)
    requires OnlyWhenLost(journal) && (e.deed == AskLock ==> e.lost)
    ensures OnlyWhenLost(journal + [e])
  {
  }

  lemma LoseKeeps(g: Guard, reason: string)
    requires GuardOk(g)
    ensures GuardOk(Lose(g, reason)) && Lose(g, reason).status == Status.Lost
    ensures g.status == Status.Lost && !IsCleanupFence(g.lossReason) ==> Lose(g, reason).lossReason == g.lossReason
  {
  }

  /** The guard after an await, when it has also noticed whether the lock is still held. */
  function Heard(g: Guard, lockHeld: bool, meanwhile: seq<string>): Guard {
    var after := LoseAll(g, meanwhile);
    if lockHeld then after else Lose(after, "PROCESS_LOCK_LOST")
  }

  lemma HeardKeeps(g: Guard, lockHeld: bool, meanwhile: seq<string>)
    requires GuardOk(g)
    ensures GuardOk(Heard(g, lockHeld, meanwhile))
    ensures g.status == Status.Lost ==> Heard(g, lockHeld, meanwhile).status == Status.Lost
    ensures g.status == Status.Lost && !IsCleanupFence(g.lossReason) ==> Heard(g, lockHeld, meanwhile).lossReason == g.lossReason
  {
    hide Lose, LoseAll, GuardOk, IsCleanupFence;
    LoseAllKeeps(g, meanwhile);
    LoseKeeps(LoseAll(g, meanwhile), "PROCESS_LOCK_LOST");
  }

  /** The row is given up unless the guard never acquired or was lost for a recorded reason. */
  predicate GivesUpRow(g: Guard, lockHeld: bool, meanwhile: seq<string>) {
    var heard := Heard(g, lockHeld, meanwhile);
    heard.record.Some? && !(heard.lossReason.Some? && IsRecordedLoss(heard.lossReason.value))
  }

  /** The guard after its row was to be given up: a store that declines is a loss. */
  function AfterRelease(g: Guard, lockHeld: bool, released: Option<bool>, meanwhile: seq<string>, row: RowAnswer): Guard {
    if released.Some? then g
    else
      var heard := Heard(g, lockHeld, meanwhile);
      if GivesUpRow(g, lockHeld, meanwhile) && row.Declined? then Lose(heard, "PERSISTED_OWNERSHIP_MISMATCH") else heard
  }

  /** A loss stays through it, and a real one keeps its reason. */
  lemma ReleaseKeepsLoss(g: Guard, lockHeld: bool, released: Option<bool>, meanwhile: seq<string>, row: RowAnswer)
    requires GuardOk(g) && g.status == Status.Lost
    ensures AfterRelease(g, lockHeld, released, meanwhile, row).status == Status.Lost && Heard(g, lockHeld, meanwhile).status == Status.Lost
    ensures !IsCleanupFence(g.lossReason) ==> AfterRelease(g, lockHeld, released, meanwhile, row).lossReason == g.lossReason
  {
    hide Lose, LoseAll, IsRecordedLoss, GuardOk, IsCleanupFence, Heard;
    HeardKeeps(g, lockHeld, meanwhile);
    LoseKeeps(Heard(g, lockHeld, meanwhile), "PERSISTED_OWNERSHIP_MISMATCH");
  }

  class RuntimeOwnershipContext {
    var guard: Guard
    var lock: Lock
    var databaseClosed: bool
    var released: Option<bool>
    ghost var journal: seq<Entry>

    ghost predicate Valid()
      reads this
    {
      GuardOk(guard) && OnlyWhenLost(journal)
    }

    constructor (guard: Guard, lock: Lock)
      requires GuardOk(guard)
      ensures Valid() && journal == [] && this.guard == guard && this.lock == lock && released == None
    {
      this.guard, this.lock, databaseClosed, released := guard, lock, false, None;
      journal := [];
    }

    ghost function Now(deed: Deed): Entry
      reads this
    {
      Entry(deed, guard.status == Status.Lost)
    }

    /** The guard is lost whether or not a listener throws. */
    method Fence(reason: string, throws: bool) returns (ok: bool)
      requires Valid()
      modifies this`guard, this`journal
      ensures Valid() && guard == Lose(old(guard), reason) && ok == !throws
      ensures journal == old(journal) + [Entry(Fencing, true)]
    {
      guard := Lose(guard, reason);
      journal := journal + [Now(Fencing)];
      ok := !throws;
    }

    method Await(reasons: seq<string>)
      requires Valid()
      modifies this`guard
      ensures Valid() && guard == LoseAll(old(guard), reasons)
    {
      LoseAllKeeps(guard, reasons);
      var rest := reasons;
      while rest != []
        invariant LoseAll(guard, rest) == LoseAll(old(guard), reasons) && GuardOk(guard)
        decreases |rest|
      {
        guard := Lose(guard, rest[0]);
        rest := rest[1..];
      }
    }

    /** releaseCurrentOwnership, of a guard that may be lost or not: asked for again, it gives the first answer. */
    method ReleaseCurrentOwnership(row: RowAnswer, meanwhile: seq<string>) returns (answer: bool)
      requires Valid()
      modifies this`guard, this`journal, this`released
      ensures Valid() && released == Some(answer) && guard == AfterRelease(old(guard), old(lock).held, old(released), meanwhile, row)
      ensures answer == (if old(released).Some? then old(released).value else GivesUpRow(old(guard), old(lock).held, meanwhile) && row.Accepted?)
      ensures old(released).Some? ==> journal == old(journal)
      ensures old(released).None? ==>
                journal == old(journal) + (if GivesUpRow(old(guard), old(lock).held, meanwhile)
                                           then [Entry(TryRowRelease, Heard(old(guard), old(lock).held, meanwhile).status == Status.Lost)] else [])
    {
      hide Lose, LoseAll, IsRecordedLoss, OnlyWhenLost, GuardOk, IsCleanupFence;
      if released.Some? { return released.value; }
      HeardKeeps(guard, lock.held, meanwhile);
      Await(meanwhile);
      if !lock.held { guard := Lose(guard, "PROCESS_LOCK_LOST"); }
      if guard.record.None? || (guard.lossReason.Some? && IsRecordedLoss(guard.lossReason.value)) {
        answer := false;
      } else {
        JournalGrows(journal, Now(TryRowRelease));
        journal := journal + [Now(TryRowRelease)];
        answer := row.Accepted?;
        LoseKeeps(guard, "PERSISTED_OWNERSHIP_MISMATCH");
        if row.Declined? { guard := Lose(guard, "PERSISTED_OWNERSHIP_MISMATCH"); }
      }
      released := Some(answer);
    }

    /** A deed that changes neither guard nor lock. */
    method Note(deed: Deed)
      requires Valid() && deed != AskLock && deed != TryRowRelease
      modifies this`journal
      ensures Valid() && journal == old(journal) + [Now(deed)]
    {
      journal := journal + [Now(deed)];
    }

    method CloseOwnershipDatabase(throws: bool) returns (ok: bool)
      requires Valid()
      modifies this`databaseClosed, this`journal
      ensures Valid() && databaseClosed && ok == (old(databaseClosed) || !throws)
      ensures journal == old(journal) + if old(databaseClosed) then [] else [Entry(CloseDatabase, guard.status == Status.Lost)]
    {
      if databaseClosed { return true; }
      databaseClosed := true;
      journal := journal + [Now(CloseDatabase)];
      ok := !throws;
    }

    method ReleaseProcessLock(fails: bool) returns (ok: bool)
      requires Valid() && guard.status == Status.Lost
      modifies this`lock, this`journal
      ensures Valid() && lock == BeginRelease(old(lock)) && lock.asked && ok == !fails
      ensures journal == old(journal) + [Entry(AskLock, true)]
    {
      lock := BeginRelease(lock);
      journal := journal + [Now(AskLock)];
      ok := !fails;
    }
  }

  // ---------------------------------------------------------------------------------------------
  // What a path does, in order
  // ---------------------------------------------------------------------------------------------

  /** Deeds done while the guard was lost. */
  function WhileLost(deeds: seq<Deed>): (r: seq<Entry>)
    ensures |r| == |deeds| && forall i :: 0 <= i < |r| ==> r[i] == Entry(deeds[i], true)
  {
    seq(|deeds|, i requires 0 <= i < |deeds| => Entry(deeds[i], true))
  }

  lemma WhileLostAppend(a: seq<Deed>, b: seq<Deed>)
    ensures WhileLost(a + b) == WhileLost(a) + WhileLost(b)
  {
  }

  function Either(done: bool, deed: Deed): seq<Deed> { if done then [deed] else [] }

  /** From the row on: it may be tried; then persistence, ownership database and lock, in this order. */
  function ClosingDeeds(tried: bool, open: bool): seq<Deed> {
    Either(tried, TryRowRelease) + [ClosePersistence] + Either(open, CloseDatabase) + [AskLock]
  }

  /** The fence comes first. Workers that may still run end in a second fence, and nothing else is touched. */
  function ShutdownDeeds(stopped: bool, tried: bool, open: bool): seq<Deed> {
    [Fencing, AskWorkers, AwaitWorkers] + if stopped then ClosingDeeds(tried, open) else [Fencing]
  }

  function StatusOf(ok: bool): StepStatus { if ok then Stopped else Failed }

  /** The report: every step once, in order, and each as it went. */
  function ShutdownSteps(c: Circumstances, stopped: bool, asked: bool, released: Option<bool>, wasClosed: bool): seq<StopStep> {
    [StopStep(FenceStep, if c.fenceThrows then Failed else Stopped),
     StopStep(DeliveryStep, if c.deliveryThrows then Failed else Stopped),
     StopStep(TelegramStep, if c.telegramThrows then Failed else Stopped),
     StopStep(SchedulerStep, if c.schedulerThrows then Failed else Stopped),
     StopStep(QuiescenceStep, if c.workers == Reported(false, true, false, true, false) then Stopped else Failed),
     StopStep(LossRecordingStep, if c.lossRecorded then Stopped else Failed),
     StopStep(ReleaseStep, if !asked then Skipped else if released == Some(true) then Stopped else Failed),
     StopStep(PersistenceStep, if !stopped then Skipped else if c.persistenceThrows then Failed else Stopped),
     StopStep(DatabaseStep, if !stopped then Skipped else if c.databaseThrows && !wasClosed then Failed else Stopped),
     StopStep(LockStep, if !stopped then Skipped else if c.lockFails then Failed else Stopped)]
  }

  /** The guard when the workers have been waited for and the loss is recorded. */
  function GuardAfterStop(g: Guard, c: Circumstances, stopped: bool): Guard {
    var waited := LoseAll(Lose(g, "RUNTIME_SHUTDOWN"), c.meanwhile);
    LoseAll(if stopped then waited else Lose(waited, "RUNTIME_WORK_QUIESCENCE_FAILED"), c.later)
  }

  /** The row is given up by every guard that has a record, except after one of eight losses that are recorded. */
  lemma GivesUpRowIff(g: Guard, lockHeld: bool, meanwhile: seq<string>)
    ensures var heard := if lockHeld then LoseAll(g, meanwhile) else Lose(LoseAll(g, meanwhile), "PROCESS_LOCK_LOST");
            GivesUpRow(g, lockHeld, meanwhile) <==>
              heard.record.Some? &&
              heard.lossReason !in {Some("PROCESS_LOCK_LOST"), Some("PERSISTED_OWNERSHIP_MISMATCH"), Some("OWNERSHIP_EXPIRED"), Some("HEARTBEAT_EXPIRED"),
                                    Some("HEARTBEAT_RENEWAL_MISMATCH"), Some("HEARTBEAT_RENEWAL_FAILED"), Some("RUNTIME_WORK_QUIESCENCE_FAILED"),
                                    Some("SCOPED_WORK_QUIESCENCE_FAILED")}
  {
  }

  // ---------------------------------------------------------------------------------------------
  // The orderly shutdown
  // ---------------------------------------------------------------------------------------------

  /**
   stopOwnedAppRuntime. The workers have stopped if each was asked without a failure and all report in time
   that they are quiet. Then the row is given up, if the runtime owned it, was fenced without a failure
   and its loss is recorded, and everything is closed; otherwise nothing is.
   */
  method StopOwnedAppRuntime(context: RuntimeOwnershipContext, c: Circumstances) returns (clean: bool, steps: seq<StopStep>)
    requires context.Valid()
    modifies context
    ensures context.Valid() && context.guard.status == Status.Lost
    ensures var stopped := !c.deliveryThrows && !c.telegramThrows && !c.schedulerThrows && c.workers == Reported(false, true, false, true, false);
            var asked := stopped && old(context.guard).status == Owned && !c.fenceThrows && c.lossRecorded;
            var g := GuardAfterStop(old(context.guard), c, stopped);
            var tried := asked && old(context.released).None? && GivesUpRow(g, old(context.lock).held, []);
            && context.journal == old(context.journal) + WhileLost(ShutdownDeeds(stopped, tried, !old(context.databaseClosed)))
            && context.guard == (if asked then AfterRelease(g, old(context.lock).held, old(context.released), [], c.row) else g)
            && context.lock == (if stopped then BeginRelease(old(context.lock)) else old(context.lock))
            && context.databaseClosed == (stopped || old(context.databaseClosed))
            && context.released == (if !asked || old(context.released).Some? then old(context.released) else Some(tried && c.row.Accepted?))
            && steps == ShutdownSteps(c, stopped, asked, context.released, old(context.databaseClosed))
            && (stopped ==> context.lock.asked)
            && (!stopped ==> context.guard.lossReason !in {Some("RUNTIME_SHUTDOWN"), Some("SCOPED_WORK_COMPLETE"), Some("STARTUP_FAILED")})
    ensures clean <==> forall s :: s in steps ==> s.status != Failed
  {
    hide Lose, LoseAll, OnlyWhenLost, GivesUpRow, GuardOk, AfterRelease, WhileLost, ClosingDeeds, ShutdownSteps, GuardAfterStop, BeginRelease, Heard, IsCleanupFence;
    var wasOwned := context.guard.status == Owned;
    ghost var start, released, wasClosed := context.journal, context.released, context.databaseClosed;
    var fenced, unsafe, first := StopWorkers(context, c);
    var more;
    if unsafe {
      more := [StopStep(ReleaseStep, Skipped), StopStep(PersistenceStep, Skipped), StopStep(DatabaseStep, Skipped), StopStep(LockStep, Skipped)];
      Joined(start, [Fencing, AskWorkers, AwaitWorkers], [Fencing]);
      SkippedSteps(c, released, wasClosed);
    } else {
      ghost var tried := wasOwned && fenced && c.lossRecorded && context.released.None? && GivesUpRow(context.guard, context.lock.held, []);
      Joined(start, [Fencing, AskWorkers, AwaitWorkers], ClosingDeeds(tried, !context.databaseClosed));
      more := CloseRuntime(context, c, wasOwned && fenced && c.lossRecorded);
      StepsJoin(c, wasOwned && fenced && c.lossRecorded, context.released, wasClosed);
    }
    steps := first + more;
    clean := forall s :: s in steps ==> s.status != Failed;
  }

  lemma Joined(journal: seq<Entry>, a: seq<Deed>, b: seq<Deed>)
    ensures (journal + WhileLost(a)) + WhileLost(b) == journal + WhileLost(a + b)
  {
    WhileLostAppend(a, b);
    hide WhileLost;
    assert (journal + WhileLost(a)) + WhileLost(b) == journal + (WhileLost(a) + WhileLost(b));
  }

  lemma StepsJoin(c: Circumstances, asked: bool, released: Option<bool>, wasClosed: bool)
    ensures ShutdownSteps(c, false, false, None, false)[..6] + ShutdownSteps(c, true, asked, released, wasClosed)[6..] == ShutdownSteps(c, true, asked, released, wasClosed)
  {
  }

  lemma SkippedSteps(c: Circumstances, released: Option<bool>, wasClosed: bool)
    ensures ShutdownSteps(c, false, false, None, false)[..6] +
              [StopStep(ReleaseStep, Skipped), StopStep(PersistenceStep, Skipped), StopStep(DatabaseStep, Skipped), StopStep(LockStep, Skipped)] ==
            ShutdownSteps(c, false, false, released, wasClosed)
  {
  }

  /** Up to the loss recording. */
  method StopWorkers(context: RuntimeOwnershipContext, c: Circumstances) returns (fenced: bool, unsafe: bool, steps: seq<StopStep>)
    requires context.Valid()
    modifies context`guard, context`journal
    ensures context.Valid() && context.guard.status == Status.Lost && fenced == !c.fenceThrows
    ensures unsafe <==> c.deliveryThrows || c.telegramThrows || c.schedulerThrows || c.workers != Reported(false, true, false, true, false)
    ensures unsafe ==> context.guard.lossReason !in {Some("RUNTIME_SHUTDOWN"), Some("SCOPED_WORK_COMPLETE"), Some("STARTUP_FAILED")}
    ensures context.guard == GuardAfterStop(old(context.guard), c, !unsafe)
    ensures context.journal == old(context.journal) + WhileLost([Fencing, AskWorkers, AwaitWorkers]) + if unsafe then WhileLost([Fencing]) else []
    ensures steps == ShutdownSteps(c, false, false, None, false)[..6]
  {
    hide Lose, LoseAll, OnlyWhenLost, IsCleanupFence, GuardOk, ShutdownSteps, WhileLost;
    ghost var start := context.journal;
    WhileLostOne(Fencing);
    ThreeWhileLost(start, Fencing, AskWorkers, AwaitWorkers);
    FirstSteps(c);
    CleanupFences();
    LoseKeeps(context.guard, "RUNTIME_SHUTDOWN");
    fenced := context.Fence("RUNTIME_SHUTDOWN", c.fenceThrows);
    context.Note(AskWorkers);
    steps := [StopStep(FenceStep, StatusOf(fenced)), StopStep(DeliveryStep, StatusOf(!c.deliveryThrows)),
              StopStep(TelegramStep, StatusOf(!c.telegramThrows)), StopStep(SchedulerStep, StatusOf(!c.schedulerThrows))];
    LoseAllKeeps(context.guard, c.meanwhile);
    context.Await(c.meanwhile);
    context.Note(AwaitWorkers);
    steps := steps + [StopStep(QuiescenceStep, StatusOf(Quiet(c.workers)))];
    unsafe := c.deliveryThrows || c.telegramThrows || c.schedulerThrows || !Quiet(c.workers);
    if unsafe {
      UnsafeLoss(context.guard);
      var _ := context.Fence("RUNTIME_WORK_QUIESCENCE_FAILED", false);
    }
    LoseAllKeeps(context.guard, c.later);
    context.Await(c.later);
    steps := steps + [StopStep(LossRecordingStep, StatusOf(c.lossRecorded))];
  }

  lemma CleanupFences()
    ensures forall reason :: IsCleanupFence(reason) <==> reason in {Some("RUNTIME_SHUTDOWN"), Some("SCOPED_WORK_COMPLETE"), Some("STARTUP_FAILED")}
  {
  }

  lemma ThreeWhileLost(journal: seq<Entry>, a: Deed, b: Deed, d: Deed)
    ensures journal + [Entry(a, true)] + [Entry(b, true)] + [Entry(d, true)] == journal + WhileLost([a, b, d])
  {
  }

  lemma FirstSteps(c: Circumstances)
    ensures [StopStep(FenceStep, StatusOf(!c.fenceThrows)), StopStep(DeliveryStep, StatusOf(!c.deliveryThrows)),
             StopStep(TelegramStep, StatusOf(!c.telegramThrows)), StopStep(SchedulerStep, StatusOf(!c.schedulerThrows))] +
            [StopStep(QuiescenceStep, StatusOf(Quiet(c.workers)))] + [StopStep(LossRecordingStep, StatusOf(c.lossRecorded))] ==
            ShutdownSteps(c, false, false, None, false)[..6]
    ensures Quiet(c.workers) <==> c.workers == Reported(false, true, false, true, false)
  {
  }

  /** From the release of the row on, for workers that have stopped. */
  method CloseRuntime(context: RuntimeOwnershipContext, c: Circumstances, giveUpRow: bool) returns (steps: seq<StopStep>)
    requires context.Valid() && context.guard.status == Status.Lost
    modifies context
    ensures context.Valid() && context.guard.status == Status.Lost && context.lock == BeginRelease(old(context.lock)) && context.lock.asked && context.databaseClosed
    ensures context.guard == if giveUpRow then AfterRelease(old(context.guard), old(context.lock).held, old(context.released), [], c.row) else old(context.guard)
    ensures var tried := giveUpRow && old(context.released).None? && GivesUpRow(old(context.guard), old(context.lock).held, []);
            && context.journal == old(context.journal) + WhileLost(ClosingDeeds(tried, !old(context.databaseClosed)))
            && context.released == (if !giveUpRow || old(context.released).Some? then old(context.released) else Some(tried && c.row.Accepted?))
    ensures steps == ShutdownSteps(c, true, giveUpRow, context.released, old(context.databaseClosed))[6..]
  {
    hide Lose, LoseAll, OnlyWhenLost, IsCleanupFence, GivesUpRow, GuardOk, AfterRelease, Heard, WhileLost, ClosingDeeds, ShutdownSteps, BeginRelease;
    ghost var start, wasClosed := context.journal, context.databaseClosed;
    ghost var tried := giveUpRow && context.released.None? && GivesUpRow(context.guard, context.lock.held, []);
    ghost var first, rest := Either(tried, TryRowRelease), [ClosePersistence] + Either(!wasClosed, CloseDatabase) + [AskLock];
    WhileLostOne(TryRowRelease);
    if giveUpRow {
      ReleaseKeepsLoss(context.guard, context.lock.held, context.released, [], c.row);
      var released := context.ReleaseCurrentOwnership(c.row, []);
      steps := [StopStep(ReleaseStep, StatusOf(released))];
    } else {
      steps := [StopStep(ReleaseStep, Skipped)];
    }
    assert context.journal == start + WhileLost(first);
    var closing := CloseAndFree(context, c);
    Joined(start, first, rest);
    DeedsJoin(tried, !wasClosed);
    ReleaseThenClose(c, giveUpRow, context.released, wasClosed);
    steps := steps + closing;
  }

  lemma DeedsJoin(tried: bool, open: bool)
    ensures Either(tried, TryRowRelease) + ([ClosePersistence] + Either(open, CloseDatabase) + [AskLock]) == ClosingDeeds(tried, open)
  {
  }

  lemma ReleaseThenClose(c: Circumstances, asked: bool, released: Option<bool>, wasClosed: bool)
    ensures [StopStep(ReleaseStep, if asked then StatusOf(released == Some(true)) else Skipped)] + ShutdownSteps(c, true, false, None, wasClosed)[7..] ==
            ShutdownSteps(c, true, asked, released, wasClosed)[6..]
  {
  }

  lemma WhileLostOne(deed: Deed)
    ensures WhileLost([]) == [] && WhileLost([deed]) == [Entry(deed, true)]
  {
  }

  method CloseAndFree(context: RuntimeOwnershipContext, c: Circumstances) returns (steps: seq<StopStep>)
    requires context.Valid() && context.guard.status == Status.Lost
    modifies context`databaseClosed, context`journal, context`lock
    ensures context.Valid() && context.lock == BeginRelease(old(context.lock)) && context.lock.asked && context.databaseClosed
    ensures context.journal == old(context.journal) + WhileLost([ClosePersistence] + Either(!old(context.databaseClosed), CloseDatabase) + [AskLock])
    ensures steps == ShutdownSteps(c, true, false, None, old(context.databaseClosed))[7..]
  {
    hide OnlyWhenLost, GuardOk;
    context.Note(ClosePersistence);
    steps := [StopStep(PersistenceStep, StatusOf(!c.persistenceThrows))];
    var closed := context.CloseOwnershipDatabase(c.databaseThrows);
    steps := steps + [StopStep(DatabaseStep, StatusOf(closed))];
    var freed := context.ReleaseProcessLock(c.lockFails);
    steps := steps + [StopStep(LockStep, StatusOf(freed))];
  }

  /** The loss of a runtime whose workers may still run replaces an orderly one. */
  lemma UnsafeLoss(g: Guard)
    requires GuardOk(g) && g.status == Status.Lost
    ensures Lose(g, "RUNTIME_WORK_QUIESCENCE_FAILED").status == Status.Lost
    ensures Lose(g, "RUNTIME_WORK_QUIESCENCE_FAILED").lossReason !in {Some("RUNTIME_SHUTDOWN"), Some("SCOPED_WORK_COMPLETE"), Some("STARTUP_FAILED")}
    ensures !IsCleanupFence(Lose(g, "RUNTIME_WORK_QUIESCENCE_FAILED").lossReason)
  {
  }

  // ---------------------------------------------------------------------------------------------
  // The other two paths
  // ---------------------------------------------------------------------------------------------

  /** The guard of a path that fences, gives the row up and waits for the loss to be recorded. */
  function GuardAfterCleanup(g: Guard, reason: string, lockHeld: bool, released: Option<bool>, c: Circumstances): Guard {
    LoseAll(AfterRelease(Lose(g, reason), lockHeld, released, c.meanwhile, c.row), c.later)
  }

  /** What both paths begin with. */
  method FenceAndGiveUp(context: RuntimeOwnershipContext, reason: string, c: Circumstances) returns (fenced: bool, released: bool)
    requires context.Valid()
    modifies context`guard, context`journal, context`released
    ensures context.Valid() && context.guard.status == Status.Lost && fenced == !c.fenceThrows && context.released == Some(released)
    ensures var g := Lose(old(context.guard), reason);
            var tried := old(context.released).None? && GivesUpRow(g, old(context.lock).held, c.meanwhile);
            && context.journal == old(context.journal) + WhileLost([Fencing] + Either(tried, TryRowRelease))
            && context.released == (if old(context.released).Some? then old(context.released) else Some(tried && c.row.Accepted?))
            && context.guard == GuardAfterCleanup(old(context.guard), reason, old(context.lock).held, old(context.released), c)
    ensures old(context.guard).status == Status.Lost && !IsCleanupFence(old(context.guard).lossReason) ==> context.guard.lossReason == old(context.guard).lossReason
  {
    hide Lose, LoseAll, OnlyWhenLost, GivesUpRow, GuardOk, IsCleanupFence, AfterRelease, Heard, WhileLost;
    ghost var start := context.journal;
    LoseKeeps(context.guard, reason);
    WhileLostOne(Fencing);
    WhileLostOne(TryRowRelease);
    fenced := context.Fence(reason, c.fenceThrows);
    Joined(start, [Fencing], Either(context.released.None? && GivesUpRow(context.guard, context.lock.held, c.meanwhile), TryRowRelease));
    ReleaseKeepsLoss(context.guard, context.lock.held, context.released, c.meanwhile, c.row);
    released := context.ReleaseCurrentOwnership(c.row, c.meanwhile);
    LoseAllKeeps(context.guard, c.later);
    context.Await(c.later);
  }

  /** shutdownAfterStartupFailure: fenced, the row given up, and then the lock is always freed, whether or not work has stopped. */
  method ShutdownAfterStartupFailure(context: RuntimeOwnershipContext, c: Circumstances)
    requires context.Valid()
    modifies context
    ensures context.Valid() && context.guard.status == Status.Lost
    ensures var g := Lose(old(context.guard), "STARTUP_FAILED");
            var tried := old(context.released).None? && GivesUpRow(g, old(context.lock).held, c.meanwhile);
            && context.journal == old(context.journal) +
                 WhileLost([Fencing] + Either(tried, TryRowRelease) + Either(!old(context.databaseClosed), CloseDatabase) + [AskLock])
            && context.released == (if old(context.released).Some? then old(context.released) else Some(tried && c.row.Accepted?))
            && context.guard == GuardAfterCleanup(old(context.guard), "STARTUP_FAILED", old(context.lock).held, old(context.released), c)
    ensures context.lock == BeginRelease(old(context.lock)) && context.lock.asked && context.databaseClosed
  {
    hide Lose, LoseAll, OnlyWhenLost, GivesUpRow, GuardOk, GuardAfterCleanup, WhileLost, BeginRelease;
    ghost var start, wasClosed := context.journal, context.databaseClosed;
    ghost var first := [Fencing] + Either(context.released.None? && GivesUpRow(Lose(context.guard, "STARTUP_FAILED"), context.lock.held, c.meanwhile), TryRowRelease);
    var _, _ := FenceAndGiveUp(context, "STARTUP_FAILED", c);
    WhileLostOne(CloseDatabase);
    WhileLostOne(AskLock);
    Joined(start, first, Either(!wasClosed, CloseDatabase));
    Joined(start, first + Either(!wasClosed, CloseDatabase), [AskLock]);
    var _ := context.CloseOwnershipDatabase(c.databaseThrows);
    var _ := context.ReleaseProcessLock(c.lockFails);
  }

  lemma QuiescenceFailureIsReal(g: Guard)
    requires GuardOk(g)
    ensures g.lossReason == Some("SCOPED_WORK_QUIESCENCE_FAILED") ==> g.status == Status.Lost && !IsCleanupFence(g.lossReason)
  {
  }

  /** The scope that is known not to have stopped keeps its lock and its database. */
  method CloseUnlessRetained(context: RuntimeOwnershipContext, c: Circumstances) returns (ok: bool)
    requires context.Valid() && context.guard.status == Status.Lost
    modifies context`lock, context`databaseClosed, context`journal
    ensures context.Valid()
    ensures var free := context.guard.lossReason != Some("SCOPED_WORK_QUIESCENCE_FAILED");
            && context.journal == old(context.journal) + WhileLost(Either(free && !old(context.databaseClosed), CloseDatabase) + Either(free, AskLock))
            && context.lock == (if free then BeginRelease(old(context.lock)) else old(context.lock)) && (free ==> context.lock.asked)
            && context.databaseClosed == (free || old(context.databaseClosed))
            && (ok <==> (free ==> (old(context.databaseClosed) || !c.databaseThrows) && !c.lockFails))
  {
    hide OnlyWhenLost, GuardOk, BeginRelease, WhileLost;
    WhileLostOne(CloseDatabase);
    WhileLostOne(AskLock);
    if context.guard.lossReason == Some("SCOPED_WORK_QUIESCENCE_FAILED") { return true; }
    Joined(context.journal, Either(!context.databaseClosed, CloseDatabase), [AskLock]);
    var closed := context.CloseOwnershipDatabase(c.databaseThrows);
    var freed := context.ReleaseProcessLock(c.lockFails);
    ok := closed && freed;
  }

  /** releaseScopedRuntimeOwnership: fenced, the row given up, and the lock kept exactly when the scoped work is known not to have stopped. */
  method ReleaseScopedRuntimeOwnership(context: RuntimeOwnershipContext, c: Circumstances) returns (ok: bool)
    requires context.Valid()
    modifies context
    ensures context.Valid() && context.guard.status == Status.Lost
    ensures var g := Lose(old(context.guard), "SCOPED_WORK_COMPLETE");
            var tried := old(context.released).None? && GivesUpRow(g, old(context.lock).held, c.meanwhile);
            var free := context.guard.lossReason != Some("SCOPED_WORK_QUIESCENCE_FAILED");
            && context.journal == old(context.journal) +
                 WhileLost([Fencing] + Either(tried, TryRowRelease) + Either(free && !old(context.databaseClosed), CloseDatabase) + Either(free, AskLock))
            && context.released == (if old(context.released).Some? then old(context.released) else Some(tried && c.row.Accepted?))
            && context.guard == GuardAfterCleanup(old(context.guard), "SCOPED_WORK_COMPLETE", old(context.lock).held, old(context.released), c)
            && context.lock == (if free then BeginRelease(old(context.lock)) else old(context.lock)) && (free ==> context.lock.asked)
            && context.databaseClosed == (free || old(context.databaseClosed))
            && (ok <==> !c.fenceThrows && !c.heartbeatThrows && context.released == Some(true) && c.lossRecorded &&
                        (free ==> (old(context.databaseClosed) || !c.databaseThrows) && !c.lockFails))
    ensures old(context.guard).lossReason == Some("SCOPED_WORK_QUIESCENCE_FAILED") ==> context.guard.lossReason == old(context.guard).lossReason
  {
    hide Lose, LoseAll, OnlyWhenLost, GivesUpRow, GuardOk, IsCleanupFence, GuardAfterCleanup, WhileLost, BeginRelease;
    ghost var start, wasClosed := context.journal, context.databaseClosed;
    ghost var first := [Fencing] + Either(context.released.None? && GivesUpRow(Lose(context.guard, "SCOPED_WORK_COMPLETE"), context.lock.held, c.meanwhile), TryRowRelease);
    QuiescenceFailureIsReal(context.guard);
    var fenced, released := FenceAndGiveUp(context, "SCOPED_WORK_COMPLETE", c);
    ghost var free := context.guard.lossReason != Some("SCOPED_WORK_QUIESCENCE_FAILED");
    var closed := CloseUnlessRetained(context, c);
    ok := fenced && !c.heartbeatThrows && released && c.lossRecorded && closed;
    Joined(start, first, Either(free && !wasClosed, CloseDatabase) + Either(free, AskLock));
    assert first + (Either(free && !wasClosed, CloseDatabase) + Either(free, AskLock)) == first + Either(free && !wasClosed, CloseDatabase) + Either(free, AskLock);
  }
}
