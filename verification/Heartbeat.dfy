/**
 The heartbeat that renews the lease of an owned runtime. A wake-up is either waiting as a timer or
 under way as an attempt, never both and never neither, and it is due before the lease expires.

 The functions say what happens between two awaits; the class RuntimeHeartbeat carries them out.
 */
module Heartbeat {
  import opened Basics
  import opened OwnershipStore
  import opened OwnershipGuard

  const INTERVAL := 10000
  const TTL := 45000

  /** An attempt waits for the store. It remembers the lease it started from. */
  datatype Attempt = Attempt(generation: nat, leaseExpiresAt: int, attemptedAt: int)

  /** `timer` is the instant at which the pending wake-up is due. */
  datatype Beat = Beat(
    started: bool,
    stopped: bool,
    subscribed: bool,
    timer: Option<int>,
    inFlight: Option<Attempt>,
    lossNotified: bool,
    guard: Guard)

  /** What the store answers to a renewal: the new row, nothing, or an error. */
  datatype Answer = Renewed(row: OwnershipRecord) | Mismatch | Failure(transient: bool)

  function Schedule(b: Beat, now: int, delay: int): Beat {
    if b.stopped || b.guard.status != Owned then b else b.(timer := Some(now + delay))
  }

  /** The guard is lost; the heartbeat hears of it while it is subscribed, and clears its timer. */
  function LoseGuard(b: Beat, reason: string): Beat {
    var lost := b.(guard := Lose(b.guard, reason));
    if LossIsNews(b.guard, reason) && b.subscribed then lost.(timer := None, lossNotified := true) else lost
  }

  function Start(b: Beat, now: int): Outcome<Beat> {
    if b.stopped || (!b.started && b.guard.status != Owned) then Err(NotHeld)
    else if b.started then Ok(b)
    else Ok(Schedule(b.(started := true, subscribed := true), now, INTERVAL))
  }

  /** The timer fires: the attempt begins, unless the lease is over. */
  function Fire(b: Beat, now: int, lockHeld: bool): Beat {
    var fired := b.(timer := None);
    if b.stopped || b.guard.status != Owned || b.guard.record.None? then fired
    else
      var lease := b.guard.record.value;
      if now >= lease.expiresAt then LoseGuard(fired, "HEARTBEAT_EXPIRED")
      else
        var (_, held) := AssertLocallyHeld(b.guard, lockHeld, now);
        if held.Ok? then fired.(inFlight := Some(Attempt(lease.generation, lease.expiresAt, now)))
        else if !lockHeld then LoseGuard(fired, "PROCESS_LOCK_LOST")
        else LoseGuard(fired, "HEARTBEAT_RENEWAL_FAILED")
  }

  /** The answer arrives. */
  function Settle(b: Beat, answer: Answer, now: int): Beat
    requires b.inFlight.Some?
  {
    var lease := b.inFlight.value;
    var done := b.(inFlight := None);
    if b.guard.status != Owned then done
    else match answer
      case Mismatch => LoseGuard(done, "HEARTBEAT_RENEWAL_MISMATCH")
      case Renewed(row) =>
        if now >= lease.leaseExpiresAt then LoseGuard(done, "HEARTBEAT_EXPIRED")
        else
          var (h, accepted) := AcceptRenewal(b.guard, row);
          if accepted.Err? then LoseGuard(done, "PERSISTED_OWNERSHIP_MISMATCH")
          else Schedule(done.(guard := h), now, INTERVAL)
      case Failure(transient) =>
        if now >= lease.leaseExpiresAt then LoseGuard(done, "HEARTBEAT_EXPIRED")
        else if !transient then LoseGuard(done, "HEARTBEAT_RENEWAL_FAILED")
        else Schedule(done, now, if INTERVAL < lease.leaseExpiresAt - now then INTERVAL else lease.leaseExpiresAt - now)
  }

  function Stop(b: Beat): Beat { b.(stopped := true, started := false, timer := None) }

  /** stop() settles when no attempt is under way. */
  predicate StopSettled(b: Beat) { b.stopped && b.inFlight.None? }

  function Unsubscribe(b: Beat): Beat { b.(subscribed := false) }

  // ---------------------------------------------------------------------------------------------
  // The world around it
  // ---------------------------------------------------------------------------------------------

  /** `reply` is what a renewal under way has got from the store, before it is delivered. */
  datatype World = World(now: int, beat: Beat, ownerToken: string, store: Store, reply: Option<Reply<Option<OwnershipRecord>>>)

  datatype Step =
    | Pass(ms: nat)
    | StartBeat
    | TimerFires(lockHeld: bool)
    | Commit
    | Deliver
    | Fail(transient: bool)
    | Reread
    | OthersWrite(store: Store)
    | LoseFor(reason: string)
    | StopBeat
    | FinishStop

  /** Another writer never renews this runtime's lease. */
  predicate Foreign(g: Guard, before: Store, after: Store) {
    after.current == before.current || after.current.None? || g.record.None? || !SameOwnership(g.record.value, after.current)
  }

  function AnswerOf(reply: Reply<Option<OwnershipRecord>>): Answer {
    if reply.Refused? then Failure(false) else if reply.value.None? then Mismatch else Renewed(reply.value.value)
  }

  /** Time passes, timers never fire early, and a renewal that fails has written nothing. */
  function Next(w: World, step: Step): Option<World> {
    var b := w.beat;
    match step
    case Pass(ms) => Some(w.(now := w.now + ms))
    case StartBeat =>
      if b.guard.record.Some? && w.now > b.guard.record.value.acquiredAt + (TTL - INTERVAL) then None
      else
        var next := Start(b, w.now);
        if next.Ok? then Some(w.(beat := next.value)) else None
    case TimerFires(lockHeld) =>
      if b.timer.Some? && b.timer.value <= w.now then Some(w.(beat := Fire(b, w.now, lockHeld), reply := None)) else None
    case Commit =>
      if b.inFlight.Some? && w.reply.None? then
        var a := b.inFlight.value;
        var (store, reply) := Renew(w.store, w.ownerToken, a.generation, a.attemptedAt, a.attemptedAt + TTL);
        Some(w.(store := store, reply := Some(reply)))
      else None
    case Deliver =>
      if b.inFlight.Some? && w.reply.Some? then Some(w.(beat := Settle(b, AnswerOf(w.reply.value), w.now), reply := None)) else None
    case Fail(transient) =>
      if b.inFlight.Some? && w.reply.None? then Some(w.(beat := Settle(b, Failure(transient), w.now))) else None
    case Reread =>
      if b.guard.status == Owned && b.guard.record.Some? && SameOwnership(b.guard.record.value, w.store.current)
      then Some(w.(beat := b.(guard := b.guard.(record := w.store.current)))) else None
    case OthersWrite(store) => if Foreign(b.guard, w.store, store) then Some(w.(store := store)) else None
    case LoseFor(reason) => Some(w.(beat := LoseGuard(b, reason)))
    case StopBeat => Some(w.(beat := Stop(b)))
    case FinishStop => if StopSettled(b) then Some(w.(beat := Unsubscribe(b))) else None
  }

  function Run(w: World, steps: seq<Step>): Option<World> {
    if steps == [] then Some(w)
    else
      var before :- Run(w, steps[..|steps| - 1]);
      Next(before, steps[|steps| - 1])
  }

  /** A guard has just acquired its lease, and the heartbeat has been created. */
  predicate Initial(w: World) {
    var b := w.beat;
    !b.started && !b.stopped && !b.subscribed && b.timer.None? && b.inFlight.None? && !b.lossNotified && w.reply.None? &&
    b.guard.status == Owned && b.guard.record.Some? && b.guard.record == w.store.current &&
    var r := b.guard.record.value;
    r.ownerToken == w.ownerToken && r.heartbeatAt == r.acquiredAt && r.expiresAt == r.acquiredAt + TTL && r.acquiredAt <= w.now
  }

  // ---------------------------------------------------------------------------------------------
  // The invariant
  // ---------------------------------------------------------------------------------------------

  predicate Running(b: Beat) { b.started && !b.stopped && b.guard.status == Owned }

  /** Exactly one wake-up while running; none is pending otherwise. */
  ghost predicate OneWakeUp(b: Beat) {
    (Running(b) ==> (b.timer.Some? <==> b.inFlight.None?)) && (!Running(b) ==> b.timer.None?) &&
    (b.started ==> !b.stopped && b.subscribed) && (b.inFlight.Some? ==> b.started || b.stopped)
  }

  /** A timer is due within the last 35 seconds of the lease, and by its end. */
  ghost predicate DueInTime(b: Beat) {
    b.guard.status == Owned && b.timer.Some? ==>
      b.guard.record.Some? && b.guard.record.value.expiresAt - (TTL - INTERVAL) <= b.timer.value <= b.guard.record.value.expiresAt
  }

  /** An attempt began within the last 35 seconds of the lease that it extends. */
  ghost predicate AttemptInTime(w: World) {
    var b := w.beat;
    b.guard.status == Owned && b.inFlight.Some? ==>
      var a := b.inFlight.value;
      a.leaseExpiresAt - (TTL - INTERVAL) <= a.attemptedAt < a.leaseExpiresAt && a.attemptedAt <= w.now
  }

  /** The row this attempt has written, if it has. */
  function Written(w: World): Option<OwnershipRecord> {
    if w.beat.inFlight.Some? && w.reply.Some? && w.reply.value.Reply? then w.reply.value.value else None
  }

  /** The guard's record and the row differ only by what the attempt under way has written. */
  ghost predicate LeaseAgrees(w: World) {
    var b := w.beat;
    (b.guard.status == Owned ==>
      b.guard.record.Some? && b.guard.record.value.acquiredAt <= w.now &&
      (!b.started && !b.stopped ==> b.guard.record.value.expiresAt == b.guard.record.value.acquiredAt + TTL) &&
      (b.inFlight.Some? ==> b.guard.record.value.expiresAt == b.inFlight.value.leaseExpiresAt || b.guard.record == Written(w)) &&
      (SameOwnership(b.guard.record.value, w.store.current) ==>
         if Written(w).Some? then w.store.current == Written(w) else w.store.current.value.expiresAt == b.guard.record.value.expiresAt)) &&
    (Written(w).Some? ==> Written(w).value.expiresAt == b.inFlight.value.attemptedAt + TTL) &&
    (b.inFlight.Some? && w.reply.None? ==> b.guard.status == Owned ==> b.guard.record.value.expiresAt == b.inFlight.value.leaseExpiresAt) &&
    (w.reply.Some? ==> b.inFlight.Some?)
  }

  ghost predicate WorldOk(w: World) {
    OneWakeUp(w.beat) && DueInTime(w.beat) && AttemptInTime(w) && LeaseAgrees(w)
  }

  // ---------------------------------------------------------------------------------------------
  // Every step keeps it
  // ---------------------------------------------------------------------------------------------

  /** A lost guard leaves nothing pending. */
  lemma LoseKeeps(b: Beat, reason: string)
    requires OneWakeUp(b) || (Running(b) && b.started && !b.stopped && b.subscribed && b.timer.None? && b.inFlight.None?)
    ensures OneWakeUp(LoseGuard(b, reason)) && LoseGuard(b, reason).guard.status == Lost && LoseGuard(b, reason).inFlight == b.inFlight
  {
  }

  lemma StartKeeps(w: World)
    requires WorldOk(w) && Next(w, StartBeat).Some?
    ensures WorldOk(Next(w, StartBeat).value)
  {
    hide SameOwnership;
  }

  lemma FireKeeps(w: World, lockHeld: bool)
    requires WorldOk(w) && Next(w, TimerFires(lockHeld)).Some?
    ensures WorldOk(Next(w, TimerFires(lockHeld)).value)
  {
    hide SameOwnership;
  }

  lemma RenewShape(s: Store, ownerToken: string, generation: nat, heartbeatAt: int, expiresAt: int)
    ensures var (t, reply) := Renew(s, ownerToken, generation, heartbeatAt, expiresAt);
            if reply.Reply? && reply.value.Some? then t.current == reply.value && reply.value.value.expiresAt == expiresAt else t == s
  {
    hide Floor;
  }

  lemma CommitKeeps(w: World)
    requires WorldOk(w) && Next(w, Commit).Some?
    ensures WorldOk(Next(w, Commit).value)
  {
    hide Renew, SameOwnership;
    var a := w.beat.inFlight.value;
    RenewShape(w.store, w.ownerToken, a.generation, a.attemptedAt, a.attemptedAt + TTL);
    var (store, reply) := Renew(w.store, w.ownerToken, a.generation, a.attemptedAt, a.attemptedAt + TTL);
    var x := w.(store := store, reply := Some(reply));
    assert Written(w).None?;
    assert Next(w, Commit) == Some(x);
    assert Written(x) == if reply.Reply? then reply.value else None;
    assert LeaseAgrees(x);
  }

  /** Without an owned guard there is nothing to keep but that nothing is pending. */
  lemma NotOwnedOk(w: World)
    requires w.beat.guard.status != Owned && w.beat.timer.None? && w.beat.inFlight.None? && w.reply.None?
    requires w.beat.started ==> !w.beat.stopped && w.beat.subscribed
    ensures WorldOk(w)
  {
    hide SameOwnership;
  }

  /** An answer that does not renew the lease loses it, or finds it lost. */
  lemma RefusedSettles(b: Beat, answer: Answer, now: int)
    requires OneWakeUp(b) && b.inFlight.Some?
    requires b.guard.status != Owned || !answer.Renewed? || now >= b.inFlight.value.leaseExpiresAt || AcceptRenewal(b.guard, answer.row).1.Err?
    requires !(answer.Failure? && answer.transient)
    ensures var x := Settle(b, answer, now);
            x.guard.status != Owned && x.timer.None? && x.inFlight.None? && (x.started ==> !x.stopped && x.subscribed)
  {
    hide SameOwnership, AcceptRenewal;
  }

  lemma RenewedKeeps(w: World)
    requires WorldOk(w) && Next(w, Deliver).Some? && w.beat.guard.status == Owned && Written(w).Some?
    requires w.now < w.beat.inFlight.value.leaseExpiresAt && AcceptRenewal(w.beat.guard, Written(w).value).1.Ok?
    ensures WorldOk(Next(w, Deliver).value)
  {
    hide Lose, LossIsNews, LoseGuard;
    var b, row := w.beat, Written(w).value;
    AcceptedShape(b.guard, row);
    hide AcceptRenewal, SameOwnership;
    SameOwnershipShift(b.guard.record.value, row, w.store.current);
    assert AnswerOf(w.reply.value) == Renewed(row);
    var done := b.(inFlight := None, guard := b.guard.(record := Some(row)));
    assert Settle(b, Renewed(row), w.now) == Schedule(done, w.now, INTERVAL);
  }

  lemma AcceptedShape(g: Guard, row: OwnershipRecord)
    requires g.status == Owned && AcceptRenewal(g, row).1.Ok?
    ensures g.record.Some? && AcceptRenewal(g, row).0 == g.(record := Some(row)) && SameOwnership(g.record.value, Some(row))
  {
  }

  lemma SameOwnershipShift(a: OwnershipRecord, b: OwnershipRecord, current: Option<OwnershipRecord>)
    requires SameOwnership(a, Some(b))
    ensures SameOwnership(b, current) == SameOwnership(a, current) && a.acquiredAt == b.acquiredAt
  {
  }

  lemma DeliverKeeps(w: World)
    requires WorldOk(w) && Next(w, Deliver).Some?
    ensures WorldOk(Next(w, Deliver).value)
  {
    var b, answer := w.beat, AnswerOf(w.reply.value);
    if b.guard.status == Owned && answer.Renewed? && w.now < b.inFlight.value.leaseExpiresAt && AcceptRenewal(b.guard, answer.row).1.Ok? {
      assert Written(w) == Some(answer.row);
      RenewedKeeps(w);
    } else {
      hide AcceptRenewal, SameOwnership, Lose;
      RefusedSettles(b, answer, w.now);
      NotOwnedOk(Next(w, Deliver).value);
    }
  }

  lemma FailKeeps(w: World, transient: bool)
    requires WorldOk(w) && Next(w, Fail(transient)).Some?
    ensures WorldOk(Next(w, Fail(transient)).value)
  {
    hide SameOwnership;
  }

  lemma RereadKeeps(w: World)
    requires WorldOk(w) && Next(w, Reread).Some?
    ensures WorldOk(Next(w, Reread).value)
  {
  }

  lemma OthersKeep(w: World, store: Store)
    requires WorldOk(w) && Next(w, OthersWrite(store)).Some?
    ensures WorldOk(Next(w, OthersWrite(store)).value)
  {
  }

  lemma LoseForKeeps(w: World, reason: string)
    requires WorldOk(w)
    ensures WorldOk(Next(w, LoseFor(reason)).value)
  {
    hide SameOwnership;
  }

  lemma StopKeeps(w: World)
    requires WorldOk(w)
    ensures WorldOk(Next(w, StopBeat).value)
    ensures Next(w, FinishStop).Some? ==> WorldOk(Next(w, FinishStop).value)
  {
    hide SameOwnership;
  }

  lemma PassKeeps(w: World, ms: nat)
    requires WorldOk(w)
    ensures WorldOk(Next(w, Pass(ms)).value)
  {
    hide SameOwnership;
  }

  lemma StepKeeps(w: World, step: Step)
    requires WorldOk(w) && Next(w, step).Some?
    ensures WorldOk(Next(w, step).value)
  {
    hide *;
    match step {
      case Pass(ms) => PassKeeps(w, ms);
      case StartBeat => StartKeeps(w);
      case TimerFires(lockHeld) => FireKeeps(w, lockHeld);
      case Commit => CommitKeeps(w);
      case Deliver => DeliverKeeps(w);
      case Fail(transient) => FailKeeps(w, transient);
      case Reread => RereadKeeps(w);
      case OthersWrite(store) => OthersKeep(w, store);
      case LoseFor(reason) => LoseForKeeps(w, reason);
      case StopBeat => StopKeeps(w);
      case FinishStop => StopKeeps(w);
    }
  }

  lemma {:induction false} RunKeeps(w: World, steps: seq<Step>)
    requires Initial(w) && Run(w, steps).Some?
    ensures WorldOk(Run(w, steps).value)
  {
    hide Next, WorldOk, Initial;
    if steps == [] {
      InitialOk(w);
    } else {
      RunKeeps(w, steps[..|steps| - 1]);
      StepKeeps(Run(w, steps[..|steps| - 1]).value, steps[|steps| - 1]);
    }
  }

  lemma InitialOk(w: World)
    requires Initial(w)
    ensures WorldOk(w)
  {
  }

  // ---------------------------------------------------------------------------------------------
  // Main results
  // ---------------------------------------------------------------------------------------------

  /** In every run a running heartbeat has exactly one wake-up, pending or under way; otherwise none is pending. */
  lemma AlwaysOneWakeUp(w: World, steps: seq<Step>)
    requires Initial(w) && Run(w, steps).Some?
    ensures var b := Run(w, steps).value.beat;
            if Running(b) then b.timer.Some? <==> b.inFlight.None? else b.timer.None?
  {
    hide Run, Initial, DueInTime, AttemptInTime, LeaseAgrees;
    RunKeeps(w, steps);
  }

  /** Every pending wake-up is due by the end of the lease, and every attempt began before the end of the lease it extends. */
  lemma WakeUpByExpiry(w: World, steps: seq<Step>)
    requires Initial(w) && Run(w, steps).Some? && Running(Run(w, steps).value.beat)
    ensures var b := Run(w, steps).value.beat;
            b.guard.record.Some? &&
            (b.timer.Some? ==> b.timer.value <= b.guard.record.value.expiresAt) &&
            (b.inFlight.Some? ==> b.inFlight.value.attemptedAt < b.inFlight.value.leaseExpiresAt)
  {
    hide Run, Initial, SameOwnership;
    RunKeeps(w, steps);
  }

  /** No wake-up is pending further ahead than 10 seconds. */
  predicate Near(b: Beat, now: int) { b.timer.Some? ==> b.timer.value <= now + 10000 }

  lemma LoseNear(b: Beat, reason: string, now: int)
    requires Near(b, now)
    ensures Near(LoseGuard(b, reason), now)
  {
  }

  lemma SettleNear(b: Beat, answer: Answer, now: int)
    requires b.inFlight.Some? && Near(b, now)
    ensures Near(Settle(b, answer, now), now)
  {
    hide SameOwnership, AcceptRenewal, LoseGuard;
    var done := b.(inFlight := None);
    LoseNear(done, "HEARTBEAT_RENEWAL_MISMATCH", now);
    LoseNear(done, "HEARTBEAT_EXPIRED", now);
    LoseNear(done, "PERSISTED_OWNERSHIP_MISMATCH", now);
    LoseNear(done, "HEARTBEAT_RENEWAL_FAILED", now);
  }

  lemma FireNear(b: Beat, now: int, lockHeld: bool)
    requires Near(b, now)
    ensures Near(Fire(b, now, lockHeld), now)
  {
    hide AssertLocallyHeld, Lose, LossIsNews;
  }

  lemma NearStep(w: World, step: Step)
    requires Next(w, step).Some? && Near(w.beat, w.now)
    ensures Near(Next(w, step).value.beat, Next(w, step).value.now)
  {
    hide Renew, SameOwnership, Settle, Fire, LoseGuard, AnswerOf, Foreign;
    match step {
      case Deliver => SettleNear(w.beat, AnswerOf(w.reply.value), w.now);
      case Fail(transient) => SettleNear(w.beat, Failure(transient), w.now);
      case TimerFires(lockHeld) => FireNear(w.beat, w.now, lockHeld);
      case LoseFor(reason) => LoseNear(w.beat, reason, w.now);
      case _ =>
    }
  }

  /** In every run a pending wake-up is never more than 10 seconds ahead. */
  lemma {:induction false} NeverFarAhead(w: World, steps: seq<Step>)
    requires Initial(w) && Run(w, steps).Some?
    ensures var x := Run(w, steps).value; x.beat.timer.Some? ==> x.beat.timer.value <= x.now + 10000
  {
    if steps != [] {
      hide Next, Initial;
      NeverFarAhead(w, steps[..|steps| - 1]);
      NearStep(Run(w, steps[..|steps| - 1]).value, steps[|steps| - 1]);
    }
  }

  /** The row that the store has answered with. */
  function Answered(w: World): Option<OwnershipRecord> {
    if w.reply.Some? && w.reply.value.Reply? then w.reply.value.value else None
  }

  /**
   When the store has answered, the runtime stays the owner exactly if it got a row of its own lease before
   that lease ended. The lease then lasts 45 seconds from the attempt, and the next wake-up comes 10
   seconds after the answer, strictly before the new expiry. Otherwise ownership is lost.
   */
  lemma AfterAnswer(w: World, steps: seq<Step>)
    requires Initial(w) && Run(w, steps).Some? && Running(Run(w, steps).value.beat) && Next(Run(w, steps).value, Deliver).Some?
    ensures var x := Run(w, steps).value;
            var a, record, y := x.beat.inFlight.value, x.beat.guard.record, Next(x, Deliver).value;
            record.Some? &&
            (y.beat.guard.status == Owned <==> Answered(x).Some? && x.now < a.leaseExpiresAt && SameOwnership(record.value, Answered(x))) &&
            (y.beat.guard.status == Owned ==>
               y.beat.guard.record == Answered(x) && y.beat.guard.record.value.expiresAt == a.attemptedAt + 45000 &&
               y.beat.timer == Some(x.now + 10000) && x.now + 10000 < y.beat.guard.record.value.expiresAt) &&
            (y.beat.guard.status != Owned ==>
               y.beat.timer.None? &&
               y.beat.guard.lossReason == Some(if x.reply == Some(Reply(None)) then "HEARTBEAT_RENEWAL_MISMATCH"
                                               else if x.now >= a.leaseExpiresAt then "HEARTBEAT_EXPIRED"
                                               else if Answered(x).None? then "HEARTBEAT_RENEWAL_FAILED"
                                               else "PERSISTED_OWNERSHIP_MISMATCH"))
  {
    hide Run, Initial, SameOwnership, IsCleanupFence;
    RunKeeps(w, steps);
  }

  /**
   When the store has failed, the runtime stays the owner exactly if the failure is transient and the lease
   not over. The next wake-up then comes after 10 seconds, or at the end of the lease if that is sooner.
   */
  lemma AfterFailure(w: World, steps: seq<Step>, transient: bool)
    requires Initial(w) && Run(w, steps).Some? && Running(Run(w, steps).value.beat) && Next(Run(w, steps).value, Fail(transient)).Some?
    ensures var x := Run(w, steps).value;
            var a, y := x.beat.inFlight.value, Next(x, Fail(transient)).value;
            (y.beat.guard.status == Owned <==> transient && x.now < a.leaseExpiresAt) &&
            (y.beat.guard.status == Owned ==> y.beat.timer == Some(if x.now + 10000 < a.leaseExpiresAt then x.now + 10000 else a.leaseExpiresAt)) &&
            (y.beat.guard.status != Owned ==>
               y.beat.timer.None? &&
               y.beat.guard.lossReason == Some(if x.now >= a.leaseExpiresAt then "HEARTBEAT_EXPIRED" else "HEARTBEAT_RENEWAL_FAILED"))
  {
    hide Run, Initial, SameOwnership, IsCleanupFence;
    RunKeeps(w, steps);
  }

  /** When the timer fires, an attempt begins exactly under a held lock, at a valid instant before the end of the lease; otherwise ownership is lost. */
  lemma AttemptBeginsIff(w: World, steps: seq<Step>, lockHeld: bool)
    requires Initial(w) && Run(w, steps).Some? && Running(Run(w, steps).value.beat) && Next(Run(w, steps).value, TimerFires(lockHeld)).Some?
    ensures var x := Run(w, steps).value;
            var lease, y := x.beat.guard.record, Next(x, TimerFires(lockHeld)).value;
            lease.Some? && y.beat.timer.None? &&
            (y.beat.guard.status == Owned <==> lockHeld && 0 <= x.now <= 9007199254740991 && x.now < lease.value.expiresAt) &&
            (y.beat.guard.status == Owned ==> y.beat.inFlight == Some(Attempt(lease.value.generation, lease.value.expiresAt, x.now))) &&
            (y.beat.guard.status != Owned ==>
               y.beat.inFlight.None? &&
               y.beat.guard.lossReason == Some(if x.now >= lease.value.expiresAt then "HEARTBEAT_EXPIRED"
                                               else if !lockHeld then "PROCESS_LOCK_LOST" else "HEARTBEAT_RENEWAL_FAILED"))
  {
    hide Run, Initial, SameOwnership, IsCleanupFence;
    RunKeeps(w, steps);
  }

  /** Once a stop has settled, nothing is pending or under way, and nothing ever is again. */
  lemma {:induction false} StoppedForGood(w: World, steps: seq<Step>)
    requires StopSettled(w.beat) && OneWakeUp(w.beat) && Run(w, steps).Some?
    ensures var b := Run(w, steps).value.beat; StopSettled(b) && b.timer.None? && OneWakeUp(b)
  {
    hide Next, OneWakeUp;
    if steps == [] {
      StoppedIdle(w.beat);
    } else {
      var before := Run(w, steps[..|steps| - 1]).value;
      StoppedForGood(w, steps[..|steps| - 1]);
      StoppedStep(before, steps[|steps| - 1]);
    }
  }

  lemma StoppedIdle(b: Beat)
    requires StopSettled(b) && OneWakeUp(b)
    ensures b.timer.None?
  {
  }

  lemma StoppedStep(w: World, step: Step)
    requires StopSettled(w.beat) && OneWakeUp(w.beat) && Next(w, step).Some?
    ensures var b := Next(w, step).value.beat; StopSettled(b) && b.timer.None? && OneWakeUp(b)
  {
    hide Renew, SameOwnership, Settle, Lose, LossIsNews;
  }

  /** A timer fires at any delay but never early; in the runs considered a heartbeat starts within 35 seconds of the acquisition. */
  lemma TimersFire(w: World, lockHeld: bool)
    ensures Next(w, TimerFires(lockHeld)).Some? <==> w.beat.timer.Some? && w.now >= w.beat.timer.value
    ensures w.beat.guard.record.Some? ==>
              (Next(w, StartBeat).Some? <==>
                 !w.beat.stopped && (w.beat.started || w.beat.guard.status == Owned) && w.now <= w.beat.guard.record.value.acquiredAt + 35000)
  {
  }

  /** The first wake-up is due by the end of the lease exactly when the heartbeat starts within 35 seconds of the acquisition. */
  lemma StartDeadlineIff(b: Beat, now: int)
    requires !b.started && !b.stopped && b.guard.status == Owned && b.guard.record.Some?
    requires b.guard.record.value.expiresAt == b.guard.record.value.acquiredAt + TTL
    ensures Start(b, now).Ok? && Start(b, now).value.timer == Some(now + 10000)
    ensures Start(b, now).value.timer.value <= b.guard.record.value.expiresAt <==> now - b.guard.record.value.acquiredAt <= 35000
  {
  }
}
