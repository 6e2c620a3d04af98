/**
 The heartbeat as an object: each method is what runs between two awaits, and does to the fields what
 the functions of module Heartbeat say. The clock and the store's answer are parameters.
 */
module HeartbeatObject {
  import opened Basics
  import opened OwnershipGuard
  import opened Heartbeat
  import Spec = Heartbeat

  class RuntimeHeartbeat {
    var started: bool
    var stopped: bool
    var subscribed: bool
    var timerDue: Option<int>
    var inFlight: Option<Attempt>
    var lossNotified: bool
    var guard: Guard

    function State(): Beat
      reads this
    {
      Beat(started, stopped, subscribed, timerDue, inFlight, lossNotified, guard)
    }

    constructor (guard: Guard)
      ensures State() == Beat(false, false, false, None, None, false, guard)
    {
      started, stopped, subscribed, timerDue, inFlight, lossNotified := false, false, false, None, None, false;
      this.guard := guard;
    }

    method Start(now: int) returns (ok: bool)
      modifies this`started, this`subscribed, this`timerDue
      ensures ok <==> Spec.Start(old(State()), now).Ok?
      ensures State() == if ok then Spec.Start(old(State()), now).value else old(State())
    {
      if stopped { return false; }
      if started { return true; }
      if guard.status != Owned { return false; }
      started := true;
      subscribed := true;
      ScheduleAt(now, INTERVAL);
      ok := true;
    }

    method ScheduleAt(now: int, delay: int)
      modifies this`timerDue
      ensures State() == Schedule(old(State()), now, delay)
    {
      if stopped || guard.status != Owned { return; }
      timerDue := Some(now + delay);
    }

    /** The guard's loss, with the call of the heartbeat's listener. */
    method MarkLost(reason: string)
      modifies this`guard, this`timerDue, this`lossNotified
      ensures State() == LoseGuard(old(State()), reason)
    {
      var news := LossIsNews(guard, reason);
      guard := Lose(guard, reason);
      if news && subscribed { HandleGuardLoss(); }
    }

    method HandleGuardLoss()
      modifies this`timerDue, this`lossNotified
      ensures State() == old(State()).(timer := None, lossNotified := true)
    {
      timerDue := None;
      lossNotified := true;
    }

    /** runScheduledAttempt and attemptRenewal, up to the call of the store. */
    method RunScheduledAttempt(now: int, lockHeld: bool)
      requires inFlight.None?
      modifies this`timerDue, this`inFlight, this`guard, this`lossNotified
      ensures State() == Fire(old(State()), now, lockHeld)
    {
      timerDue := None;
      if stopped || guard.status != Owned || guard.record.None? { return; }
      var lease := guard.record.value;
      if now >= lease.expiresAt {
        MarkLost("HEARTBEAT_EXPIRED");
        return;
      }
      var (_, held) := AssertLocallyHeld(guard, lockHeld, now);
      if held.Err? {
        MarkLost(if lockHeld then "HEARTBEAT_RENEWAL_FAILED" else "PROCESS_LOCK_LOST");
        return;
      }
      inFlight := Some(Attempt(lease.generation, lease.expiresAt, now));
    }

    /** The rest of attemptRenewal, when the store has answered or failed. */
    method FinishAttempt(answer: Answer, now: int)
      requires inFlight.Some?
      modifies this`timerDue, this`inFlight, this`guard, this`lossNotified
      ensures State() == Settle(old(State()), answer, now)
    {
      var lease := inFlight.value;
      inFlight := None;
      if guard.status != Owned { return; }
      match answer {
        case Mismatch =>
          MarkLost("HEARTBEAT_RENEWAL_MISMATCH");
        case Renewed(row) =>
          if now >= lease.leaseExpiresAt {
            MarkLost("HEARTBEAT_EXPIRED");
            return;
          }
          var (renewed, accepted) := AcceptRenewal(guard, row);
          if accepted.Err? {
            MarkLost("PERSISTED_OWNERSHIP_MISMATCH");
            return;
          }
          guard := renewed;
          ScheduleAt(now, INTERVAL);
        case Failure(transient) =>
          if now >= lease.leaseExpiresAt {
            MarkLost("HEARTBEAT_EXPIRED");
            return;
          }
          if !transient {
            MarkLost("HEARTBEAT_RENEWAL_FAILED");
            return;
          }
          ScheduleAt(now, if INTERVAL < lease.leaseExpiresAt - now then INTERVAL else lease.leaseExpiresAt - now);
      }
    }

    method Stop()
      modifies this`started, this`stopped, this`timerDue
      ensures State() == Spec.Stop(old(State()))
    {
      stopped := true;
      started := false;
      timerDue := None;
    }

    method FinishStop()
      requires StopSettled(State())
      modifies this`subscribed
      ensures State() == Unsubscribe(old(State()))
    {
      subscribed := false;
    }
  }
}
