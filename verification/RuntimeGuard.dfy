/**
 The ownership guard as an object: its methods change the fields step by step and do to them exactly
 what the functions of the specification say, whatever the listeners do.
 */
module RuntimeGuard {
  import opened Basics
  import opened OwnershipStore
  import opened OwnershipGuard
  import Spec = OwnershipGuard

  /** A listener and the reason it was called with. */
  datatype Notice = Notice(listener: nat, reason: string)

  /** The calls of a round of notifications: a listener that throws ends it. */
  function Notices(listeners: seq<nat>, failing: set<nat>, reason: string): seq<Notice> {
    if listeners == [] then []
    else if listeners[0] in failing then [Notice(listeners[0], reason)]
    else [Notice(listeners[0], reason)] + Notices(listeners[1..], failing, reason)
  }

  /** The first listener that throws. */
  function FirstFailing(listeners: seq<nat>, failing: set<nat>): (r: Option<nat>)
    ensures r.Some? ==> r.value in listeners && r.value in failing
    ensures r.None? <==> forall l :: l in listeners ==> l !in failing
  {
    if listeners == [] then None
    else if listeners[0] in failing then Some(listeners[0])
    else FirstFailing(listeners[1..], failing)
  }

  lemma NoticesHead(listeners: seq<nat>, failing: set<nat>, reason: string)
    requires listeners != [] && listeners[0] !in failing
    ensures Notices(listeners, failing, reason) == [Notice(listeners[0], reason)] + Notices(listeners[1..], failing, reason)
    ensures FirstFailing(listeners, failing) == FirstFailing(listeners[1..], failing)
  {
  }

  /** Listeners that do not throw are called, and then the others. */
  lemma {:induction false} NoticesConcat(a: seq<nat>, b: seq<nat>, failing: set<nat>, reason: string)
    requires forall l :: l in a ==> l !in failing
    ensures Notices(a + b, failing, reason) == Notices(a, failing, reason) + Notices(b, failing, reason)
    ensures FirstFailing(a + b, failing) == FirstFailing(b, failing)
  {
    if a == [] {
      assert a + b == b;
    } else {
      assert (a + b)[1..] == a[1..] + b;
      NoticesConcat(a[1..], b, failing, reason);
      hide Notices, FirstFailing;
      NoticesHead(a, failing, reason);
      NoticesHead(a + b, failing, reason);
    }
  }

  lemma NoticesOne(l: nat, failing: set<nat>, reason: string)
    ensures Notices([l], failing, reason) == [Notice(l, reason)]
  {
  }

  lemma NoticesStep(listeners: seq<nat>, failing: set<nat>, reason: string, i: nat)
    requires i < |listeners| && forall l :: l in listeners[..i] ==> l !in failing
    ensures Notices(listeners[..i + 1], failing, reason) == Notices(listeners[..i], failing, reason) + [Notice(listeners[i], reason)]
    ensures listeners[i] in failing ==> Notices(listeners, failing, reason) == Notices(listeners[..i + 1], failing, reason) && FirstFailing(listeners, failing) == Some(listeners[i])
  {
    var front, back := listeners[..i], listeners[i..];
    assert listeners[..i + 1] == front + [listeners[i]] && listeners == front + back;
    NoticesConcat(front, [listeners[i]], failing, reason);
    NoticesConcat(front, back, failing, reason);
    NoticesOne(listeners[i], failing, reason);
  }

  /** A call of a method that may throw what a listener throws instead of its own error. */
  function Answer<T>(own: Outcome<T>, news: bool, listeners: seq<nat>, failing: set<nat>): Outcome<T> {
    var l := FirstFailing(listeners, failing);
    if news && l.Some? then Err(ListenerFailed(l.value)) else own
  }

  /** From g to h the guard was lost, or lost for a better reason. */
  predicate News(g: Guard, h: Guard) {
    h.status == Lost && h.lossReason.Some? && (g.status != Lost || g.lossReason != h.lossReason)
  }

  /** The notifications that go with a change from g to h. */
  function Rung(g: Guard, h: Guard, listeners: seq<nat>, failing: set<nat>): seq<Notice> {
    if News(g, h) then Notices(listeners, failing, h.lossReason.value) else []
  }

  class RuntimeOwnershipGuard {
    var status: Status
    var acquisitionReserved: bool
    var record: Option<OwnershipRecord>
    var takeover: bool
    var lossReason: Option<string>
    var lossListeners: seq<nat>
    ghost var notices: seq<Notice>

    function State(): Guard
      reads this
    {
      Guard(status, acquisitionReserved, record, takeover, lossReason)
    }

    constructor (lockHeld: bool)
      ensures State() == Created(lockHeld) && lossListeners == [] && notices == []
    {
      status, lossReason := if lockHeld then Unowned else Lost, if lockHeld then None else Some("PROCESS_LOCK_LOST");
      acquisitionReserved, record, takeover, lossListeners := false, None, false, [];
      notices := [];
    }

    method OnLost(listener: nat)
      modifies this`lossListeners
      ensures lossListeners == if listener in old(lossListeners) then old(lossListeners) else old(lossListeners) + [listener]
    {
      if listener !in lossListeners { lossListeners := lossListeners + [listener]; }
    }

    /** The state changes before any listener runs, so that it is Lost even if one throws. */
    method MarkLost(reason: string, failing: set<nat>) returns (r: Outcome<bool>)
      modifies this`status, this`lossReason, this`notices
      ensures !IsReasonCode(reason) ==> r == Err(InvalidReason) && State() == old(State()) && notices == old(notices)
      ensures IsReasonCode(reason) ==> State() == Lose(old(State()), reason)
      ensures IsReasonCode(reason) ==> notices == old(notices) + if LossIsNews(old(State()), reason) then Notices(lossListeners, failing, reason) else []
      ensures IsReasonCode(reason) ==> r == Answer(Ok(LossIsNews(old(State()), reason)), LossIsNews(old(State()), reason), lossListeners, failing)
    {
      if !IsReasonCode(reason) { return Err(InvalidReason); }
      if status == Lost {
        if !IsCleanupFence(lossReason) || IsCleanupFence(Some(reason)) { return Ok(false); }
        lossReason := Some(reason);
      } else {
        status := Lost;
        lossReason := Some(reason);
      }
      var thrown := Ring(reason, failing);
      r := if thrown.Some? then Err(ListenerFailed(thrown.value)) else Ok(true);
    }

    method Ring(reason: string, failing: set<nat>) returns (thrown: Option<nat>)
      modifies this`notices
      ensures notices == old(notices) + Notices(lossListeners, failing, reason)
      ensures thrown == FirstFailing(lossListeners, failing)
    {
      var i := 0;
      while i < |lossListeners|
        invariant 0 <= i <= |lossListeners|
        invariant forall k :: 0 <= k < i ==> lossListeners[k] !in failing
        invariant notices == old(notices) + Notices(lossListeners[..i], failing, reason)
      {
        NoticesStep(lossListeners, failing, reason, i);
        notices := notices + [Notice(lossListeners[i], reason)];
        if lossListeners[i] in failing { return Some(lossListeners[i]); }
        i := i + 1;
      }
      assert lossListeners[..i] == lossListeners;
      thrown := None;
    }

    method LoseAndThrow<T>(reason: string, failing: set<nat>) returns (r: Outcome<T>)
      requires IsReasonCode(reason)
      modifies this`status, this`lossReason, this`notices
      ensures State() == Lose(old(State()), reason)
      ensures r == Answer(Err(LostBecause(State().lossReason)), News(old(State()), State()), lossListeners, failing)
      ensures notices == old(notices) + Rung(old(State()), State(), lossListeners, failing)
    {
      var marked := MarkLost(reason, failing);
      r := if marked.Err? then Err(marked.error) else Err(LostBecause(lossReason));
    }

    method BeginAcquire(lockHeld: bool, failing: set<nat>) returns (r: Outcome<()>)
      modifies this`status, this`acquisitionReserved, this`lossReason, this`notices
      ensures var (g, own) := Spec.BeginAcquire(old(State()), lockHeld);
              State() == g && r == Answer(own, News(old(State()), g), lossListeners, failing) &&
              notices == old(notices) + Rung(old(State()), g, lossListeners, failing)
    {
      if status != Unowned || acquisitionReserved { return Err(ReacquisitionForbidden); }
      acquisitionReserved := true;
      if !lockHeld {
        r := LoseAndThrow("PROCESS_LOCK_LOST", failing);
        return;
      }
      r := Ok(());
    }

    method FinishAcquire(acquired: OwnershipRecord, takenOver: bool, lockHeld: bool, failing: set<nat>) returns (r: Outcome<OwnershipRecord>)
      modifies this`status, this`record, this`takeover, this`lossReason, this`notices
      ensures var (g, own) := Spec.FinishAcquire(old(State()), acquired, takenOver, lockHeld);
              State() == g && r == Answer(own, News(old(State()), g), lossListeners, failing) &&
              notices == old(notices) + Rung(old(State()), g, lossListeners, failing)
    {
      record := Some(acquired);
      takeover := takenOver;
      if status == Lost || !lockHeld {
        r := LoseAndThrow("PROCESS_LOCK_LOST", failing);
        return;
      }
      status := Owned;
      r := Ok(acquired);
    }

    method AssertLocallyHeld(lockHeld: bool, now: int, failing: set<nat>) returns (r: Outcome<()>)
      modifies this`status, this`lossReason, this`notices
      ensures var (g, own) := Spec.AssertLocallyHeld(old(State()), lockHeld, now);
              State() == g && r == Answer(own, News(old(State()), g), lossListeners, failing) &&
              notices == old(notices) + Rung(old(State()), g, lossListeners, failing)
    {
      if status == Lost { return Err(LostBecause(lossReason)); }
      if !lockHeld {
        r := LoseAndThrow("PROCESS_LOCK_LOST", failing);
        return;
      }
      if status != Owned || record.None? { return Err(NotHeld); }
      if !IsTime(now) { return Err(InvalidTime); }
      if now >= record.value.expiresAt {
        r := LoseAndThrow("OWNERSHIP_EXPIRED", failing);
        return;
      }
      r := Ok(());
    }

    method BeginAssertCurrent(at: int, lockHeld: bool, now: int, failing: set<nat>) returns (r: Outcome<OwnershipRecord>)
      modifies this`status, this`lossReason, this`notices
      ensures var (g, own) := Spec.BeginAssertCurrent(old(State()), at, lockHeld, now);
              State() == g && r == Answer(own, News(old(State()), g), lossListeners, failing) &&
              notices == old(notices) + Rung(old(State()), g, lossListeners, failing)
    {
      if !IsTime(at) { return Err(InvalidTime); }
      var held := AssertLocallyHeld(lockHeld, now, failing);
      r := if held.Err? then Err(held.error) else Ok(record.value);
    }

    method CheckPersisted(expected: OwnershipRecord, persisted: Option<OwnershipRecord>, at: int, failing: set<nat>) returns (r: Outcome<OwnershipRecord>)
      modifies this`status, this`lossReason, this`notices
      ensures var (g, own) := Spec.CheckPersisted(old(State()), expected, persisted, at);
              State() == g && r == Answer(own, News(old(State()), g), lossListeners, failing) &&
              notices == old(notices) + Rung(old(State()), g, lossListeners, failing)
    {
      if !SameOwnership(expected, persisted) {
        r := LoseAndThrow("PERSISTED_OWNERSHIP_MISMATCH", failing);
        return;
      }
      if at >= persisted.value.expiresAt {
        r := LoseAndThrow("OWNERSHIP_EXPIRED", failing);
        return;
      }
      r := Ok(persisted.value);
    }

    method FinishAssertCurrent(expected: OwnershipRecord, persisted: Option<OwnershipRecord>, at: int, lockHeld: bool, now: int, failing: set<nat>)
      returns (r: Outcome<OwnershipRecord>)
      modifies this`status, this`record, this`lossReason, this`notices
      ensures var (g, own) := Spec.FinishAssertCurrent(old(State()), expected, persisted, at, lockHeld, now);
              State() == g && r == Answer(own, News(old(State()), g), lossListeners, failing) &&
              notices == old(notices) + Rung(old(State()), g, lossListeners, failing)
    {
      var held := AssertLocallyHeld(lockHeld, now, failing);
      if held.Err? { return Err(held.error); }
      r := CheckPersisted(expected, persisted, at, failing);
      if r.Ok? { record := Some(r.value); }
    }

    /** The callback is called exactly where the result becomes Ok, before anything else can run. */
    method RunWithCurrentExecutionAuthority(input: SendInput, persisted: Option<OwnershipRecord>, state: Option<ExecutionState>,
                                            lockHeld: bool, now: int, later: int, failing: set<nat>)
      returns (r: Outcome<OwnershipRecord>)
      modifies this`status, this`record, this`lossReason, this`notices
      ensures var (g, own) := Spec.RunWithAuthority(old(State()), input, persisted, state, lockHeld, now, later);
              State() == g && r == Answer(own, News(old(State()), g), lossListeners, failing) &&
              notices == old(notices) + Rung(old(State()), g, lossListeners, failing)
    {
      hide Notices, FirstFailing, IsExecutionAllowed;
      if !IsTime(input.at) { return Err(InvalidTime); }
      if input.account == "" { return Err(InvalidAccount); }
      var held := AssertLocallyHeld(lockHeld, now, failing);
      if held.Err? { return Err(held.error); }
      var expected := record.value;
      held := AssertLocallyHeld(lockHeld, later, failing);
      if held.Err? { return Err(held.error); }
      r := CheckPersisted(expected, persisted, input.at, failing);
      if r.Err? { return; }
      if !IsExecutionAllowed(state, input) { return Err(PreSendBlocked); }
      record := persisted;
    }

    method AcceptRenewal(renewed: OwnershipRecord, failing: set<nat>) returns (r: Outcome<()>)
      modifies this`status, this`record, this`lossReason, this`notices
      ensures var (g, own) := Spec.AcceptRenewal(old(State()), renewed);
              State() == g && r == Answer(own, News(old(State()), g), lossListeners, failing) &&
              notices == old(notices) + Rung(old(State()), g, lossListeners, failing)
    {
      if status != Owned { return Ok(()); }
      if record.None? { return Err(NotHeld); }
      if !SameOwnership(record.value, Some(renewed)) {
        r := LoseAndThrow("PERSISTED_OWNERSHIP_MISMATCH", failing);
        return;
      }
      record := Some(renewed);
      r := Ok(());
    }
  }
}
