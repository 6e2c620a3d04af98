/**
 What the local guard of runtime ownership does. It acquires once, is lost once, and is the only way
 for an order to be sent. These functions specify the methods of the object in module RuntimeGuard,
 and the runs of the protocol are made of them.

 An `await` splits a method in two: the runtime may do anything in between. Whether the process lock
 is held, the clock and the store's answers are parameters.
 */
module OwnershipGuard {
  import opened Basics
  import opened OwnershipStore

  datatype Status = Unowned | Owned | Lost

  datatype Guard = Guard(
    status: Status,
    reserved: bool,
    record: Option<OwnershipRecord>,
    takeover: bool,
    lossReason: Option<string>)

  datatype GuardError =
    | NotHeld
    | LostBecause(reason: Option<string>)
    | ReacquisitionForbidden
    | InvalidReason
    | InvalidTime
    | InvalidAccount
    | PreSendBlocked
    | ListenerFailed(listener: nat)

  datatype Outcome<T> = Ok(value: T) | Err(error: GuardError)

  const FRESH_GUARD := Guard(Unowned, false, None, false, None)

  // ---------------------------------------------------------------------------------------------
  // Losing ownership
  // ---------------------------------------------------------------------------------------------

  /** The pattern of a reason code: an upper-case letter, then at most 63 upper-case letters, digits and underscores. */
  predicate IsReasonCode(reason: string) {
    1 <= |reason| <= 64 && 'A' <= reason[0] <= 'Z' &&
    forall i :: 1 <= i < |reason| ==> 'A' <= reason[i] <= 'Z' || '0' <= reason[i] <= '9' || reason[i] == '_'
  }

  /** The reasons by which an orderly shutdown fences the guard. */
  predicate IsCleanupFence(reason: Option<string>) {
    reason == Some("RUNTIME_SHUTDOWN") || reason == Some("SCOPED_WORK_COMPLETE") || reason == Some("STARTUP_FAILED")
  }

  /** The first loss counts, except that a real loss replaces the reason of an orderly shutdown. */
  predicate LossIsNews(g: Guard, reason: string) {
    g.status != Lost || (IsCleanupFence(g.lossReason) && !IsCleanupFence(Some(reason)))
  }

  function Lose(g: Guard, reason: string): Guard {
    if LossIsNews(g, reason) then g.(status := Lost, lossReason := Some(reason)) else g
  }

  // ---------------------------------------------------------------------------------------------
  // Acquisition
  // ---------------------------------------------------------------------------------------------

  function Created(lockHeld: bool): Guard {
    if lockHeld then FRESH_GUARD else Lose(FRESH_GUARD, "PROCESS_LOCK_LOST")
  }

  function BeginAcquire(g: Guard, lockHeld: bool): (Guard, Outcome<()>) {
    if g.status != Unowned || g.reserved then (g, Err(ReacquisitionForbidden))
    else
      var reserved := g.(reserved := true);
      if !lockHeld then
        var lost := Lose(reserved, "PROCESS_LOCK_LOST");
        (lost, Err(LostBecause(lost.lossReason)))
      else (reserved, Ok(()))
  }

  /** The store has answered with a record. */
  function FinishAcquire(g: Guard, record: OwnershipRecord, takeover: bool, lockHeld: bool): (Guard, Outcome<OwnershipRecord>) {
    var filled := g.(record := Some(record), takeover := takeover);
    if g.status == Lost || !lockHeld then
      var lost := Lose(filled, "PROCESS_LOCK_LOST");
      (lost, Err(LostBecause(lost.lossReason)))
    else (filled.(status := Owned), Ok(record))
  }

  // ---------------------------------------------------------------------------------------------
  // Use
  // ---------------------------------------------------------------------------------------------

  predicate IsTime(at: int) { 0 <= at <= MAX_SAFE_INTEGER }

  function AssertLocallyHeld(g: Guard, lockHeld: bool, now: int): (Guard, Outcome<()>) {
    if g.status == Lost then (g, Err(LostBecause(g.lossReason)))
    else if !lockHeld then
      var lost := Lose(g, "PROCESS_LOCK_LOST");
      (lost, Err(LostBecause(lost.lossReason)))
    else if g.status != Owned || g.record.None? then (g, Err(NotHeld))
    else if !IsTime(now) then (g, Err(InvalidTime))
    else if now >= g.record.value.expiresAt then
      var lost := Lose(g, "OWNERSHIP_EXPIRED");
      (lost, Err(LostBecause(lost.lossReason)))
    else (g, Ok(()))
  }

  /** Heartbeat and expiry may differ: a renewal moves them. */
  predicate SameOwnership(expected: OwnershipRecord, persisted: Option<OwnershipRecord>) {
    persisted.Some? &&
    persisted.value.ownerToken == expected.ownerToken &&
    persisted.value.generation == expected.generation &&
    persisted.value.executionMode == expected.executionMode &&
    persisted.value.acquiredAt == expected.acquiredAt
  }

  /** The persisted row must still be the expected one, and current at the given instant. */
  function CheckPersisted(g: Guard, expected: OwnershipRecord, persisted: Option<OwnershipRecord>, at: int): (Guard, Outcome<OwnershipRecord>) {
    if !SameOwnership(expected, persisted) then
      var lost := Lose(g, "PERSISTED_OWNERSHIP_MISMATCH");
      (lost, Err(LostBecause(lost.lossReason)))
    else if at >= persisted.value.expiresAt then
      var lost := Lose(g, "OWNERSHIP_EXPIRED");
      (lost, Err(LostBecause(lost.lossReason)))
    else (g, Ok(persisted.value))
  }

  /** The first half of assertCurrent: it answers with the record to look for. */
  function BeginAssertCurrent(g: Guard, at: int, lockHeld: bool, now: int): (Guard, Outcome<OwnershipRecord>) {
    if !IsTime(at) then (g, Err(InvalidTime))
    else
      var (h, held) := AssertLocallyHeld(g, lockHeld, now);
      if held.Err? then (h, Err(held.error)) else (h, Ok(h.record.value))
  }

  /** The second half, with what the store has answered. */
  function FinishAssertCurrent(g: Guard, expected: OwnershipRecord, persisted: Option<OwnershipRecord>, at: int, lockHeld: bool, now: int)
      : (Guard, Outcome<OwnershipRecord>) {
    var (h, held) := AssertLocallyHeld(g, lockHeld, now);
    if held.Err? then (h, Err(held.error))
    else
      var (k, checked) := CheckPersisted(h, expected, persisted, at);
      if checked.Err? then (k, checked) else (k.(record := Some(checked.value)), checked)
  }

  datatype ExecutionState = ExecutionState(account: string, mode: string, gate: string, running: bool, killSwitch: bool)

  datatype SendInput = SendInput(at: int, account: string, mode: string, gate: string)

  predicate IsExecutionAllowed(state: Option<ExecutionState>, input: SendInput) {
    state.Some? && state.value.account == input.account && state.value.running && !state.value.killSwitch &&
    state.value.mode == input.mode && state.value.gate == input.gate
  }

  /**
   runWithCurrentExecutionAuthority: without an await between the read of the row and the callback.
   The callback runs exactly when the result is Ok. `persisted` is the joint read of the row and the
   execution state; the clock is read twice.
   */
  function RunWithAuthority(g: Guard, input: SendInput, persisted: Option<OwnershipRecord>, state: Option<ExecutionState>,
                            lockHeld: bool, now: int, later: int): (Guard, Outcome<OwnershipRecord>) {
    if !IsTime(input.at) then (g, Err(InvalidTime))
    else if input.account == "" then (g, Err(InvalidAccount))
    else
      var (h, first) := AssertLocallyHeld(g, lockHeld, now);
      if first.Err? then (h, Err(first.error))
      else
        var (k, second) := AssertLocallyHeld(h, lockHeld, later);
        if second.Err? then (k, Err(second.error))
        else
          var (m, checked) := CheckPersisted(k, h.record.value, persisted, input.at);
          if checked.Err? then (m, checked)
          else if !IsExecutionAllowed(state, input) then (m, Err(PreSendBlocked))
          else (m.(record := Some(checked.value)), checked)
  }

  function AcceptRenewal(g: Guard, renewed: OwnershipRecord): (Guard, Outcome<()>) {
    if g.status != Owned then (g, Ok(()))
    else if g.record.None? then (g, Err(NotHeld))
    else if !SameOwnership(g.record.value, Some(renewed)) then
      var lost := Lose(g, "PERSISTED_OWNERSHIP_MISMATCH");
      (lost, Err(LostBecause(lost.lossReason)))
    else (g.(record := Some(renewed)), Ok(()))
  }

  // ---------------------------------------------------------------------------------------------
  // What every operation keeps
  // ---------------------------------------------------------------------------------------------

  /** An owned guard has acquired a record; a lost one has a reason, and only a lost one. */
  ghost predicate GuardOk(g: Guard) {
    (g.status == Owned ==> g.record.Some?) &&
    (g.record.Some? ==> g.reserved) &&
    (g.status == Lost <==> g.lossReason.Some?)
  }

  /** h may follow g: the identity of the lease never changes, a loss is final, and its reason is replaced at most once. */
  ghost predicate Follows(g: Guard, h: Guard) {
    (g.reserved ==> h.reserved) &&
    (g.record.Some? ==> SameOwnership(g.record.value, h.record)) &&
    (g.status == Lost ==> h.status == Lost && (h.lossReason == g.lossReason || (IsCleanupFence(g.lossReason) && !IsCleanupFence(h.lossReason)))) &&
    (g.status == Owned ==> h.status != Unowned)
  }

  /** The first loss counts; later only a real one replaces the reason of an orderly shutdown. */
  lemma LoseFollows(g: Guard, reason: string)
    requires GuardOk(g)
    ensures GuardOk(Lose(g, reason)) && Follows(g, Lose(g, reason)) && Lose(g, reason).status == Lost
    ensures Lose(g, reason).record == g.record && Lose(g, reason).reserved == g.reserved && Lose(g, reason).takeover == g.takeover
    ensures Lose(g, reason).lossReason ==
              if g.status != Lost ||
                 (g.lossReason in {Some("RUNTIME_SHUTDOWN"), Some("SCOPED_WORK_COMPLETE"), Some("STARTUP_FAILED")} &&
                  reason !in {"RUNTIME_SHUTDOWN", "SCOPED_WORK_COMPLETE", "STARTUP_FAILED"})
              then Some(reason) else g.lossReason
  {
  }

  /** Acquisition begins once, under a held lock, and ends owned exactly when the lock is still held and nothing was lost meanwhile. */
  lemma AcquireFollows(g: Guard, record: OwnershipRecord, takeover: bool, lockHeld: bool)
    requires GuardOk(g)
    ensures var (h, begun) := BeginAcquire(g, lockHeld);
            GuardOk(h) && Follows(g, h) && (begun.Ok? <==> g.status == Unowned && !g.reserved && lockHeld) && (begun.Ok? ==> h == g.(reserved := true))
    ensures g.reserved && g.record.None? && g.status != Owned ==>
              var (h, done) := FinishAcquire(g, record, takeover, lockHeld);
              GuardOk(h) && Follows(g, h) && (done.Ok? <==> h.status == Owned) && (done.Ok? <==> lockHeld && g.status == Unowned) &&
              h.record == Some(record) && h.takeover == takeover
  {
  }

  /** The local check passes exactly an owned guard under a held lock before the expiry, at a valid instant. */
  lemma CheckFollows(g: Guard, lockHeld: bool, now: int)
    requires GuardOk(g)
    ensures var (h, held) := AssertLocallyHeld(g, lockHeld, now);
            GuardOk(h) && Follows(g, h) &&
            (held.Ok? <==> g.status == Owned && lockHeld && 0 <= now <= 9007199254740991 && now < g.record.value.expiresAt) &&
            (held.Ok? ==> h == g)
    ensures var (h, held) := AssertLocallyHeld(g, lockHeld, now);
            if g.status == Lost then h == g
            else if !lockHeld then h.status == Lost && h.lossReason == Some("PROCESS_LOCK_LOST")
            else if g.status == Owned && 0 <= now <= 9007199254740991 && now >= g.record.value.expiresAt
                 then h.status == Lost && h.lossReason == Some("OWNERSHIP_EXPIRED")
            else h == g
  {
    hide Lose;
    LoseFollows(g, "PROCESS_LOCK_LOST");
    LoseFollows(g, "OWNERSHIP_EXPIRED");
  }

  /** A row is that of the lease exactly when token, generation, mode and acquisition agree; a renewal may have moved the rest. */
  lemma SameOwnershipIff(expected: OwnershipRecord, persisted: Option<OwnershipRecord>)
    ensures SameOwnership(expected, persisted) <==>
              exists heartbeatAt, expiresAt :: persisted == Some(OwnershipRecord(expected.ownerToken, expected.generation, expected.executionMode, expected.acquiredAt, heartbeatAt, expiresAt))
  {
    if SameOwnership(expected, persisted) {
      var p := persisted.value;
      assert persisted == Some(OwnershipRecord(expected.ownerToken, expected.generation, expected.executionMode, expected.acquiredAt, p.heartbeatAt, p.expiresAt));
    }
  }

  /** The checks against the store, and a renewal, pass exactly a row of the same lease; the guard then remembers it, and otherwise is lost. */
  lemma UseFollows(g: Guard, expected: OwnershipRecord, persisted: Option<OwnershipRecord>, at: int, lockHeld: bool, now: int)
    requires GuardOk(g)
    ensures g.record.Some? && SameOwnership(g.record.value, Some(expected)) ==>
              var (h, _) := FinishAssertCurrent(g, expected, persisted, at, lockHeld, now); GuardOk(h) && Follows(g, h)
    ensures var (h, current) := FinishAssertCurrent(g, expected, persisted, at, lockHeld, now);
            (current.Ok? <==> AssertLocallyHeld(g, lockHeld, now).1.Ok? && SameOwnership(expected, persisted) && at < persisted.value.expiresAt) &&
            (current.Ok? ==> h == g.(record := persisted) && persisted == Some(current.value))
    ensures persisted.Some? ==>
              var (h, accepted) := AcceptRenewal(g, persisted.value);
              GuardOk(h) && Follows(g, h) && (accepted.Ok? <==> g.status != Owned || SameOwnership(g.record.value, persisted)) &&
              (if g.status != Owned then h == g
               else if accepted.Ok? then h == g.(record := persisted)
               else h.status == Lost && h.lossReason == Some("PERSISTED_OWNERSHIP_MISMATCH"))
  {
    hide Lose;
    CheckFollows(g, lockHeld, now);
    LoseFollows(g, "PERSISTED_OWNERSHIP_MISMATCH");
    LoseFollows(g, "OWNERSHIP_EXPIRED");
  }

  /**
   A callback runs exactly on an owned guard under a held lock, with its lease unexpired at both readings
   of the clock, whose own lease is the persisted row and unexpired at the instant of the order, in an
   account that is running without a kill switch in the expected mode and behind the expected gate.
   */
  lemma SendIsAuthorised(g: Guard, input: SendInput, persisted: Option<OwnershipRecord>, state: Option<ExecutionState>,
                         lockHeld: bool, now: int, later: int)
    requires GuardOk(g)
    ensures var (h, sent) := RunWithAuthority(g, input, persisted, state, lockHeld, now, later);
            sent.Ok? <==>
              && 0 <= input.at <= 9007199254740991 && input.account != ""
              && g.status == Owned && lockHeld
              && 0 <= now <= 9007199254740991 && 0 <= later <= 9007199254740991
              && now < g.record.value.expiresAt && later < g.record.value.expiresAt
              && persisted.Some?
              && persisted.value.ownerToken == g.record.value.ownerToken && persisted.value.generation == g.record.value.generation
              && persisted.value.executionMode == g.record.value.executionMode && persisted.value.acquiredAt == g.record.value.acquiredAt
              && input.at < persisted.value.expiresAt
              && state.Some?
              && state.value.running && !state.value.killSwitch
              && state.value.account == input.account && state.value.mode == input.mode && state.value.gate == input.gate
    ensures var (h, sent) := RunWithAuthority(g, input, persisted, state, lockHeld, now, later);
            GuardOk(h) && Follows(g, h) && (sent.Ok? ==> h == g.(record := persisted) && persisted == Some(sent.value)) &&
            (sent.Err? && sent.error in {PreSendBlocked, InvalidTime, InvalidAccount} ==> h == g)
  {
    hide Lose;
    LoseFollows(g, "PROCESS_LOCK_LOST");
    LoseFollows(g, "OWNERSHIP_EXPIRED");
    LoseFollows(g, "PERSISTED_OWNERSHIP_MISMATCH");
  }

  /** An account that does not allow execution blocks the order and leaves the guard as it is. */
  lemma KillSwitchBlocks(g: Guard, input: SendInput, persisted: Option<OwnershipRecord>, state: ExecutionState, lockHeld: bool, now: int, later: int)
    requires GuardOk(g) && (state.killSwitch || !state.running)
    ensures RunWithAuthority(g, input, persisted, Some(state), lockHeld, now, later).1.Err?
  {
    hide RunWithAuthority;
    SendIsAuthorised(g, input, persisted, Some(state), lockHeld, now, later);
  }

  /** A reason code is an upper-case letter followed by at most 63 upper-case letters, digits and underscores. */
  lemma ReasonCodeIff(first: char, rest: string)
    ensures !IsReasonCode("")
    ensures IsReasonCode([first] + rest) <==>
              'A' <= first <= 'Z' && |rest| <= 63 && forall c :: c in rest ==> 'A' <= c <= 'Z' || '0' <= c <= '9' || c == '_'
  {
    var s := [first] + rest;
    assert s[0] == first;
    if IsReasonCode(s) {
      forall c | c in rest ensures 'A' <= c <= 'Z' || '0' <= c <= '9' || c == '_' {
        var i :| 0 <= i < |rest| && rest[i] == c;
        assert s[i + 1] == c;
      }
    }
    forall i | 1 <= i < |s| ensures s[i] in rest { assert s[i] == rest[i - 1]; }
  }
}
