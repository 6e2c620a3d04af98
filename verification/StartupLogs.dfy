/** What the validator's scans of the audit log amount to on a log that is sorted. */
module StartupLogs {
  import opened KeyOrder
  import opened PilotAudit
  import opened PilotMachine
  import opened StartupValidator

  // ---------------------------------------------------------------------------------------------
  // Selection by type
  // ---------------------------------------------------------------------------------------------

  lemma {:induction false} OfTypeMembers(log: seq<AuditEvent>, t: EventType, x: AuditEvent)
    ensures x in OfType(log, t) <==> x in log && x.eventType == t
  {
    if log != [] {
      OfTypeMembers(log[1..], t, x);
      assert log == [log[0]] + log[1..];
    }
  }

  lemma {:induction false} OfTypeSorted(log: seq<AuditEvent>, t: EventType)
    requires StrictlySorted(log, EventKey)
    ensures StrictlySorted(OfType(log, t), EventKey)
  {
    if log != [] {
      OfTypeSorted(log[1..], t);
      var r := OfType(log[1..], t);
      forall i | 0 <= i < |r| ensures KeyLess(EventKey(log[0]), EventKey(r[i])) {
        OfTypeMembers(log[1..], t, r[i]);
        assert r[i] in log[1..];
      }
    }
  }

  /** Every event is of one of the six types. */
  lemma {:induction false} OfTypeCount(log: seq<AuditEvent>)
    ensures |log| == |OfType(log, DeploymentCreated)| + |OfType(log, PhaseTransition)| + |OfType(log, StateAdvanced)|
                   + |OfType(log, RollbackStarted)| + |OfType(log, FaultPaused)| + |OfType(log, RollbackCompleted)|
  {
    if log != [] { OfTypeCount(log[1..]); }
  }

  // ---------------------------------------------------------------------------------------------
  // Positions
  // ---------------------------------------------------------------------------------------------

  lemma {:induction false} IndexOfFound(log: seq<AuditEvent>, x: AuditEvent)
    requires x in log
    ensures IndexOf(log, x) < |log| && log[IndexOf(log, x)] == x
  {
    if log[0] != x {
      assert log == [log[0]] + log[1..];
      IndexOfFound(log[1..], x);
    }
  }

  /** In a sorted log, positions compare like keys. */
  lemma IndexOrder(log: seq<AuditEvent>, x: AuditEvent, y: AuditEvent)
    requires StrictlySorted(log, EventKey) && x in log && y in log
    ensures IndexOf(log, x) < IndexOf(log, y) <==> KeyLess(EventKey(x), EventKey(y))
  {
    hide KeyLess, EventKey;
    IndexOfFound(log, x);
    IndexOfFound(log, y);
    KeyTotal(EventKey(x), EventKey(y));
  }

  /** The count of preceding events cuts sorted events in those before the mark and those not. */
  lemma {:induction false} PrecedingCut(log: seq<AuditEvent>, events: seq<AuditEvent>, mark: AuditEvent, i: nat)
    requires StrictlySorted(log, EventKey) && StrictlySorted(events, EventKey) && i < |events|
    requires mark in log && forall e :: e in events ==> e in log
    ensures KeyLess(EventKey(events[i]), EventKey(mark)) <==> i < PrecedingCount(log, events, mark)
  {
    hide KeyLess, EventKey, IndexOf;
    assert events[0] in events;
    IndexOrder(log, events[0], mark);
    if i > 0 {
      assert forall e :: e in events[1..] ==> e in events;
      PrecedingCut(log, events[1..], mark, i - 1);
      if KeyLess(EventKey(events[i]), EventKey(mark)) {
        KeyTransitive(EventKey(events[0]), EventKey(events[i]), EventKey(mark));
      }
      if !KeyLess(EventKey(events[0]), EventKey(mark)) { NonePrecede(log, events, mark); }
    } else if !KeyLess(EventKey(events[0]), EventKey(mark)) {
      NonePrecede(log, events, mark);
    }
  }

  lemma {:induction false} NonePrecede(log: seq<AuditEvent>, events: seq<AuditEvent>, mark: AuditEvent)
    requires StrictlySorted(log, EventKey) && StrictlySorted(events, EventKey) && events != []
    requires mark in log && forall e :: e in events ==> e in log
    requires !KeyLess(EventKey(events[0]), EventKey(mark))
    ensures PrecedingCount(log, events, mark) == 0
  {
    hide KeyLess, EventKey, IndexOf;
    assert events[0] in events;
    IndexOrder(log, events[0], mark);
    if |events| > 1 {
      assert forall e :: e in events[1..] ==> e in events;
      if KeyLess(EventKey(events[1]), EventKey(mark)) {
        KeyTransitive(EventKey(events[0]), EventKey(events[1]), EventKey(mark));
      }
      NonePrecede(log, events[1..], mark);
    }
  }

  // ---------------------------------------------------------------------------------------------
  // The expected events of each type
  // ---------------------------------------------------------------------------------------------

  function StateEvents(m: Machine): seq<AuditEvent> {
    seq(|m.evidence|, i requires 0 <= i < |m.evidence| => AdvancedEvent(m.deployment, m.evidence[i], i, RecordPhase(m, i)))
  }

  function Expected(m: Machine, t: EventType): seq<AuditEvent> {
    var d := m.deployment;
    match t
    case DeploymentCreated => [CreatedEvent(d)]
    case PhaseTransition => if d.activationAt.Some? && d.activationEpochNs.Some? then [ActivationEvent(d)] else []
    case StateAdvanced => StateEvents(m)
    case RollbackStarted => if m.shape.rollback.Some? then [StartedEvent(d, m.shape.rollback.value, m.shape.boundary)] else []
    case RollbackCompleted =>
      if m.shape.ending.Completed? then [CompletedEvent(d, d.updatedAt, m.shape.ending.from, |m.evidence|)] else []
    case FaultPaused => if m.shape.ending.Faulted? then [m.shape.ending.fault] else []
  }

  predicate FaultIsFault(m: Machine) {
    m.shape.ending.Faulted? ==> m.shape.ending.fault.eventType == FaultPaused
  }

  lemma ExpectedCausal(m: Machine, t: EventType, x: AuditEvent)
    requires FaultIsFault(m)
    ensures x in Expected(m, t) <==> IsCausal(x, m) && x.eventType == t
  {
    hide CreatedId, ActivationId, EvidenceEventId, StartedId, CompletedId;
    if t == StateAdvanced && IsCausal(x, m) && x.eventType == t {
      assert StateEvents(m)[x.stateVersion - 1] == x;
    }
  }

  lemma StateEventsSorted(m: Machine)
    requires StrictlySorted(m.evidence, RecordKey)
    ensures StrictlySorted(StateEvents(m), EventKey)
  {
    var s := StateEvents(m);
    forall i, j | 0 <= i < j < |s| ensures KeyLess(EventKey(s[i]), EventKey(s[j])) {
      var a, b := m.evidence[i], m.evidence[j];
      assert KeyLess(RecordKey(a), RecordKey(b));
      EvidenceIdInjective(m.deployment.id, a.evidence.evidenceId, b.evidence.evidenceId);
    }
  }

  lemma ExpectedSorted(m: Machine, t: EventType)
    requires StrictlySorted(m.evidence, RecordKey)
    ensures StrictlySorted(Expected(m, t), EventKey)
  {
    StateEventsSorted(m);
  }

  /** The log holds the due events exactly when each selection by type is the expected one. */
  lemma LogOkIffExpected(m: Machine)
    requires StrictlySorted(m.log, EventKey) && DistinctIds(m.log) && StrictlySorted(m.evidence, RecordKey) && FaultIsFault(m)
    ensures LogOk(m) <==> forall t :: OfType(m.log, t) == Expected(m, t)
  {
    hide IsCausal, EventKey, RecordKey, Expected;
    if LogOk(m) {
      forall t ensures OfType(m.log, t) == Expected(m, t) {
        OfTypeSorted(m.log, t);
        ExpectedSorted(m, t);
        forall x ensures x in OfType(m.log, t) <==> x in Expected(m, t) {
          OfTypeMembers(m.log, t, x);
          ExpectedCausal(m, t, x);
        }
        SortedUnique(OfType(m.log, t), Expected(m, t), EventKey);
      }
    }
    if forall t :: OfType(m.log, t) == Expected(m, t) {
      forall x ensures x in m.log <==> IsCausal(x, m) {
        OfTypeMembers(m.log, x.eventType, x);
        ExpectedCausal(m, x.eventType, x);
      }
    }
  }
}
