/**
 The persisted runtime ownership: one row that names the current owner, and a journal of events.
 Generations are numbered by what row and journal have seen, so that they only grow.
 */
module OwnershipStore {
  import opened Basics

  datatype OwnershipRecord = OwnershipRecord(
    ownerToken: string,
    generation: nat,
    executionMode: string,
    acquiredAt: int,
    heartbeatAt: int,
    expiresAt: int)

  datatype EventKind = Acquired | TakenOver | Released | LossRecorded

  datatype OwnershipEvent = OwnershipEvent(generation: nat, kind: EventKind, reason: string, at: int)

  datatype Store = Store(current: Option<OwnershipRecord>, events: seq<OwnershipEvent>)

  const EMPTY_STORE := Store(None, [])

  const MAX_SAFE_INTEGER := 9007199254740991

  datatype Reply<T> = Reply(value: T) | Refused

  // ---------------------------------------------------------------------------------------------
  // What the row and the journal have seen
  // ---------------------------------------------------------------------------------------------

  function EventGenerations(events: seq<OwnershipEvent>): (r: nat)
    ensures forall e :: e in events ==> e.generation <= r
    ensures r == 0 || exists e :: e in events && e.generation == r
  {
    if events == [] then 0
    else
      var rest := EventGenerations(events[..|events| - 1]);
      var last := events[|events| - 1];
      assert events == events[..|events| - 1] + [last];
      if last.generation > rest then last.generation else rest
  }

  function EventTimes(events: seq<OwnershipEvent>): (r: int)
    ensures r >= 0 && forall e :: e in events ==> e.at <= r
    ensures r == 0 || exists e :: e in events && e.at == r
  {
    if events == [] then 0
    else
      var rest := EventTimes(events[..|events| - 1]);
      var last := events[|events| - 1];
      assert events == events[..|events| - 1] + [last];
      if last.at > rest then last.at else rest
  }

  /** The newest generation the store has seen. */
  function Newest(s: Store): nat {
    Max(if s.current.Some? then s.current.value.generation else 0, EventGenerations(s.events))
  }

  /** No new timestamp may lie before this one. */
  function Floor(s: Store): int {
    Max(if s.current.Some? then s.current.value.heartbeatAt else 0, EventTimes(s.events))
  }

  predicate IsValidRecord(r: OwnershipRecord) {
    0 < r.generation <= MAX_SAFE_INTEGER && 0 <= r.acquiredAt <= r.heartbeatAt < r.expiresAt
  }

  // ---------------------------------------------------------------------------------------------
  // Operations: each is one transaction
  // ---------------------------------------------------------------------------------------------

  /** Take the next generation, whether or not the row is occupied. */
  function Acquire(s: Store, ownerToken: string, executionMode: string, at: int, expiresAt: int): (Store, Reply<OwnershipRecord>) {
    if at < Floor(s) || Newest(s) >= MAX_SAFE_INTEGER then (s, Refused)
    else
      var record := OwnershipRecord(ownerToken, Newest(s) + 1, executionMode, at, at, expiresAt);
      if !IsValidRecord(record) then (s, Refused)
      else
        var kind := if s.current.Some? then TakenOver else Acquired;
        (Store(Some(record), s.events + [OwnershipEvent(record.generation, kind, "PROCESS_LOCK_ACQUIRED", at)]), Reply(record))
  }

  predicate Owns(s: Store, ownerToken: string, generation: nat) {
    s.current.Some? && s.current.value.ownerToken == ownerToken && s.current.value.generation == generation
  }

  /** Extend the lease of the row: nothing is written unless both instants move forward in time. */
  function Renew(s: Store, ownerToken: string, generation: nat, heartbeatAt: int, expiresAt: int): (Store, Reply<Option<OwnershipRecord>>) {
    if !Owns(s, ownerToken, generation) then (s, Reply(None))
    else if heartbeatAt < Floor(s) then (s, Refused)
    else
      var row := s.current.value;
      if heartbeatAt == row.heartbeatAt || heartbeatAt >= row.expiresAt || expiresAt <= row.expiresAt then (s, Reply(None))
      else
        var renewed := row.(heartbeatAt := heartbeatAt, expiresAt := expiresAt);
        if !IsValidRecord(renewed) then (s, Refused) else (s.(current := Some(renewed)), Reply(Some(renewed)))
  }

  /** Give the row up; the journal keeps its generation. */
  function Release(s: Store, ownerToken: string, generation: nat, at: int): (Store, Reply<bool>) {
    if !Owns(s, ownerToken, generation) then (s, Reply(false))
    else if at < Floor(s) then (s, Refused)
    else if at >= s.current.value.expiresAt then (s, Reply(false))
    else (Store(None, s.events + [OwnershipEvent(generation, Released, "CLEAN_RELEASE", at)]), Reply(true))
  }

  function RecordLost(s: Store, ownerToken: string, generation: nat, reason: string, at: int): (Store, Reply<bool>) {
    if !Owns(s, ownerToken, generation) then (s, Reply(false))
    else if at < Floor(s) then (s, Refused)
    else (s.(events := s.events + [OwnershipEvent(generation, LossRecorded, reason, at)]), Reply(true))
  }

  // ---------------------------------------------------------------------------------------------
  // Generations only grow
  // ---------------------------------------------------------------------------------------------

  /** The row carries the newest generation, and the journal has seen it. */
  ghost predicate StoreOk(s: Store) {
    s.current.Some? ==> s.current.value.generation == EventGenerations(s.events) && IsValidRecord(s.current.value)
  }

  lemma AppendedGeneration(events: seq<OwnershipEvent>, e: OwnershipEvent)
    ensures EventGenerations(events + [e]) == Max(EventGenerations(events), e.generation)
  {
    assert (events + [e])[..|events|] == events;
  }

  lemma AcquireGrows(s: Store, ownerToken: string, executionMode: string, at: int, expiresAt: int)
    requires StoreOk(s)
    ensures var (t, reply) := Acquire(s, ownerToken, executionMode, at, expiresAt);
            StoreOk(t) && (reply.Refused? ==> t == s) &&
            (reply.Reply? ==> t.current == Some(reply.value) && Newest(t) == reply.value.generation == Newest(s) + 1 &&
                              IsValidRecord(reply.value) && reply.value.ownerToken == ownerToken)
  {
    hide EventGenerations, EventTimes, Floor;
    AppendedGeneration(s.events, OwnershipEvent(Newest(s) + 1, if s.current.Some? then TakenOver else Acquired, "PROCESS_LOCK_ACQUIRED", at));
  }

  lemma RenewKeeps(s: Store, ownerToken: string, generation: nat, heartbeatAt: int, expiresAt: int)
    requires StoreOk(s)
    ensures var (t, reply) := Renew(s, ownerToken, generation, heartbeatAt, expiresAt);
            StoreOk(t) && Newest(t) == Newest(s) &&
            (reply.Reply? && reply.value.Some? ==>
               t.current == reply.value && reply.value.value.generation == generation && reply.value.value.ownerToken == ownerToken)
  {
    hide EventGenerations, EventTimes, Floor;
  }

  lemma ReleaseKeeps(s: Store, ownerToken: string, generation: nat, at: int)
    requires StoreOk(s)
    ensures var (t, _) := Release(s, ownerToken, generation, at);
            StoreOk(t) && Newest(t) == Newest(s) && (t != s ==> t.current.None?)
  {
    hide EventGenerations, EventTimes, Floor;
    AppendedGeneration(s.events, OwnershipEvent(generation, Released, "CLEAN_RELEASE", at));
  }

  lemma RecordLostKeeps(s: Store, ownerToken: string, generation: nat, reason: string, at: int)
    requires StoreOk(s)
    ensures var (t, _) := RecordLost(s, ownerToken, generation, reason, at);
            StoreOk(t) && Newest(t) == Newest(s) && t.current == s.current
  {
    hide EventGenerations, EventTimes, Floor;
    AppendedGeneration(s.events, OwnershipEvent(generation, LossRecorded, reason, at));
  }

  // ---------------------------------------------------------------------------------------------
  // When a transaction writes, and what
  // ---------------------------------------------------------------------------------------------

  /** An instant is not before anything that the row or the journal has seen. */
  ghost predicate NotBefore(s: Store, at: int) {
    at >= 0 && (s.current.Some? ==> at >= s.current.value.heartbeatAt) && forall e :: e in s.events ==> at >= e.at
  }

  lemma FloorIff(s: Store, at: int)
    requires StoreOk(s)
    ensures at >= Floor(s) <==> NotBefore(s, at)
  {
  }

  /** An acquisition is granted to whoever asks, over any row, unless time has gone back or the generations are used up. */
  lemma AcquireIff(s: Store, ownerToken: string, executionMode: string, at: int, expiresAt: int)
    requires StoreOk(s)
    ensures var (t, reply) := Acquire(s, ownerToken, executionMode, at, expiresAt);
            (reply.Reply? <==> NotBefore(s, at) && at < expiresAt && Newest(s) < 9007199254740991) &&
            (reply.Reply? ==>
               reply.value == OwnershipRecord(ownerToken, Newest(s) + 1, executionMode, at, at, expiresAt) &&
               t == Store(Some(reply.value), s.events + [OwnershipEvent(Newest(s) + 1, if s.current.Some? then TakenOver else Acquired, "PROCESS_LOCK_ACQUIRED", at)]))
  {
    hide EventGenerations, EventTimes, Floor, NotBefore;
    FloorIff(s, at);
    NotBeforeZero(s, at);
  }

  lemma NotBeforeZero(s: Store, at: int)
    ensures NotBefore(s, at) ==> at >= 0
  {
  }

  /** A renewal is written exactly for the owner of the row, strictly later than the last one, before the expiry, and to a later expiry. */
  lemma RenewIff(s: Store, ownerToken: string, generation: nat, heartbeatAt: int, expiresAt: int)
    requires StoreOk(s)
    ensures var (t, reply) := Renew(s, ownerToken, generation, heartbeatAt, expiresAt);
            (reply.Reply? && reply.value.Some? <==>
               s.current.Some? && s.current.value.ownerToken == ownerToken && s.current.value.generation == generation &&
               NotBefore(s, heartbeatAt) && s.current.value.heartbeatAt < heartbeatAt < s.current.value.expiresAt < expiresAt) &&
            (reply.Refused? <==> s.current.Some? && s.current.value.ownerToken == ownerToken && s.current.value.generation == generation && !NotBefore(s, heartbeatAt)) &&
            (if reply.Reply? && reply.value.Some?
             then t == s.(current := Some(s.current.value.(heartbeatAt := heartbeatAt, expiresAt := expiresAt))) && t.current == reply.value
             else t == s)
  {
    hide EventGenerations, EventTimes, Floor;
    FloorIff(s, heartbeatAt);
  }

  /** A release is granted exactly to the owner of the row before its expiry; the row is emptied and the journal says so. */
  lemma ReleaseIff(s: Store, ownerToken: string, generation: nat, at: int)
    requires StoreOk(s)
    ensures var (t, reply) := Release(s, ownerToken, generation, at);
            (reply == Reply(true) <==>
               s.current.Some? && s.current.value.ownerToken == ownerToken && s.current.value.generation == generation &&
               NotBefore(s, at) && at < s.current.value.expiresAt) &&
            (reply.Refused? <==> s.current.Some? && s.current.value.ownerToken == ownerToken && s.current.value.generation == generation && !NotBefore(s, at)) &&
            t == if reply == Reply(true) then Store(None, s.events + [OwnershipEvent(generation, Released, "CLEAN_RELEASE", at)]) else s
  {
    hide EventGenerations, EventTimes, Floor, NotBefore;
    FloorIff(s, at);
  }

  /** A loss is recorded exactly for the owner of the row, expired or not. */
  lemma RecordLostIff(s: Store, ownerToken: string, generation: nat, reason: string, at: int)
    requires StoreOk(s)
    ensures var (t, reply) := RecordLost(s, ownerToken, generation, reason, at);
            (reply == Reply(true) <==>
               s.current.Some? && s.current.value.ownerToken == ownerToken && s.current.value.generation == generation && NotBefore(s, at)) &&
            (reply.Refused? <==> s.current.Some? && s.current.value.ownerToken == ownerToken && s.current.value.generation == generation && !NotBefore(s, at)) &&
            t == if reply == Reply(true) then s.(events := s.events + [OwnershipEvent(generation, LossRecorded, reason, at)]) else s
  {
    hide EventGenerations, EventTimes, Floor, NotBefore;
    FloorIff(s, at);
  }

  // ---------------------------------------------------------------------------------------------
  // The journal is in order
  // ---------------------------------------------------------------------------------------------

  /** Neither instants nor generations ever go back along the journal. */
  ghost predicate JournalOrdered(events: seq<OwnershipEvent>) {
    forall i, j :: 0 <= i < j < |events| ==> events[i].at <= events[j].at && events[i].generation <= events[j].generation
  }

  lemma JournalGrowsInOrder(events: seq<OwnershipEvent>, e: OwnershipEvent)
    requires JournalOrdered(events) && EventTimes(events) <= e.at && EventGenerations(events) <= e.generation
    ensures JournalOrdered(events + [e])
  {
    hide EventTimes, EventGenerations;
    forall i | 0 <= i < |events| ensures events[i].at <= e.at && events[i].generation <= e.generation {
      assert events[i] in events;
    }
  }

  lemma JournalStaysOrdered(s: Store, ownerToken: string, generation: nat, text: string, at: int, until: int)
    requires StoreOk(s) && JournalOrdered(s.events)
    ensures JournalOrdered(Acquire(s, ownerToken, text, at, until).0.events)
    ensures JournalOrdered(Renew(s, ownerToken, generation, at, until).0.events)
    ensures JournalOrdered(Release(s, ownerToken, generation, at).0.events)
    ensures JournalOrdered(RecordLost(s, ownerToken, generation, text, at).0.events)
  {
    hide EventTimes, EventGenerations, JournalOrdered;
    if at >= Floor(s) {
      var kind := if s.current.Some? then TakenOver else Acquired;
      JournalGrowsInOrder(s.events, OwnershipEvent(Newest(s) + 1, kind, "PROCESS_LOCK_ACQUIRED", at));
      if Owns(s, ownerToken, generation) {
        JournalGrowsInOrder(s.events, OwnershipEvent(generation, Released, "CLEAN_RELEASE", at));
        JournalGrowsInOrder(s.events, OwnershipEvent(generation, LossRecorded, text, at));
      }
    }
  }
}
