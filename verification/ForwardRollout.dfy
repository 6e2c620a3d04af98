/**
 The rollout driver over a shared repository. Any number of calls of verify, requestRollback and
 completeRollback are under way at once; each reads the deployment, the exact state and the operator
 state at different moments, and writes with a compare-and-set. Operators and executions go on in
 between.

 The phase only moves forward, a rollback is persisted only while execution is paused, and a write
 succeeds only if nothing has changed since the call read it.
 */
module ForwardRollout {
  import opened Basics
  import opened PilotAudit

  /** The deployment's row, as far as transitions look at it. */
  datatype Pilot = Pilot(phase: Phase, createdAt: int, updatedAt: int, activatedAt: Option<int>)

  /** The exact state: its version, whether it is flat, and its last evidence. */
  datatype Ledger = Ledger(version: nat, flat: bool, lastEvidenceAt: Option<int>)

  datatype SystemStatus = Running | Paused | KillSwitched

  datatype Operator = Operator(status: SystemStatus, updatedAt: int)

  datatype Kind = Verify | RequestRollback | CompleteRollback

  /** A call under way: what it has read so far. */
  datatype Session = Session(kind: Kind, now: int, pauseSeen: bool, pilot: Option<Pilot>, ledger: Option<Ledger>, authority: Option<Operator>)

  datatype Move = Move(from: Phase, to: Phase, status: SystemStatus, flat: bool)

  datatype World = World(pilot: Pilot, ledger: Ledger, operator: Operator, sessions: map<nat, Session>, moves: seq<Move>)

  // ---------------------------------------------------------------------------------------------
  // Repository
  // ---------------------------------------------------------------------------------------------

  predicate IsPaused(status: SystemStatus) { status == Paused || status == KillSwitched }

  predicate Pausable(phase: Phase) { phase == PendingFlat || phase == Active || phase == Draining }

  /** activateDeployment: None if the deployment is not as expected or the instant is not in order. */
  function Activate(p: Pilot, expected: Pilot, at: int): Option<Pilot> {
    if p.phase != PendingFlat || expected.phase != PendingFlat || p.updatedAt != expected.updatedAt || p.activatedAt.Some? then None
    else if at < 0 || at < p.createdAt || at < p.updatedAt then None
    else Some(p.(phase := Active, activatedAt := Some(at), updatedAt := at))
  }

  /** A completion from DRAINING is strictly later than the rollback; nothing precedes what is persisted. */
  predicate RollbackInOrder(at: int, p: Pilot, l: Ledger) {
    !(p.phase == Draining && at <= p.updatedAt) && at >= p.createdAt && at >= p.updatedAt &&
    (l.lastEvidenceAt.Some? ==> at >= l.lastEvidenceAt.value)
  }

  /** The operator state is the expected one, and execution is paused. */
  predicate AuthorityMatches(o: Operator, expected: Operator) {
    o.status == expected.status && o.updatedAt == expected.updatedAt && IsPaused(o.status)
  }

  function StartRollback(w: World, expected: Pilot, version: nat, authority: Operator, at: int): Option<Pilot> {
    if !AuthorityMatches(w.operator, authority) || expected.phase != Active || w.pilot.phase != Active ||
       w.pilot.updatedAt != expected.updatedAt || w.ledger.version != version then None
    else if !RollbackInOrder(at, w.pilot, w.ledger) then None
    else Some(w.pilot.(phase := Draining, updatedAt := at))
  }

  function FinishRollback(w: World, expected: Pilot, version: nat, authority: Operator, at: int): Option<Pilot> {
    if !AuthorityMatches(w.operator, authority) || !Pausable(expected.phase) || w.pilot.phase != expected.phase ||
       w.pilot.updatedAt != expected.updatedAt || w.ledger.version != version then None
    else if !RollbackInOrder(at, w.pilot, w.ledger) || !w.ledger.flat then None
    else Some(w.pilot.(phase := Disabled, updatedAt := at))
  }

  // ---------------------------------------------------------------------------------------------
  // Driver
  // ---------------------------------------------------------------------------------------------

  datatype Decision = TryActivate | TryStart | TryFinish | NoWrite

  /** What a call goes on to write, from what it has read; the checks in between may still turn it into a fault. */
  function Decide(s: Session, balanceFlat: bool): Decision
    requires s.pilot.Some? && s.ledger.Some?
  {
    var phase, flat := s.pilot.value.phase, s.ledger.value.flat;
    if s.kind == Verify then
      if phase == PendingFlat && balanceFlat then TryActivate else NoWrite
    else if phase == PausedFault || phase == Disabled then NoWrite
    else if s.kind == CompleteRollback && (phase != Draining || !flat) then NoWrite
    else if flat then TryFinish
    else if phase == Active then TryStart
    else NoWrite
  }

  datatype Step =
    | Begin(kind: Kind, now: int)
    | SeePause(pauseAt: int)
    | ReadPilot
    | ReadLedger
    | ReadAuthority
    | Write(balanceFlat: bool)
    | Fault(at: int)
    | End
    | OperatorSets(operator: Operator)
    | Execute(flat: bool, at: int)

  function Put(w: World, id: nat, s: Session): World { w.(sessions := w.sessions[id := s]) }

  function Moved(w: World, p: Pilot): World {
    w.(pilot := p, moves := w.moves + [Move(w.pilot.phase, p.phase, w.operator.status, w.ledger.flat)])
  }

  function Next(w: World, id: nat, step: Step): Option<World> {
    match step
    case Begin(kind, now) => if id in w.sessions then None else Some(Put(w, id, Session(kind, now, false, None, None, None)))
    case OperatorSets(operator) => Some(w.(operator := operator))
    case Execute(flat, at) =>
      // Evidence is projected in the executing phases, one version at a time.
      if w.pilot.phase == Active || w.pilot.phase == Draining then Some(w.(ledger := Ledger(w.ledger.version + 1, flat, Some(at)))) else None
    case _ => if id !in w.sessions then None else Act(w, id, w.sessions[id], step)
  }

  function Act(w: World, id: nat, s: Session, step: Step): Option<World> {
    match step
    case SeePause(pauseAt) =>
      // ensureGlobalRollbackPause: pause unless already paused.
      Some(Put(if IsPaused(w.operator.status) then w else w.(operator := Operator(Paused, pauseAt)), id, s.(pauseSeen := true)))
    case ReadPilot => if s.kind == Verify || s.pauseSeen then Some(Put(w, id, s.(pilot := Some(w.pilot)))) else None
    case ReadLedger => if s.pilot.Some? then Some(Put(w, id, s.(ledger := Some(w.ledger)))) else None
    case ReadAuthority =>
      // assertGlobalRollbackPause: a call that finds execution running does not write.
      if s.ledger.Some? && IsPaused(w.operator.status) then Some(Put(w, id, s.(authority := Some(w.operator)))) else None
    case Write(balanceFlat) =>
      if s.pilot.None? || s.ledger.None? then None
      else Attempt(w, s, Decide(s, balanceFlat))
    case Fault(at) =>
      // The fault of a deployment read as DISABLED, or that cannot be paused, only pauses execution or throws.
      if s.pilot.None? then None
      else if s.pilot.value.phase == Disabled then Some(w.(operator := PausedAt(w.operator, at)))
      else if !Pausable(w.pilot.phase) then Some(w)
      else Some(Moved(w.(operator := PausedAt(w.operator, at)), w.pilot.(phase := PausedFault, updatedAt := at)))
    case End => Some(w.(sessions := w.sessions - {id}))
    case _ => None
  }

  /** The compare-and-set a call has decided on. */
  function Attempt(w: World, s: Session, decision: Decision): Option<World>
    requires s.pilot.Some? && s.ledger.Some?
  {
    match decision
    case TryActivate => Written(w, Activate(w.pilot, s.pilot.value, s.now))
    case TryStart => if s.authority.None? then None else Written(w, StartRollback(w, s.pilot.value, s.ledger.value.version, s.authority.value, s.now))
    case TryFinish => if s.authority.None? then None else Written(w, FinishRollback(w, s.pilot.value, s.ledger.value.version, s.authority.value, s.now))
    case NoWrite => Some(w)
  }

  function PausedAt(o: Operator, at: int): Operator { Operator(if o.status == KillSwitched then KillSwitched else Paused, at) }

  /** A failed compare-and-set leaves everything as it is. */
  function Written(w: World, p: Option<Pilot>): Option<World> { Some(if p.Some? then Moved(w, p.value) else w) }

  function Run(w: World, steps: seq<(nat, Step)>): Option<World> {
    if steps == [] then Some(w)
    else
      var before :- Run(w, steps[..|steps| - 1]);
      Next(before, steps[|steps| - 1].0, steps[|steps| - 1].1)
  }

  /** A deployment that has just been created. */
  predicate Initial(w: World) {
    w.pilot.phase == PendingFlat && w.pilot.activatedAt.None? && w.pilot.createdAt == w.pilot.updatedAt &&
    w.ledger == Ledger(0, true, None) && w.sessions == map[] && w.moves == []
  }

  // ---------------------------------------------------------------------------------------------
  // Forward only
  // ---------------------------------------------------------------------------------------------

  function Rank(p: Phase): nat {
    match p
    case PendingFlat => 0
    case Active => 1
    case Draining => 2
    case Disabled => 3
    case PausedFault => 3
  }

  /** The moves there are, and what must hold while they are made. */
  predicate Allowed(m: Move) {
    match (m.from, m.to)
    case (PendingFlat, Active) => true
    case (Active, Draining) => IsPaused(m.status) && !m.flat
    case (PendingFlat, Disabled) => IsPaused(m.status) && m.flat
    case (Active, Disabled) => IsPaused(m.status) && m.flat
    case (Draining, Disabled) => IsPaused(m.status) && m.flat
    case (PendingFlat, PausedFault) => IsPaused(m.status)
    case (Active, PausedFault) => IsPaused(m.status)
    case (Draining, PausedFault) => IsPaused(m.status)
    case _ => false
  }

  /** The moves follow one another from PENDING_FLAT to the present phase. */
  ghost predicate Chained(moves: seq<Move>, phase: Phase) {
    (moves == [] ==> phase == PendingFlat) &&
    (moves != [] ==> moves[0].from == PendingFlat && moves[|moves| - 1].to == phase) &&
    (forall i :: 0 < i < |moves| ==> moves[i].from == moves[i - 1].to) &&
    (forall m :: m in moves ==> Allowed(m))
  }

  /** What a call has read is no later than what there is; if it is still as old, it is still the same. */
  ghost predicate ReadsOk(w: World, s: Session) {
    (s.pilot.Some? ==> Rank(s.pilot.value.phase) <= Rank(w.pilot.phase) && (Rank(s.pilot.value.phase) == Rank(w.pilot.phase) ==> s.pilot.value == w.pilot)) &&
    (s.ledger.Some? ==> s.pilot.Some? && s.ledger.value.version <= w.ledger.version && (s.ledger.value.version == w.ledger.version ==> s.ledger.value == w.ledger))
  }

  ghost predicate WorldOk(w: World) {
    Chained(w.moves, w.pilot.phase) && (w.pilot.phase == PendingFlat ==> w.ledger == Ledger(0, true, None)) &&
    forall id :: id in w.sessions ==> ReadsOk(w, w.sessions[id])
  }

  // ---------------------------------------------------------------------------------------------
  // Every step keeps it
  // ---------------------------------------------------------------------------------------------

  lemma ChainGrows(moves: seq<Move>, phase: Phase, m: Move)
    requires Chained(moves, phase) && m.from == phase && Allowed(m)
    ensures Chained(moves + [m], m.to)
  {
    hide Allowed;
  }

  /** A compare-and-set that succeeds has found exactly what the call read. */
  lemma WriteSeesWhatWasRead(w: World, id: nat, balanceFlat: bool)
    requires WorldOk(w) && id in w.sessions && Next(w, id, Write(balanceFlat)).Some? && Next(w, id, Write(balanceFlat)).value.pilot != w.pilot
    ensures var s := w.sessions[id];
            s.pilot == Some(w.pilot) && (s.kind != Verify ==> s.ledger == Some(w.ledger) && IsPaused(w.operator.status))
    ensures var x := Next(w, id, Write(balanceFlat)).value;
            x.ledger == w.ledger && x.operator == w.operator && x.sessions == w.sessions && Rank(w.pilot.phase) < Rank(x.pilot.phase) &&
            x.moves == w.moves + [Move(w.pilot.phase, x.pilot.phase, w.operator.status, w.ledger.flat)] &&
            Allowed(Move(w.pilot.phase, x.pilot.phase, w.operator.status, w.ledger.flat))
  {
    hide Chained, RollbackInOrder;
    assert ReadsOk(w, w.sessions[id]);
  }

  /** A move forward leaves every call behind. */
  lemma MoveKeeps(w: World, x: World)
    requires WorldOk(w) && x.ledger == w.ledger && x.sessions == w.sessions && Rank(w.pilot.phase) < Rank(x.pilot.phase)
    requires exists status :: x.moves == w.moves + [Move(w.pilot.phase, x.pilot.phase, status, w.ledger.flat)] &&
                              Allowed(Move(w.pilot.phase, x.pilot.phase, status, w.ledger.flat))
    ensures WorldOk(x)
  {
    hide Allowed;
    var status :| x.moves == w.moves + [Move(w.pilot.phase, x.pilot.phase, status, w.ledger.flat)] &&
                  Allowed(Move(w.pilot.phase, x.pilot.phase, status, w.ledger.flat));
    ChainGrows(w.moves, w.pilot.phase, Move(w.pilot.phase, x.pilot.phase, status, w.ledger.flat));
    hide Chained;
    forall id | id in x.sessions ensures ReadsOk(x, x.sessions[id]) { assert ReadsOk(w, w.sessions[id]); }
  }

  lemma WriteKeeps(w: World, id: nat, balanceFlat: bool)
    requires WorldOk(w) && Next(w, id, Write(balanceFlat)).Some? && id in w.sessions
    ensures WorldOk(Next(w, id, Write(balanceFlat)).value)
  {
    var x := Next(w, id, Write(balanceFlat)).value;
    WriteOrNothing(w, id, balanceFlat);
    if x != w {
      WriteSeesWhatWasRead(w, id, balanceFlat);
      hide *;
      MoveKeeps(w, x);
    }
  }

  lemma WriteOrNothing(w: World, id: nat, balanceFlat: bool)
    requires id in w.sessions && Next(w, id, Write(balanceFlat)).Some?
    ensures Next(w, id, Write(balanceFlat)).value != w ==> Next(w, id, Write(balanceFlat)).value.pilot != w.pilot
  {
    hide RollbackInOrder, AuthorityMatches;
  }

  lemma FaultKeeps(w: World, id: nat, at: int)
    requires WorldOk(w) && Next(w, id, Fault(at)).Some? && id in w.sessions
    ensures WorldOk(Next(w, id, Fault(at)).value)
  {
    hide Chained;
    var x := Next(w, id, Fault(at)).value;
    if x.pilot != w.pilot || x.moves != w.moves {
      var m := Move(w.pilot.phase, PausedFault, x.operator.status, w.ledger.flat);
      assert Allowed(m) && x.moves == w.moves + [m];
      MoveKeeps(w, x);
    } else {
      OnlyOperator(w, x);
    }
  }

  lemma OnlyOperator(w: World, x: World)
    requires WorldOk(w) && x.pilot == w.pilot && x.ledger == w.ledger && x.sessions == w.sessions && x.moves == w.moves
    ensures WorldOk(x)
  {
    hide Chained;
    forall id | id in x.sessions ensures ReadsOk(x, x.sessions[id]) { assert ReadsOk(w, w.sessions[id]); }
  }

  lemma ReadKeeps(w: World, x: World, id: nat, s: Session)
    requires WorldOk(w) && x.pilot == w.pilot && x.ledger == w.ledger && x.moves == w.moves && x.sessions == w.sessions[id := s] && ReadsOk(w, s)
    ensures WorldOk(x)
  {
    hide Chained;
    forall k | k in x.sessions ensures ReadsOk(x, x.sessions[k]) { if k != id { assert ReadsOk(w, w.sessions[k]); } }
  }

  lemma ExecuteKeeps(w: World, id: nat, flat: bool, at: int)
    requires WorldOk(w) && Next(w, id, Execute(flat, at)).Some?
    ensures WorldOk(Next(w, id, Execute(flat, at)).value)
  {
    hide Chained;
    var x := Next(w, id, Execute(flat, at)).value;
    forall k | k in x.sessions ensures ReadsOk(x, x.sessions[k]) { assert ReadsOk(w, w.sessions[k]); }
  }

  lemma EndKeeps(w: World, id: nat)
    requires WorldOk(w)
    ensures WorldOk(w.(sessions := w.sessions - {id}))
  {
    hide Chained;
    var x := w.(sessions := w.sessions - {id});
    forall k | k in x.sessions ensures ReadsOk(x, x.sessions[k]) { assert ReadsOk(w, w.sessions[k]); }
  }

  /** What a call has just read is what there is. */
  lemma SessionKeeps(w: World, id: nat, step: Step)
    requires WorldOk(w) && Next(w, id, step).Some?
    requires step.Begin? || step.SeePause? || step.ReadPilot? || step.ReadLedger? || step.ReadAuthority?
    ensures WorldOk(Next(w, id, step).value)
  {
    hide Chained, Decide, Attempt;
    var x := Next(w, id, step).value;
    if id in w.sessions { assert ReadsOk(w, w.sessions[id]); }
    ReadKeeps(w, x, id, x.sessions[id]);
  }

  lemma StepKeeps(w: World, id: nat, step: Step)
    requires WorldOk(w) && Next(w, id, step).Some?
    ensures WorldOk(Next(w, id, step).value)
  {
    hide WorldOk, Attempt, Decide;
    match step {
      case Write(balanceFlat) => WriteKeeps(w, id, balanceFlat);
      case Fault(at) => FaultKeeps(w, id, at);
      case End => EndKeeps(w, id);
      case OperatorSets(operator) => OnlyOperator(w, w.(operator := operator));
      case Execute(flat, at) => ExecuteKeeps(w, id, flat, at);
      case _ => SessionKeeps(w, id, step);
    }
  }

  lemma {:induction false} RunKeeps(w: World, steps: seq<(nat, Step)>)
    requires Initial(w) && Run(w, steps).Some?
    ensures WorldOk(Run(w, steps).value)
  {
    hide Next, WorldOk, Initial;
    if steps == [] {
      InitialOk(w);
    } else {
      RunKeeps(w, steps[..|steps| - 1]);
      StepKeeps(Run(w, steps[..|steps| - 1]).value, steps[|steps| - 1].0, steps[|steps| - 1].1);
    }
  }

  lemma InitialOk(w: World)
    requires Initial(w)
    ensures WorldOk(w)
  {
  }

  // ---------------------------------------------------------------------------------------------
  // Main results
  // ---------------------------------------------------------------------------------------------

  /** In every interleaving the moves follow one another, each is an allowed one, and the ranks rise: nothing leaves DISABLED or PAUSED_FAULT. */
  lemma ForwardOnly(w: World, steps: seq<(nat, Step)>, i: nat)
    requires Initial(w) && Run(w, steps).Some? && i < |Run(w, steps).value.moves|
    ensures var x := Run(w, steps).value;
            Allowed(x.moves[i]) && Rank(x.moves[i].from) < Rank(x.moves[i].to) &&
            x.moves[i].from == (if i == 0 then PendingFlat else x.moves[i - 1].to) &&
            (i == |x.moves| - 1 ==> x.pilot.phase == x.moves[i].to)
  {
    hide Run, Initial;
    RunKeeps(w, steps);
    var x := Run(w, steps).value;
    assert x.moves[i] in x.moves;
    AllowedRises(x.moves[i]);
  }

  lemma AllowedRises(m: Move)
    requires Allowed(m)
    ensures Rank(m.from) < Rank(m.to)
  {
  }

  /** At most three moves are ever made, however many calls are under way. */
  lemma AtMostThreeMoves(w: World, steps: seq<(nat, Step)>)
    requires Initial(w) && Run(w, steps).Some?
    ensures |Run(w, steps).value.moves| <= 3
  {
    hide Run, Initial, Allowed;
    RunKeeps(w, steps);
    var moves := Run(w, steps).value.moves;
    ChainRises(moves, Run(w, steps).value.pilot.phase);
  }

  lemma {:induction false} ChainRises(moves: seq<Move>, phase: Phase)
    requires Chained(moves, phase)
    ensures |moves| <= Rank(phase)
  {
    hide Allowed, Rank;
    RankOfStart();
    if moves != [] {
      var last := moves[|moves| - 1];
      assert last in moves;
      AllowedRises(last);
      assert Chained(moves[..|moves| - 1], last.from);
      ChainRises(moves[..|moves| - 1], last.from);
    }
  }

  lemma RankOfStart()
    ensures Rank(PendingFlat) == 0
  {
  }

  /** A rollback is persisted only while execution is paused, and a deployment is disabled only when it is flat. */
  lemma RollbackOnlyWhilePaused(w: World, steps: seq<(nat, Step)>, i: nat)
    requires Initial(w) && Run(w, steps).Some? && i < |Run(w, steps).value.moves|
    ensures var m := Run(w, steps).value.moves[i];
            (m.to == Draining || m.to == Disabled || m.to == PausedFault ==> IsPaused(m.status)) &&
            (m.to == Disabled ==> m.flat) && (m.to == Draining ==> !m.flat)
  {
    hide Run, Initial, Rank;
    ForwardOnly(w, steps, i);
  }

  /** completeRollback writes only what it found draining and flat; requestRollback never writes what it found disabled. */
  lemma CompletionNeedsDraining(w: World, id: nat, balanceFlat: bool)
    requires WorldOk(w) && id in w.sessions && Next(w, id, Write(balanceFlat)).Some? && Next(w, id, Write(balanceFlat)).value.pilot != w.pilot
    ensures w.sessions[id].kind == CompleteRollback ==> w.pilot.phase == Draining && w.ledger.flat && Next(w, id, Write(balanceFlat)).value.pilot.phase == Disabled
    ensures w.sessions[id].kind == RequestRollback ==> Next(w, id, Write(balanceFlat)).value.pilot.phase == if w.ledger.flat then Disabled else Draining
    ensures w.sessions[id].kind == Verify ==> w.pilot.phase == PendingFlat && Next(w, id, Write(balanceFlat)).value.pilot.phase == Active
  {
    hide Chained, RollbackInOrder;
    WriteSeesWhatWasRead(w, id, balanceFlat);
  }

  // ---------------------------------------------------------------------------------------------
  // When a call does write
  // ---------------------------------------------------------------------------------------------

  /** Nothing has changed since the call read it, execution is paused, and the instant is in order. */
  ghost predicate ReadyToRollBack(w: World, s: Session) {
    && s.pilot == Some(w.pilot) && s.ledger == Some(w.ledger) && s.authority == Some(w.operator)
    && (w.operator.status == Paused || w.operator.status == KillSwitched)
    && s.now >= w.pilot.createdAt && s.now >= w.pilot.updatedAt
    && (w.pilot.phase == Draining ==> s.now > w.pilot.updatedAt)
    && (w.ledger.lastEvidenceAt.Some? ==> s.now >= w.ledger.lastEvidenceAt.value)
  }

  /** What a call writes: it activates what is pending and flat, disables what is flat, drains what is not, and completes only what drains; and it does so whenever nothing has changed. */
  lemma WriteIs(w: World, id: nat, balanceFlat: bool)
    requires WorldOk(w) && id in w.sessions && w.sessions[id].pilot.Some? && w.sessions[id].ledger.Some?
    requires w.sessions[id].kind != Verify ==> w.sessions[id].authority.Some?
    ensures Next(w, id, Write(balanceFlat)).Some?
    ensures var s, p, flat := w.sessions[id], w.pilot, w.ledger.flat;
            Next(w, id, Write(balanceFlat)).value.pilot ==
              match s.kind
              case Verify =>
                if s.pilot == Some(p) && p.phase == PendingFlat && p.activatedAt.None? && balanceFlat && s.now >= 0 && s.now >= p.createdAt && s.now >= p.updatedAt
                then Pilot(Active, p.createdAt, s.now, Some(s.now)) else p
              case RequestRollback =>
                if !ReadyToRollBack(w, s) then p
                else if flat && p.phase in {PendingFlat, Active, Draining} then Pilot(Disabled, p.createdAt, s.now, p.activatedAt)
                else if !flat && p.phase == Active then Pilot(Draining, p.createdAt, s.now, p.activatedAt)
                else p
              case CompleteRollback =>
                if ReadyToRollBack(w, s) && flat && p.phase == Draining then Pilot(Disabled, p.createdAt, s.now, p.activatedAt) else p
  {
    hide Chained;
    assert ReadsOk(w, w.sessions[id]);
  }

  /** A fault pauses execution and ends an open deployment; one that is disabled, or has ended, stays as it is. */
  lemma FaultIs(w: World, id: nat, at: int)
    requires id in w.sessions && w.sessions[id].pilot.Some?
    ensures Next(w, id, Fault(at)).Some?
    ensures var x, paused := Next(w, id, Fault(at)).value, Operator(if w.operator.status == KillSwitched then KillSwitched else Paused, at);
            if w.sessions[id].pilot.value.phase == Disabled then x.pilot == w.pilot && x.operator == paused
            else if w.pilot.phase in {PendingFlat, Active, Draining} then
              x.pilot == Pilot(PausedFault, w.pilot.createdAt, at, w.pilot.activatedAt) && x.operator == paused
            else x == w
  {
  }

  /** A call that must see execution paused pauses it, and reads the deployment only then; it goes on only while execution is still paused. */
  lemma PauseIs(w: World, id: nat, pauseAt: int)
    requires id in w.sessions
    ensures Next(w, id, SeePause(pauseAt)).Some?
    ensures Next(w, id, SeePause(pauseAt)).value.operator == if w.operator.status == Running then Operator(Paused, pauseAt) else w.operator
    ensures Next(w, id, ReadPilot).Some? <==> w.sessions[id].kind == Verify || w.sessions[id].pauseSeen
    ensures Next(w, id, ReadAuthority).Some? <==> w.sessions[id].ledger.Some? && w.operator.status != Running
  {
  }
}
