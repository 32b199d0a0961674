/**
 The store's transaction as the sequence of its durable steps, with a crash possible between
 any two of them, inside the append, and again during recovery
 (packages/web-buddy/src/agents/task-graph-store.ts:75-126, 229-262).
 The state carries, next to the disk, the session state that the transactions specify; the
 commit point is the rename of the write-ahead file.
 */
module StoreMachine {
  import opened Wrappers
  import opened Contracts
  import opened Json
  import opened Reducers
  import opened Invariants
  import opened EventLog
  import opened LogRules
  import opened Runs
  import opened Guarantees
  import opened EventLines

  datatype Wal = Wal(graph: Graph, event: Event)

  /** `task-graph.json`, `task-graph.wal.json` and the text of `task-events.jsonl`, None when the file is missing. */
  datatype Disk = Disk(snapshot: Option<Graph>, wal: Option<Wal>, log: Option<string>)

  function LogText(d: Disk): string {
    if d.log.None? then "" else d.log.value
  }

  datatype Pc =
    | Ready
    | Committed
    | TailRepaired
    | Appending(written: nat)
    | Appended
    | Installed
    | Down

  /**
   `spec`, `before` and `onDisk` only record history: the specified session, the graph before the
   last commit, and how much of the last line is on disk.
   */
  datatype Machine = Machine(disk: Disk, pc: Pc, spec: System, before: Graph, onDisk: nat)

  datatype Move =
    | Begin(op: Op)
    | Repair
    | ChooseAppend
    | AppendChar
    | FinishAppend
    | Install
    | RemoveWal
    | Crash
    | Recover

  /** Throws means the code raises an error that leaves the session unusable. */
  datatype Outcome = NotNow | Throws(code: ErrorCode) | Goes(machine: Machine)

  /** `validateMutationAgainstPersistedSnapshot`. */
  function RecoveryRefusal(snapshot: Option<Graph>, wal: Wal): Option<ErrorCode> {
    match snapshot
    case None => Some(GraphNotFound)
    case Some(current) =>
      if current.revision == wal.graph.revision then None
      else ValidationError(current, Mutation(wal.graph, wal.event), current.identity.sessionId)
  }

  function DoBegin(limits: Limits, m: Machine, op: Op): Outcome {
    if m.pc != Ready || m.disk.snapshot.None? then NotNow
    else
      var current := m.disk.snapshot.value;
      if Replayed(m.spec, op) then Goes(m)
      else
        match Commit(limits, current, op)
        case Err(_) => Goes(m)
        case Ok(mutation) =>
          var wal := Wal(mutation.graph, mutation.event);
          Goes(Machine(m.disk.(wal := Some(wal)), Committed, Next(limits, m.spec, op), current, 0))
  }

  function DoRepair(c: PayloadCodec, m: Machine): Outcome {
    if m.pc != Committed || m.disk.wal.None? then NotNow
    else
      var doc := Print(EventJson(c, m.disk.wal.value.event));
      var log := if m.disk.log.None? then None else Some(RepairTail(m.disk.log.value));
      Goes(m.(disk := m.disk.(log := log), pc := TailRepaired, onDisk := RepairedLength(doc, m.onDisk)))
  }

  function DoChooseAppend(c: PayloadCodec, m: Machine): Outcome {
    if m.pc != TailRepaired || m.disk.wal.None? then NotNow
    else Chosen(m, PlanAppend(c, LogText(m.disk), m.disk.wal.value.event))
  }

  function Chosen(m: Machine, plan: AppendPlan): Outcome {
    match plan
    case Refuse(code) => Throws(code)
    case AlreadyThere => Goes(m.(pc := Appended))
    case AppendLine => Goes(m.(pc := Appending(0)))
  }

  function DoAppendChar(c: PayloadCodec, m: Machine): Outcome {
    if !m.pc.Appending? || m.disk.wal.None? then NotNow
    else
      var line := LineOf(c, m.disk.wal.value.event);
      var n := m.pc.written;
      if n >= |line| then NotNow
      else Goes(m.(disk := m.disk.(log := Some(LogText(m.disk) + [line[n]])), pc := Appending(n + 1), onDisk := n + 1))
  }

  function DoFinishAppend(c: PayloadCodec, m: Machine): Outcome {
    if m.pc.Appending? && m.disk.wal.Some? && m.pc.written == |LineOf(c, m.disk.wal.value.event)|
    then Goes(m.(pc := Appended)) else NotNow
  }

  function DoInstall(m: Machine): Outcome {
    if m.pc == Appended && m.disk.wal.Some?
    then Goes(m.(disk := m.disk.(snapshot := Some(m.disk.wal.value.graph)), pc := Installed)) else NotNow
  }

  function DoRemoveWal(m: Machine): Outcome {
    if m.pc == Installed then Goes(m.(disk := m.disk.(wal := None), pc := Ready)) else NotNow
  }

  function DoRecover(m: Machine): Outcome {
    if m.pc != Down then NotNow
    else if m.disk.wal.None? then Goes(m.(pc := Ready))
    else
      match RecoveryRefusal(m.disk.snapshot, m.disk.wal.value)
      case Some(code) => Throws(code)
      case None => Goes(m.(pc := Committed))
  }

  function Do(limits: Limits, c: PayloadCodec, m: Machine, move: Move): Outcome {
    match move
    case Begin(op) => DoBegin(limits, m, op)
    case Repair => DoRepair(c, m)
    case ChooseAppend => DoChooseAppend(c, m)
    case AppendChar => DoAppendChar(c, m)
    case FinishAppend => DoFinishAppend(c, m)
    case Install => DoInstall(m)
    case RemoveWal => DoRemoveWal(m)
    case Crash => Goes(m.(pc := Down))
    case Recover => DoRecover(m)
  }

  // ---------------------------------------------------------------- the invariant of every instant

  function LastEvent(s: System): Event
    requires s.log != []
  {
    s.log[|s.log| - 1]
  }

  function Front(s: System): seq<Event>
    requires s.log != []
  {
    s.log[..|s.log| - 1]
  }

  /** Nothing in flight: the disk is exactly the specified session. */
  ghost predicate AtRest(c: PayloadCodec, d: Disk, s: System) {
    d.wal.None? && d.snapshot == Some(s.graph) && LogText(d) == Lines(c, s.log)
  }

  /**
   A committed transaction is being installed: the log misses at most the rest of its last line, the
   snapshot at most the last step.
   */
  ghost predicate InFlight(c: PayloadCodec, d: Disk, s: System, before: Graph, onDisk: nat) {
    Torn(c, d, s, before, onDisk) && RecoveryRefusal(Some(before), Wal(s.graph, LastEvent(s))).None?
  }

  ghost predicate Torn(c: PayloadCodec, d: Disk, s: System, before: Graph, onDisk: nat) {
    && s.log != []
    && d.wal == Some(Wal(s.graph, LastEvent(s)))
    && before.revision + 1 == s.graph.revision
    && (d.snapshot == Some(before) || (d.snapshot == Some(s.graph) && onDisk == |LineOf(c, LastEvent(s))|))
    && onDisk <= |LineOf(c, LastEvent(s))|
    && LogText(d) == Lines(c, Front(s)) + LineOf(c, LastEvent(s))[..onDisk]
  }

  predicate PcFits(pc: Pc, d: Disk, s: System, onDisk: nat, line: nat) {
    match pc
    case Ready => false
    case Committed => true
    case TailRepaired => onDisk == 0 || onDisk == line
    case Appending(n) => n == onDisk
    case Appended => onDisk == line
    case Installed => onDisk == line && d.snapshot == Some(s.graph)
    case Down => true
  }

  ghost predicate DiskInv(c: PayloadCodec, m: Machine) {
    || ((m.pc == Ready || m.pc == Down) && AtRest(c, m.disk, m.spec))
    || (InFlight(c, m.disk, m.spec, m.before, m.onDisk)
        && PcFits(m.pc, m.disk, m.spec, m.onDisk, |LineOf(c, LastEvent(m.spec))|))
  }

  ghost predicate MachineInv(limits: Limits, start: View, c: PayloadCodec, m: Machine) {
    SystemInv(limits, start, m.spec) && DiskInv(c, m)
  }

  // ---------------------------------------------------------------- every move keeps it

  lemma RefusedBegin(limits: Limits, m: Machine, op: Op)
    requires m.pc == Ready && m.disk.snapshot == Some(m.spec.graph) && !Accepted(limits, m.spec, op)
    ensures DoBegin(limits, m, op) == Goes(m) && Next(limits, m.spec, op) == m.spec
  {
  }

  lemma BeginKeeps(limits: Limits, c: PayloadCodec, m: Machine, op: Op)
    requires DiskInv(c, m)
    ensures var r := DoBegin(limits, m, op);
            !r.Throws? && (r.Goes? ==> DiskInv(c, r.machine) && r.machine.spec == Next(limits, m.spec, op))
  {
    if m.pc == Ready {
      if Accepted(limits, m.spec, op) {
        BeginInFlight(limits, c, m, op);
      } else {
        RefusedBegin(limits, m, op);
      }
    }
  }

  lemma BeginInFlight(limits: Limits, c: PayloadCodec, m: Machine, op: Op)
    requires m.pc == Ready && AtRest(c, m.disk, m.spec) && Accepted(limits, m.spec, op)
    ensures var r := DoBegin(limits, m, op);
            && r.Goes? && r.machine.spec == Next(limits, m.spec, op) && r.machine.pc == Committed
              && r.machine.onDisk == 0
            && InFlight(c, r.machine.disk, r.machine.spec, r.machine.before, 0)
  {
    var mutation := Commit(limits, m.spec.graph, op).value;
    CommitIsValid(limits, m.spec.graph, op);
    JournalledIsInFlight(c, m.disk, m.spec, mutation, Next(limits, m.spec, op));
  }

  /** With its write-ahead file in place, a valid mutation of a settled disk is in flight. */
  lemma JournalledIsInFlight(c: PayloadCodec, d: Disk, s: System, m: Mutation, next: System)
    requires AtRest(c, d, s) && next.graph == m.graph && next.log == s.log + [m.event]
    requires ValidationError(s.graph, m, s.graph.identity.sessionId).None? && m.graph.revision == s.graph.revision + 1
    ensures InFlight(c, d.(wal := Some(Wal(m.graph, m.event))), next, s.graph, 0)
  {
    LogSplits(next);
    assert Front(next) == s.log && LastEvent(next) == m.event;
    TornLineSplit(c, s.log, m.event);
    NotRefused(s.graph, m);
  }

  lemma NotRefused(g: Graph, m: Mutation)
    requires ValidationError(g, m, g.identity.sessionId).None?
    ensures RecoveryRefusal(Some(g), Wal(m.graph, m.event)).None?
  {
    assert Mutation(m.graph, m.event) == m;
  }

  lemma CommitIsValid(limits: Limits, g: Graph, op: Op)
    requires Commit(limits, g, op).Ok?
    ensures
      var m := Commit(limits, g, op).value;
      && ValidationError(g, m, g.identity.sessionId).None?
      && m.graph.revision == g.revision + 1
  {
  }

  /** The events before the last differ from it, so the append can tell it apart. */
  ghost predicate LastIsNew(s: System) {
    s.log != [] ==>
      forall i | 0 <= i < |s.log| - 1 ::
        s.log[i].eventId != LastEvent(s).eventId && s.log[i].eventSeq != LastEvent(s).eventSeq
  }

  lemma LoggedEventsDiffer(s: System)
    requires Chained(s.log) && DistinctEvents(s.log)
    ensures LastIsNew(s)
  {
  }

  lemma LogSplits(s: System)
    requires s.log != []
    ensures s.log == Front(s) + [LastEvent(s)] && |Front(s)| == |s.log| - 1
    ensures forall i | 0 <= i < |Front(s)| :: Front(s)[i] == s.log[i]
  {
  }

  lemma RepairKeeps(c: PayloadCodec, m: Machine)
    requires ProperCodec(c) && DiskInv(c, m)
    ensures var r := DoRepair(c, m); !r.Throws? && (r.Goes? ==> DiskInv(c, r.machine) && r.machine.spec == m.spec)
  {
    if m.pc == Committed {
      var e := LastEvent(m.spec);
      RepairGivesWholeLog(c, Front(m.spec), e, m.onDisk);
      TornLineSplit(c, Front(m.spec), e);
      if m.disk.log.None? {
        RepairKeepsLines("");
      }
    }
  }

  /** The step succeeds if it is possible, and leaves the disk good and the specified session as it was. */
  ghost predicate KeepsDisk(c: PayloadCodec, m: Machine, r: Outcome) {
    !r.Throws? && (r.Goes? ==> DiskInv(c, r.machine) && r.machine.spec == m.spec)
  }

  /** Behind a repaired tail the event is appended if its line is missing, and left alone if it is there. */
  lemma RepairedPlan(c: PayloadCodec, text: string, log: seq<Event>, e: Event, onDisk: nat)
    requires ProperCodec(c) && (onDisk == 0 || onDisk == |LineOf(c, e)|)
    requires text == Lines(c, log) + LineOf(c, e)[..onDisk]
    requires forall i | 0 <= i < |log| :: log[i].eventId != e.eventId && log[i].eventSeq != e.eventSeq
    ensures PlanAppend(c, text, e) == if onDisk == 0 then AppendLine else AlreadyThere
  {
    PlanIsExact(c, log, e);
    TornLineSplit(c, log, e);
  }

  lemma ChosenKeeps(c: PayloadCodec, m: Machine, plan: AppendPlan)
    requires DiskInv(c, m) && m.pc == TailRepaired
    requires |LineOf(c, LastEvent(m.spec))| > 0
    requires plan == if m.onDisk == 0 then AppendLine else AlreadyThere
    ensures KeepsDisk(c, m, Chosen(m, plan))
  {
  }

  lemma ChooseAppendKeeps(c: PayloadCodec, m: Machine)
    requires ProperCodec(c) && DiskInv(c, m) && LastIsNew(m.spec)
    ensures KeepsDisk(c, m, DoChooseAppend(c, m))
  {
    if m.pc == TailRepaired {
      var e := LastEvent(m.spec);
      RepairedPlan(c, LogText(m.disk), Front(m.spec), e, m.onDisk);
      TornLineSplit(c, Front(m.spec), e);
      ChosenKeeps(c, m, PlanAppend(c, LogText(m.disk), e));
    }
  }

  lemma AppendKeeps(c: PayloadCodec, m: Machine)
    requires DiskInv(c, m)
    ensures var r := DoAppendChar(c, m); !r.Throws? && (r.Goes? ==> DiskInv(c, r.machine) && r.machine.spec == m.spec)
  {
    if DoAppendChar(c, m).Goes? {
      OneMoreChar(c, Lines(c, Front(m.spec)), LastEvent(m.spec), m.pc.written);
    }
  }

  lemma RecoverKeeps(c: PayloadCodec, m: Machine)
    requires DiskInv(c, m)
    ensures KeepsDisk(c, m, DoRecover(m))
  {
  }

  lemma FinishKeeps(c: PayloadCodec, m: Machine)
    requires DiskInv(c, m)
    ensures KeepsDisk(c, m, DoFinishAppend(c, m))
  {
  }

  lemma InstallKeeps(c: PayloadCodec, m: Machine)
    requires DiskInv(c, m)
    ensures KeepsDisk(c, m, DoInstall(m))
  {
  }

  lemma RemoveKeeps(c: PayloadCodec, m: Machine)
    requires DiskInv(c, m)
    ensures KeepsDisk(c, m, DoRemoveWal(m))
  {
    if m.pc == Installed { RemovalSettles(c, m.disk, m.spec, m.before, m.onDisk); }
  }

  /** Installing, recovering and crashing keep the disk good and never change the specified session. */
  lemma StepKeepsDisk(limits: Limits, c: PayloadCodec, m: Machine, move: Move)
    requires ProperCodec(c) && DiskInv(c, m) && LastIsNew(m.spec) && !move.Begin?
    ensures KeepsDisk(c, m, Do(limits, c, m, move))
  {
    match move
    case Repair => RepairKeeps(c, m);
    case ChooseAppend => ChooseAppendKeeps(c, m);
    case AppendChar => AppendKeeps(c, m);
    case FinishAppend => FinishKeeps(c, m);
    case Install => InstallKeeps(c, m);
    case RemoveWal => RemoveKeeps(c, m);
    case Crash =>
    case Recover => RecoverKeeps(c, m);
  }

  /**
   From any instant, every step that can happen succeeds and leads to another good instant; only
   `Begin` changes the specified session.
   */
  lemma MoveKeepsInv(limits: Limits, start: View, c: PayloadCodec, m: Machine, move: Move)
    requires ProperCodec(c) && MachineInv(limits, start, c, m)
    requires move.Begin? ==> Admissible(m.spec.graph, m.spec.used, move.op)
    ensures
      var r := Do(limits, c, m, move);
      && !r.Throws?
      && (r.Goes? ==>
            && MachineInv(limits, start, c, r.machine)
            && r.machine.spec == if move.Begin? then Next(limits, m.spec, move.op) else m.spec)
  {
    if move.Begin? {
      StepKeepsInv(limits, start, m.spec, move.op);
      BeginKeeps(limits, c, m, move.op);
    } else {
      LoggedEventsDiffer(m.spec);
      StepKeepsDisk(limits, c, m, move);
    }
  }

  lemma WholeLog(c: PayloadCodec, log: seq<Event>, e: Event, all: seq<Event>)
    requires all == log + [e]
    ensures Lines(c, log) + LineOf(c, e)[..|LineOf(c, e)|] == Lines(c, all)
  {
    TornLineSplit(c, log, e);
  }

  /** With the whole line in the log and the new snapshot in place, removing the write-ahead file settles the disk. */
  lemma RemovalSettles(c: PayloadCodec, d: Disk, s: System, before: Graph, onDisk: nat)
    requires Torn(c, d, s, before, onDisk) && d.snapshot == Some(s.graph) && onDisk == |LineOf(c, LastEvent(s))|
    ensures AtRest(c, d.(wal := None), s)
  {
    LogSplits(s);
    WholeLog(c, Front(s), LastEvent(s), s.log);
  }

  // ---------------------------------------------------------------- whole histories

  /** A step that is not possible now is skipped. */
  function Driven(limits: Limits, c: PayloadCodec, m: Machine, move: Move): Machine {
    match Do(limits, c, m, move)
    case Goes(next) => next
    case _ => m
  }

  /** The transaction whose reducer runs in this step, if any. */
  function Issued(limits: Limits, c: PayloadCodec, m: Machine, move: Move): seq<Op> {
    if move.Begin? && Do(limits, c, m, move).Goes? then [move.op] else []
  }

  function Drive(limits: Limits, c: PayloadCodec, m: Machine, moves: seq<Move>): Machine {
    if moves == [] then m
    else Driven(limits, c, Drive(limits, c, m, moves[..|moves| - 1]), moves[|moves| - 1])
  }

  /** The transactions of the history whose reducers ran, in order. */
  function Begun(limits: Limits, c: PayloadCodec, m: Machine, moves: seq<Move>): seq<Op> {
    if moves == [] then []
    else
      var front := moves[..|moves| - 1];
      Begun(limits, c, m, front) + Issued(limits, c, Drive(limits, c, m, front), moves[|moves| - 1])
  }

  ghost predicate FreshMoves(limits: Limits, c: PayloadCodec, m: Machine, moves: seq<Move>) {
    moves != [] ==>
      var front, last := moves[..|moves| - 1], moves[|moves| - 1];
      var mid := Drive(limits, c, m, front);
      FreshMoves(limits, c, m, front) && (last.Begin? ==> Admissible(mid.spec.graph, mid.spec.used, last.op))
  }

  /**
   Crash atomicity. However steps, torn appends, crashes and recoveries interleave, the disk
   stays recoverable to a session, and that session is exactly what the begun transactions
   make of the first one when they run one after the other.
   */
  lemma {:induction false} HistoryIsSerial(limits: Limits, start: View, c: PayloadCodec, m: Machine, moves: seq<Move>)
    requires ProperCodec(c) && MachineInv(limits, start, c, m) && FreshMoves(limits, c, m, moves)
    ensures MachineInv(limits, start, c, Drive(limits, c, m, moves))
    ensures Drive(limits, c, m, moves).spec == After(limits, m.spec, Begun(limits, c, m, moves))
  {
    if moves != [] {
      var front, last := moves[..|moves| - 1], moves[|moves| - 1];
      HistoryIsSerial(limits, start, c, m, front);
      var mid := Drive(limits, c, m, front);
      DrivenKeepsInv(limits, start, c, mid, last);
      AfterOneMore(limits, m.spec, Begun(limits, c, m, front), Issued(limits, c, mid, last));
    }
  }

  lemma DrivenKeepsInv(limits: Limits, start: View, c: PayloadCodec, m: Machine, move: Move)
    requires ProperCodec(c) && MachineInv(limits, start, c, m)
    requires move.Begin? ==> Admissible(m.spec.graph, m.spec.used, move.op)
    ensures MachineInv(limits, start, c, Driven(limits, c, m, move))
    ensures |Issued(limits, c, m, move)| <= 1
    ensures Driven(limits, c, m, move).spec
         == if Issued(limits, c, m, move) == [] then m.spec else Next(limits, m.spec, Issued(limits, c, m, move)[0])
  {
    MoveKeepsInv(limits, start, c, m, move);
    OutcomeDrives(limits, c, m, move, Do(limits, c, m, move));
  }

  lemma OutcomeDrives(limits: Limits, c: PayloadCodec, m: Machine, move: Move, r: Outcome)
    requires r == Do(limits, c, m, move)
    ensures Driven(limits, c, m, move) == (if r.Goes? then r.machine else m)
    ensures Issued(limits, c, m, move) == if r.Goes? && move.Begin? then [move.op] else []
  {
  }

  lemma AfterOneMore(limits: Limits, s: System, ops: seq<Op>, more: seq<Op>)
    requires |more| <= 1
    ensures After(limits, s, ops + more) == if more == [] then After(limits, s, ops)
              else Next(limits, After(limits, s, ops), more[0])
  {
    if more == [] {
      assert ops + more == ops;
    } else {
      assert (ops + more)[..|ops|] == ops;
    }
  }

  /** Right after `create` of a session's empty graph. */
  function Created(identity: GraphIdentity, clock: nat): Machine {
    Machine(Disk(Some(EmptyGraph(identity, clock)), None, Some("")), Ready, Start(identity, clock),
            EmptyGraph(identity, clock), 0)
  }

  lemma CreatedInv(limits: Limits, c: PayloadCodec, identity: GraphIdentity, clock: nat)
    ensures MachineInv(limits, StartView(identity, clock), c, Created(identity, clock))
  {
    StartInv(limits, identity, clock);
    assert LineTexts(c, []) == [];
  }

  /**
   Crash atomicity from the creation of the session on: whatever the history, recovery from the
   disk it leaves yields exactly the serial effect of the transactions whose reducers ran.
   */
  lemma EveryHistoryRecovers(limits: Limits, c: PayloadCodec, identity: GraphIdentity, clock: nat, moves: seq<Move>)
    requires ProperCodec(c) && FreshMoves(limits, c, Created(identity, clock), moves)
    ensures
      var m := Drive(limits, c, Created(identity, clock), moves);
      var session := After(limits, Start(identity, clock), Begun(limits, c, Created(identity, clock), moves));
      && Recovered(c, m.disk).Ok? && AtRest(c, Recovered(c, m.disk).value, session)
      && ReadLog(LogText(Recovered(c, m.disk).value)) == Some(Documents(c, session.log))
  {
    CreatedInv(limits, c, identity, clock);
    HistoryIsSerial(limits, StartView(identity, clock), c, Created(identity, clock), moves);
    RecoveryIsExact(limits, StartView(identity, clock), c, Drive(limits, c, Created(identity, clock), moves));
    LogReadsBack(c, After(limits, Start(identity, clock), Begun(limits, c, Created(identity, clock), moves)).log);
  }

  /** No step of installing or recovering a transaction ever throws, at any instant of any history. */
  lemma NeverStuck(limits: Limits, start: View, c: PayloadCodec, m: Machine, moves: seq<Move>, move: Move)
    requires ProperCodec(c) && MachineInv(limits, start, c, m) && FreshMoves(limits, c, m, moves) && !move.Begin?
    ensures !Do(limits, c, Drive(limits, c, m, moves), move).Throws?
  {
    HistoryIsSerial(limits, start, c, m, moves);
    MoveKeepsInv(limits, start, c, Drive(limits, c, m, moves), move);
  }

  /**
   Whenever the store is ready, snapshot and log are exactly the session, and the log file reads
   back event by event.
   */
  lemma ReadyIsExact(limits: Limits, start: View, c: PayloadCodec, m: Machine)
    requires ProperCodec(c) && MachineInv(limits, start, c, m) && m.pc == Ready
    ensures m.disk.wal.None? && m.disk.snapshot == Some(m.spec.graph)
    ensures ReadLog(LogText(m.disk)) == Some(Documents(c, m.spec.log))
  {
    LogReadsBack(c, m.spec.log);
  }

  // ---------------------------------------------------------------- recovery as one operation

  /** The whole of `recover`, uninterrupted: the disk it leaves, or what it throws. */
  function Recovered(c: PayloadCodec, d: Disk): Result<Disk, ErrorCode> {
    match d.wal
    case None => Ok(d)
    case Some(wal) =>
      match RecoveryRefusal(d.snapshot, wal)
      case Some(code) => Err(code)
      case None => Installation(c, d, wal)
  }

  /** Steps shared by `transact` and `recover`: append the event, replace the snapshot, remove the write-ahead file. */
  function Installation(c: PayloadCodec, d: Disk, wal: Wal): Result<Disk, ErrorCode> {
    match Logged(c, d.log, wal.event)
    case Err(code) => Err(code)
    case Ok(log) => Ok(Disk(Some(wal.graph), None, log))
  }

  /** `appendEventIdempotently`. */
  function Logged(c: PayloadCodec, log: Option<string>, e: Event): Result<Option<string>, ErrorCode> {
    var repaired := if log.None? then None else Some(RepairTail(log.value));
    WithPlan(repaired, LineOf(c, e), PlanAppend(c, TextOf(repaired), e))
  }

  function WithPlan(log: Option<string>, line: string, plan: AppendPlan): Result<Option<string>, ErrorCode> {
    match plan
    case Refuse(code) => Err(code)
    case AlreadyThere => Ok(log)
    case AppendLine => Ok(Some(TextOf(log) + line))
  }

  ghost predicate LogsAs(r: Result<Option<string>, ErrorCode>, text: string) {
    r.Ok? && TextOf(r.value) == text
  }

  /** Recovery from any instant of any history succeeds and leaves exactly the committed session. */
  lemma RecoveryIsExact(limits: Limits, start: View, c: PayloadCodec, m: Machine)
    requires ProperCodec(c) && MachineInv(limits, start, c, m)
    ensures Recovered(c, m.disk).Ok? && AtRest(c, Recovered(c, m.disk).value, m.spec)
  {
    if m.disk.wal.Some? {
      LoggedEventsDiffer(m.spec);
      InFlightRecovers(c, m.disk, m.spec, m.before, m.onDisk);
    }
  }

  lemma InFlightRecovers(c: PayloadCodec, d: Disk, s: System, before: Graph, onDisk: nat)
    requires ProperCodec(c) && InFlight(c, d, s, before, onDisk) && LastIsNew(s)
    ensures Recovered(c, d).Ok? && AtRest(c, Recovered(c, d).value, s)
  {
    assert RecoveryRefusal(d.snapshot, d.wal.value).None?;
    InFlightLogs(c, d.log, s, onDisk);
  }

  lemma InFlightLogs(c: PayloadCodec, log: Option<string>, s: System, onDisk: nat)
    requires ProperCodec(c) && s.log != [] && LastIsNew(s) && onDisk <= |LineOf(c, LastEvent(s))|
    requires TextOf(log) == Lines(c, Front(s)) + LineOf(c, LastEvent(s))[..onDisk]
    ensures LogsAs(Logged(c, log, LastEvent(s)), Lines(c, s.log))
  {
    LogSplits(s);
    TornLogIsCompleted(c, log, Front(s), LastEvent(s), s.log, onDisk);
  }

  /** Appending the event of a transaction in flight keeps it in flight, with the whole line on disk. */
  lemma LoggedIsInFlight(c: PayloadCodec, d: Disk, s: System, before: Graph)
    requires ProperCodec(c) && Torn(c, d, s, before, 0) && LastIsNew(s)
    ensures
      var r := Logged(c, d.log, LastEvent(s));
      r.Ok? && Torn(c, d.(log := r.value), s, before, |LineOf(c, LastEvent(s))|)
  {
    InFlightLogs(c, d.log, s, 0);
    TornWithLine(c, d, s, before, Logged(c, d.log, LastEvent(s)).value);
  }

  lemma TornWithLine(c: PayloadCodec, d: Disk, s: System, before: Graph, log: Option<string>)
    requires Torn(c, d, s, before, 0) && TextOf(log) == Lines(c, s.log)
    ensures Torn(c, d.(log := log), s, before, |LineOf(c, LastEvent(s))|)
  {
    LastLine(c, s);
    assert LogText(d.(log := log)) == TextOf(log);
  }

  lemma LastLine(c: PayloadCodec, s: System)
    requires s.log != []
    ensures Lines(c, Front(s)) + LineOf(c, LastEvent(s))[..|LineOf(c, LastEvent(s))|] == Lines(c, s.log)
  {
    WholeLog(c, Front(s), LastEvent(s), s.log);
  }

  function TextOf(log: Option<string>): string {
    if log.None? then "" else log.value
  }

  lemma TornLogIsCompleted(c: PayloadCodec, log: Option<string>, front: seq<Event>, e: Event, whole: seq<Event>,
                           onDisk: nat)
    requires ProperCodec(c) && onDisk <= |LineOf(c, e)| && whole == front + [e]
    requires TextOf(log) == Lines(c, front) + LineOf(c, e)[..onDisk]
    requires forall i | 0 <= i < |front| :: front[i].eventId != e.eventId && front[i].eventSeq != e.eventSeq
    ensures LogsAs(Logged(c, log, e), Lines(c, whole))
  {
    RepairGivesWholeLog(c, front, e, onDisk);
    RepairKeepsLines("");
    PlanIsExact(c, front, e);
    AppendedLine(c, front, e);
  }
}
