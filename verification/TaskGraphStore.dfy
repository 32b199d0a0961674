/**
 `FileTaskGraphStore` for one session, its files as fields
 (packages/web-buddy/src/agents/task-graph-store.ts:41-151, 229-299). `Transact` can be
 interrupted at the fault points of the source, which leaves the files as they are.
 */
module TaskGraphStore {
  import opened Wrappers
  import opened Contracts
  import opened Json
  import opened Reducers
  import opened Invariants
  import opened Runs
  import opened Guarantees
  import opened EventLines
  import opened StoreMachine
  import opened Texts

  datatype FaultPoint = AfterWalCommit | AfterEventAppend | AfterSnapshotCommit

  datatype TransactError = Refused(code: ErrorCode) | Injected(point: FaultPoint)

  function Prefixed(events: seq<Json>, r: Option<seq<Json>>): Option<seq<Json>> {
    match r
    case None => None
    case Some(more) => Some(events + more)
  }

  lemma PrefixedNothing(r: Option<seq<Json>>)
    ensures Prefixed([], r) == r
  {
    if r.Some? { assert [] + r.value == r.value; }
  }

  lemma PrefixedOneMore(events: seq<Json>, v: Json, r: Option<seq<Json>>)
    ensures Prefixed(events + [v], r) == Prefixed(events, Prefixed([v], r))
  {
    if r.Some? { assert (events + [v]) + r.value == events + ([v] + r.value); }
  }

  /** `readEventLog`, line by line. */
  method ReadEventLog(text: string) returns (r: Option<seq<Json>>)
    ensures r == ReadLog(text)
  {
    var events: seq<Json> := [];
    var rest := text;
    PrefixedNothing(ReadLog(text));
    while true
      invariant ReadLog(text) == Prefixed(events, ReadLog(rest))
      decreases |rest|
    {
      var n := FirstLine(rest);
      var line := Trim(rest[..n]);
      if n == |rest| {
        assert events + [] == events;
        if line != "" {
          var last := ParseText(line);
          if last.Some? { events := events + [last.value]; }
        }
        return Some(events);
      }
      if line != "" {
        var next := ParseText(line);
        if next.None? { return None; }
        PrefixedOneMore(events, next.value, ReadLog(rest[n + 1..]));
        events := events + [next.value];
      }
      rest := rest[n + 1..];
    }
  }

  lemma NextIsReachable(limits: Limits, identity: GraphIdentity, clock: nat, s: System, op: Op)
    requires Reachable(limits, identity, clock, s) && Admissible(s.graph, s.used, op)
    ensures Reachable(limits, identity, clock, Next(limits, s, op)) && LastIsNew(Next(limits, s, op))
  {
    var first := Start(identity, clock);
    var ops :| Plausible(limits, first, ops) && After(limits, first, ops) == s;
    assert (ops + [op])[..|ops|] == ops;
    assert Plausible(limits, first, ops + [op]) && After(limits, first, ops + [op]) == Next(limits, s, op);
    NextIsNew(limits, identity, clock, Next(limits, s, op));
  }

  lemma NextIsNew(limits: Limits, identity: GraphIdentity, clock: nat, s: System)
    requires Reachable(limits, identity, clock, s)
    ensures LastIsNew(s)
  {
    ReachableInv(limits, identity, clock, s);
    LoggedEventsDiffer(s);
  }

  /** What a committed transaction on a settled disk leads to. */
  lemma CommittedIsInFlight(limits: Limits, c: PayloadCodec, identity: GraphIdentity, clock: nat, s: System, op: Op,
                            d: Disk)
    requires Reachable(limits, identity, clock, s) && Admissible(s.graph, s.used, op) && !Replayed(s, op)
    requires Commit(limits, s.graph, op).Ok? && AtRest(c, d, s)
    ensures Journalled(limits, c, identity, clock, s, d, Commit(limits, s.graph, op).value, Next(limits, s, op))
  {
    NextIsReachable(limits, identity, clock, s, op);
    CommitIsValid(limits, s.graph, op);
    JournalledIsInFlight(c, d, s, Commit(limits, s.graph, op).value, Next(limits, s, op));
  }

  /** The mutation leads from one session to the next, and its write-ahead file puts it in flight. */
  ghost predicate Journalled(limits: Limits, c: PayloadCodec, identity: GraphIdentity, clock: nat, s: System, d: Disk,
                             m: Mutation, next: System) {
    && Reachable(limits, identity, clock, next) && LastIsNew(next)
    && next.log != [] && LastEvent(next) == m.event && next.graph == m.graph
    && InFlight(c, d.(wal := Some(Wal(m.graph, m.event))), next, s.graph, 0)
  }

  class FileTaskGraphStore {
    const limits: Limits
    const codec: PayloadCodec
    ghost const identity: GraphIdentity
    ghost const clock: nat

    var snapshot: Option<Graph>
    var wal: Option<Wal>
    var log: Option<string>

    /**
     The session the committed transactions specify, the graph before the last commit, and how much
     of the last line is on disk.
     */
    ghost var spec: System
    ghost var before: Graph
    ghost var onDisk: nat

    ghost function Files(): Disk
      reads this
    {
      Disk(snapshot, wal, log)
    }

    /** No session yet. */
    ghost predicate Blank()
      reads this
    {
      ProperCodec(codec) && snapshot.None? && wal.None? && LogText(Files()) == ""
    }

    ghost predicate Valid()
      reads this
    {
      && ProperCodec(codec)
      && Reachable(limits, identity, clock, spec)
      && LastIsNew(spec)
      && (AtRest(codec, Files(), spec) || InFlight(codec, Files(), spec, before, onDisk))
    }

    ghost predicate Settled()
      reads this
    {
      Valid() && AtRest(codec, Files(), spec)
    }

    constructor (limits: Limits, codec: PayloadCodec, identity: GraphIdentity, clock: nat)
      requires ProperCodec(codec)
      ensures Blank() && this.limits == limits && this.codec == codec && this.identity == identity
      ensures this.clock == clock
    {
      this.limits := limits;
      this.codec := codec;
      this.identity := identity;
      this.clock := clock;
      snapshot, wal, log := None, None, None;
    }

    /**
     `create`: writes the graph if the session has none, whatever the graph holds, and otherwise
     refuses. From the empty graph on, the files are those of a session of its own.
     */
    method Create(g: Graph) returns (r: Result<bool, ErrorCode>)
      requires Blank() || Valid()
      modifies this
      ensures old(Blank()) ==> r == Ok(true) && snapshot == Some(g) && wal.None? && log.Some? && LogText(Files()) == ""
      ensures old(Blank()) && g == EmptyGraph(identity, clock) ==> Settled() && spec == Start(identity, clock)
      ensures old(Valid()) ==> r == Err(GraphAlreadyExists) && Settled() && spec == old(spec)
    {
      if !Missing() {
        r := Recover();
        return Err(GraphAlreadyExists);
      }
      snapshot := Some(g);
      log := Some(if log.None? then "" else log.value);
      if g == EmptyGraph(identity, clock) {
        spec := Start(identity, clock);
        assert Plausible(limits, spec, []) && After(limits, spec, []) == spec;
        assert LineTexts(codec, []) == [];
      }
      r := Ok(true);
    }

    predicate Missing()
      reads this
    {
      snapshot.None? && wal.None?
    }

    /** `appendEventIdempotently`. */
    method AppendEvent(e: Event) returns (r: Result<bool, ErrorCode>)
      modifies this`log
      ensures r.Ok? <==> Logged(codec, old(log), e).Ok?
      ensures r.Ok? ==> log == Logged(codec, old(log), e).value
      ensures r.Err? ==> r.error == Logged(codec, old(log), e).error
    {
      if log.Some? {
        log := Some(RepairTail(log.value));
      }
      r := AppendRepaired(e);
    }

    /** The rest of `appendEventIdempotently`, behind the repaired tail. */
    method AppendRepaired(e: Event) returns (r: Result<bool, ErrorCode>)
      modifies this`log
      ensures
        var result := WithPlan(old(log), LineOf(codec, e), PlanAppend(codec, TextOf(old(log)), e));
        if r.Ok? then result == Ok(log) else result == Err(r.error)
    {
      var text := TextOf(log);
      var events := ReadEventLog(text);
      if events.None? { return Err(EventSequenceConflict); }
      var plan := PlanLine(events.value, EventJson(codec, e));
      assert plan == PlanAppend(codec, text, e);
      r := FollowPlan(plan, LineOf(codec, e));
    }

    method FollowPlan(plan: AppendPlan, line: string) returns (r: Result<bool, ErrorCode>)
      modifies this`log
      ensures r.Ok? <==> WithPlan(old(log), line, plan).Ok?
      ensures r.Ok? ==> log == WithPlan(old(log), line, plan).value
      ensures r.Err? ==> r.error == WithPlan(old(log), line, plan).error && log == old(log)
    {
      match plan {
        case Refuse(code) => return Err(code);
        case AlreadyThere => return Ok(true);
        case AppendLine =>
      }
      log := Some(TextOf(log) + line);
      r := Ok(true);
    }

    static method PlanLine(events: seq<Json>, doc: Json) returns (plan: AppendPlan)
      ensures plan == PlanAmong(events, doc)
    {
      var same := FindField(events, "eventId", Field(doc, "eventId"));
      if same.Some? {
        if Print(same.value) != Print(doc) { return Refuse(EventSequenceConflict); }
        return AlreadyThere;
      }
      if FindField(events, "eventSeq", Field(doc, "eventSeq")).Some? { return Refuse(EventSequenceConflict); }
      plan := AppendLine;
    }

    /**
     `recover`: completes an interrupted transaction; it never throws and never invents or loses
     one. Without a session it does nothing.
     */
    method Recover() returns (r: Result<bool, ErrorCode>)
      requires Blank() || Valid()
      modifies this`snapshot, this`wal, this`log
      ensures r.Ok?
      ensures old(Blank()) ==> Blank() && Files() == old(Files())
      ensures old(Valid()) ==> Settled()
    {
      if wal.None? { return Ok(true); }
      r := ReplayJournal();
    }

    method ReplayJournal() returns (r: Result<bool, ErrorCode>)
      requires ProperCodec(codec) && LastIsNew(spec) && InFlight(codec, Files(), spec, before, onDisk)
      modifies this`snapshot, this`wal, this`log
      ensures r.Ok? && AtRest(codec, Files(), spec)
    {
      InFlightRecovers(codec, Files(), spec, before, onDisk);
      r := Replay(Recovered(codec, Files()).value);
    }

    /** The recovery of a transaction whose write-ahead file was found. */
    method Replay(ghost disk: Disk) returns (r: Result<bool, ErrorCode>)
      requires wal.Some? && Recovered(codec, Files()) == Ok(disk)
      modifies this`snapshot, this`wal, this`log
      ensures r.Ok? && Files() == disk
    {
      match RecoveryRefusal(snapshot, wal.value) {
        case Some(code) => return Err(code);
        case None =>
      }
      var appended := AppendEvent(wal.value.event);
      match appended {
        case Err(code) => return Err(code);
        case Ok(_) =>
      }
      snapshot := Some(wal.value.graph);
      wal := None;
      r := Ok(true);
    }

    /** `load`: the graph, or None without a session. */
    method Load() returns (r: Result<Option<Graph>, ErrorCode>)
      requires Blank() || Valid()
      modifies this`snapshot, this`wal, this`log
      ensures old(Blank()) ==> r == Ok(None) && Files() == old(Files())
      ensures old(Valid()) ==> Settled() && r == Ok(Some(spec.graph))
    {
      var recovered := Recover();
      r := Ok(snapshot);
    }

    /** `readEvents`: the documents of exactly the committed events, in order. */
    method ReadEvents() returns (r: Result<seq<Json>, ErrorCode>)
      requires Blank() || Valid()
      modifies this`snapshot, this`wal, this`log
      ensures old(Blank()) ==> r == Ok([]) && Files() == old(Files())
      ensures old(Valid()) ==> Settled() && r == Ok(Documents(codec, spec.log))
    {
      var recovered := Recover();
      var events := ReadEventLog(if log.None? then "" else log.value);
      if snapshot.None? {
        EmptyLogReads();
      } else {
        LogReadsBack(codec, spec.log);
      }
      r := Ok(events.value);
    }

    static lemma EmptyLogReads()
      ensures ReadLog("") == Some([])
    {
    }

    /** The rename of the write-ahead file: from here on the transaction is committed. */
    method Journal(m: Mutation, ghost next: System)
      requires InFlight(codec, Files().(wal := Some(Wal(m.graph, m.event))), next, spec.graph, 0)
      modifies this`wal, this`spec, this`before, this`onDisk
      ensures spec == next && onDisk == 0 && InFlight(codec, Files(), spec, before, 0)
    {
      before, onDisk := spec.graph, 0;
      spec := next;
      wal := Some(Wal(m.graph, m.event));
    }

    /** The append of a committed event. */
    method LogCommitted(e: Event)
      requires ProperCodec(codec) && InFlight(codec, Files(), spec, before, 0) && LastIsNew(spec)
      requires e == LastEvent(spec)
      modifies this`log, this`onDisk
      ensures InFlight(codec, Files(), spec, before, onDisk) && onDisk == |LineOf(codec, e)|
    {
      LoggedIsInFlight(codec, Files(), spec, before);
      var appended := AppendEvent(e);
      onDisk := |LineOf(codec, e)|;
    }

    /** The rename of the new snapshot. */
    method InstallSnapshot(g: Graph)
      requires InFlight(codec, Files(), spec, before, onDisk) && onDisk == |LineOf(codec, LastEvent(spec))|
      requires g == spec.graph
      modifies this`snapshot
      ensures InFlight(codec, Files(), spec, before, onDisk) && snapshot == Some(spec.graph)
    {
      snapshot := Some(g);
    }

    method RemoveJournal()
      requires InFlight(codec, Files(), spec, before, onDisk) && onDisk == |LineOf(codec, LastEvent(spec))|
      requires snapshot == Some(spec.graph)
      modifies this`wal
      ensures AtRest(codec, Files(), spec)
    {
      RemovalSettles(codec, Files(), spec, before, onDisk);
      wal := None;
    }

    /** What follows the commit point in `transact`. */
    method Finish(m: Mutation, fault: Option<FaultPoint>) returns (r: Result<Mutation, TransactError>)
      requires ProperCodec(codec) && InFlight(codec, Files(), spec, before, 0) && onDisk == 0 && LastIsNew(spec)
      requires m.event == LastEvent(spec) && m.graph == spec.graph
      modifies this`snapshot, this`wal, this`log, this`onDisk
      ensures if fault.None? then AtRest(codec, Files(), spec) else InFlight(codec, Files(), spec, before, onDisk)
      ensures r == if fault.None? then Ok(m) else Err(Injected(fault.value))
    {
      if fault == Some(AfterWalCommit) { return Err(Injected(AfterWalCommit)); }
      LogCommitted(m.event);
      if fault == Some(AfterEventAppend) { return Err(Injected(AfterEventAppend)); }
      InstallSnapshot(m.graph);
      if fault == Some(AfterSnapshotCommit) { return Err(Injected(AfterSnapshotCommit)); }
      NoOtherFault(fault);
      RemoveJournal();
      r := Ok(m);
    }

    lemma NoOtherFault(fault: Option<FaultPoint>)
      requires fault != Some(AfterWalCommit) && fault != Some(AfterEventAppend) && fault != Some(AfterSnapshotCommit)
      ensures fault.None?
    {
      if fault.Some? {
        match fault.value
        case AfterWalCommit =>
        case AfterEventAppend =>
        case AfterSnapshotCommit =>
      }
    }

    /**
     `transact` with the reducer of `op`. Once the write-ahead file is in place the transaction is
     committed, also when a fault interrupts the rest; otherwise nothing changes.
     */
    method Transact(op: Op, fault: Option<FaultPoint>) returns (r: Result<Mutation, TransactError>)
      requires Blank() || (Valid() && Admissible(spec.graph, spec.used, op) && !Replayed(spec, op))
      modifies this
      ensures old(Blank()) ==> r == Err(Refused(GraphNotFound)) && Files() == old(Files())
      ensures old(Valid()) ==> Valid() && (fault.None? ==> Settled()) && spec == Next(limits, old(spec), op)
      ensures old(Valid()) && Commit(limits, old(spec).graph, op).Err? ==>
                Settled() && r == Err(Refused(Commit(limits, old(spec).graph, op).error))
      ensures old(Valid()) && Commit(limits, old(spec).graph, op).Ok? ==>
                r == if fault.None? then Ok(Commit(limits, old(spec).graph, op).value) else Err(Injected(fault.value))
    {
      var recovered := Recover();
      if snapshot.None? { return Err(Refused(GraphNotFound)); }
      r := TransactLoaded(op, fault);
    }

    /** The rest of `transact`, on a recovered session. */
    method TransactLoaded(op: Op, fault: Option<FaultPoint>) returns (r: Result<Mutation, TransactError>)
      requires Settled() && Admissible(spec.graph, spec.used, op) && !Replayed(spec, op)
      modifies this
      ensures Valid() && (fault.None? ==> Settled()) && spec == Next(limits, old(spec), op)
      ensures Commit(limits, old(spec).graph, op).Err? ==>
                Settled() && r == Err(Refused(Commit(limits, old(spec).graph, op).error))
      ensures Commit(limits, old(spec).graph, op).Ok? ==>
                r == if fault.None? then Ok(Commit(limits, old(spec).graph, op).value) else Err(Injected(fault.value))
    {
      var mutation := Commit(limits, snapshot.value, op);
      if mutation.Err? {
        return Err(Refused(mutation.error));
      }
      CommittedIsInFlight(limits, codec, identity, clock, spec, op, Files());
      r := CommitAndInstall(mutation.value, Next(limits, spec, op), fault);
    }

    method CommitAndInstall(m: Mutation, ghost next: System, fault: Option<FaultPoint>)
      returns (r: Result<Mutation, TransactError>)
      requires Settled() && Journalled(limits, codec, identity, clock, spec, Files(), m, next)
      modifies this
      ensures Valid() && (fault.None? ==> Settled())
      ensures spec == next
      ensures r == if fault.None? then Ok(m) else Err(Injected(fault.value))
    {
      r := JournalAndFinish(m, next, fault);
    }

    method JournalAndFinish(m: Mutation, ghost next: System, fault: Option<FaultPoint>)
      returns (r: Result<Mutation, TransactError>)
      requires ProperCodec(codec) && Journalled(limits, codec, identity, clock, spec, Files(), m, next)
      modifies this
      ensures if fault.None? then AtRest(codec, Files(), spec) else InFlight(codec, Files(), spec, before, onDisk)
      ensures spec == next
      ensures r == if fault.None? then Ok(m) else Err(Injected(fault.value))
    {
      Journal(m, next);
      r := Finish(m, fault);
    }
  }
}
