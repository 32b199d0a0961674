/**
 The durable outbox and the in-process queue together
 (packages/web-buddy/src/agents/task-scheduler.ts:211-255, 593-597;
 packages/web-buddy/src/agents/async-task-runtime.ts:745-792). A process loads graphs that grow
 stale, re-enqueues what they show as pending, lets the queue accept acknowledgements and only
 then records them durably; a restart loses the queue and everything loaded.
 */
module OutboxDelivery {
  import opened Wrappers
  import opened Contracts
  import opened Sorting
  import opened Reducers
  import opened Invariants
  import opened EventLog
  import opened Runs
  import opened Guarantees
  import NQ = NotificationQueue

  /** `loaded` are the graphs this process has read, `accepted` the receipts its queue has accepted. */
  datatype Process = Process(sys: System, queue: NQ.Queue, loaded: seq<Graph>, accepted: set<Acknowledgement>)

  datatype Move =
    | Transact(op: Op)
    | LoadGraph
    | ReconcileOutbox(i: nat)
    | ClaimSession(ids: seq<NotificationId>, claimIds: seq<Id>, claimant: Id, at: Time, until: Time)
    | ReleaseClaims(now: Time)
    | ReconcilePrompt(a: NQ.Attachment, id: NotificationId, claimId: Id)
    | AcceptAck(receipt: Acknowledgement)
    | CommitAck(receipt: Acknowledgement, eventId: Id)
    | Restart

  // ---------------------------------------------------------------- re-enqueueing the outbox

  function NidOf(e: OutboxEntry): NotificationId {
    e.notification.notificationId
  }

  /** `reconcileOutbox`: enqueue every pending entry, in outbox order. */
  function EnqueuePending(q: NQ.Queue, outbox: seq<OutboxEntry>): Result<NQ.Queue, ErrorCode> {
    if outbox == [] then Ok(q)
    else
      var last := |outbox| - 1;
      match EnqueuePending(q, outbox[..last])
      case Err(e) => Err(e)
      case Ok(r) => if outbox[last].receipt.None? then NQ.Enqueue(r, outbox[last].notification) else Ok(r)
  }

  lemma {:induction false} EnqueueingStops(q: NQ.Queue, outbox: seq<OutboxEntry>, n: nat)
    requires n <= |outbox| && EnqueuePending(q, outbox[..n]).Err?
    ensures EnqueuePending(q, outbox) == EnqueuePending(q, outbox[..n])
    decreases |outbox| - n
  {
    if n < |outbox| {
      assert outbox[..n + 1][..n] == outbox[..n];
      EnqueueingStops(q, outbox, n + 1);
    } else {
      assert outbox[..n] == outbox;
    }
  }

  /** The loop of `reconcileOutbox`: a conflict stops it, with the entries before it enqueued. */
  method EnqueueOutbox(queue: NQ.TaskNotificationQueue, outbox: seq<OutboxEntry>) returns (r: Result<bool, ErrorCode>)
    requires queue.Valid()
    modifies queue
    ensures queue.Valid() && NQ.Later(old(queue.State()), queue.State())
    ensures r.Ok? ==> EnqueuePending(old(queue.State()), outbox) == Ok(queue.State())
    ensures r.Err? ==> EnqueuePending(old(queue.State()), outbox) == Err(r.error)
  {
    ghost var before := queue.State();
    for i := 0 to |outbox|
      invariant queue.Valid() && NQ.Later(before, queue.State())
      invariant EnqueuePending(before, outbox[..i]) == Ok(queue.State())
    {
      assert outbox[..i + 1][..i] == outbox[..i];
      if outbox[i].receipt.None? {
        ghost var mid := queue.State();
        var enqueued := queue.EnqueueNotification(outbox[i].notification);
        if enqueued.Err? {
          EnqueueingStops(before, outbox, i + 1);
          return Err(enqueued.error);
        }
        NQ.LaterTransitive(before, mid, queue.State());
      }
    }
    assert outbox[..|outbox|] == outbox;
    r := Ok(true);
  }

  function PendingIds(outbox: seq<OutboxEntry>): set<NotificationId> {
    set k | 0 <= k < |outbox| && outbox[k].receipt.None? :: NidOf(outbox[k])
  }

  /** Every queued notification is the one the outbox has under that identifier. */
  ghost predicate Sourced(q: NQ.Queue, outbox: seq<OutboxEntry>) {
    forall id, k | id in q.records && 0 <= k < |outbox| && NidOf(outbox[k]) == id ::
      q.records[id].notification == outbox[k].notification
  }

  lemma PendingGrows(outbox: seq<OutboxEntry>, n: nat)
    requires n < |outbox|
    ensures PendingIds(outbox[..n + 1])
         == PendingIds(outbox[..n]) + if outbox[n].receipt.None? then {NidOf(outbox[n])} else {}
  {
    assert forall k | 0 <= k < n :: outbox[..n + 1][k] == outbox[..n][k];
    assert outbox[..n + 1][n] == outbox[n];
  }

  /** The pending ones among the listed entries were added where missing; every earlier record is untouched. */
  ghost predicate Refilled(q: NQ.Queue, r: NQ.Queue, pending: set<NotificationId>) {
    && r.records.Keys == q.records.Keys + pending
    && (forall id | id in q.records :: r.records[id] == q.records[id])
    && (forall id | id in r.records && id !in q.records :: r.records[id].delivery == NQ.Available)
  }

  lemma OneMoreEnqueued(q: NQ.Queue, r: NQ.Queue, outbox: seq<OutboxEntry>, n: nat)
    requires n < |outbox| && DistinctEntries(outbox) && Sourced(r, outbox)
    requires Refilled(q, r, PendingIds(outbox[..n])) && outbox[n].receipt.None?
    ensures
      var t := NQ.Enqueue(r, outbox[n].notification);
      t.Ok? && Refilled(q, t.value, PendingIds(outbox[..n + 1])) && Sourced(t.value, outbox)
  {
    PendingGrows(outbox, n);
  }

  /**
   Re-enqueueing from any version of the outbox never conflicts with what is queued; it adds
   exactly the missing pending notifications and leaves every existing record alone.
   */
  lemma {:induction false} ReconcileIsExact(q: NQ.Queue, outbox: seq<OutboxEntry>, n: nat)
    requires DistinctEntries(outbox) && Sourced(q, outbox) && n <= |outbox|
    ensures
      var r := EnqueuePending(q, outbox[..n]);
      r.Ok? && Refilled(q, r.value, PendingIds(outbox[..n])) && Sourced(r.value, outbox)
  {
    if n > 0 {
      ReconcileIsExact(q, outbox, n - 1);
      var mid := EnqueuePending(q, outbox[..n - 1]).value;
      assert outbox[..n][..n - 1] == outbox[..n - 1];
      PendingGrows(outbox, n - 1);
      if outbox[n - 1].receipt.None? {
        OneMoreEnqueued(q, mid, outbox, n - 1);
      }
    } else {
      assert PendingIds(outbox[..0]) == {};
    }
  }

  /** The pending notifications of the session that the queue does not know yet, in outbox order. */
  function Missing(q: NQ.Queue, outbox: seq<OutboxEntry>, sessionId: Id): seq<NotificationId> {
    if outbox == [] then []
    else
      var n := outbox[0].notification;
      (if outbox[0].receipt.None? && n.notificationId !in q.records && n.sessionId == sessionId
       then [n.notificationId] else [])
        + Missing(q, outbox[1..], sessionId)
  }

  lemma {:induction false} MissingAppend(q: NQ.Queue, outbox: seq<OutboxEntry>, entry: OutboxEntry, sessionId: Id)
    ensures Missing(q, outbox + [entry], sessionId) == Missing(q, outbox, sessionId) + Missing(q, [entry], sessionId)
  {
    if outbox == [] {
      assert outbox + [entry] == [entry];
    } else {
      assert (outbox + [entry])[1..] == outbox[1..] + [entry];
      MissingAppend(q, outbox[1..], entry, sessionId);
    }
  }

  /** What is re-enqueued stands behind what was queued, in outbox order. */
  lemma {:induction false} ReconcileKeepsOrder(q: NQ.Queue, outbox: seq<OutboxEntry>, n: nat, sessionId: Id)
    requires DistinctEntries(outbox) && Sourced(q, outbox) && n <= |outbox|
    ensures EnqueuePending(q, outbox[..n]).Ok?
    ensures NQ.OrderOf(EnqueuePending(q, outbox[..n]).value, sessionId)
         == NQ.OrderOf(q, sessionId) + Missing(q, outbox[..n], sessionId)
  {
    ReconcileIsExact(q, outbox, n);
    if n > 0 {
      var front, entry := outbox[..n - 1], outbox[n - 1];
      assert outbox[..n] == front + [entry];
      ReconcileKeepsOrder(q, outbox, n - 1, sessionId);
      ReconcileIsExact(q, outbox, n - 1);
      NotYetPending(outbox, n - 1);
      OrderGrows(q, front, entry, EnqueuePending(q, front).value, sessionId);
    }
  }

  lemma OrderGrows(q: NQ.Queue, front: seq<OutboxEntry>, entry: OutboxEntry, mid: NQ.Queue, sessionId: Id)
    requires EnqueuePending(q, front) == Ok(mid) && EnqueuePending(q, front + [entry]).Ok?
    requires NidOf(entry) in mid.records <==> NidOf(entry) in q.records
    requires NQ.OrderOf(mid, sessionId) == NQ.OrderOf(q, sessionId) + Missing(q, front, sessionId)
    ensures NQ.OrderOf(EnqueuePending(q, front + [entry]).value, sessionId)
         == NQ.OrderOf(q, sessionId) + Missing(q, front + [entry], sessionId)
  {
    assert (front + [entry])[..|front|] == front;
    MissingAppend(q, front, entry, sessionId);
    assert [entry][1..] == [];
    if entry.receipt.None? { OneMoreBehind(q, mid, entry, sessionId); }
  }

  lemma OneMoreBehind(q: NQ.Queue, mid: NQ.Queue, entry: OutboxEntry, sessionId: Id)
    requires entry.receipt.None? && (NidOf(entry) in mid.records <==> NidOf(entry) in q.records)
    requires NQ.Enqueue(mid, entry.notification).Ok?
    ensures NQ.OrderOf(NQ.Enqueue(mid, entry.notification).value, sessionId)
         == NQ.OrderOf(mid, sessionId) + Missing(q, [entry], sessionId)
  {
    assert [entry][1..] == [];
  }

  lemma NotYetPending(outbox: seq<OutboxEntry>, n: nat)
    requires DistinctEntries(outbox) && n < |outbox|
    ensures NidOf(outbox[n]) !in PendingIds(outbox[..n])
  {
  }

  lemma {:induction false} ReconcileStaysSound(q: NQ.Queue, outbox: seq<OutboxEntry>)
    requires NQ.Sound(q)
    ensures EnqueuePending(q, outbox).Ok? ==>
              NQ.Sound(EnqueuePending(q, outbox).value) && NQ.Later(q, EnqueuePending(q, outbox).value)
  {
    if outbox != [] && EnqueuePending(q, outbox).Ok? {
      var last := |outbox| - 1;
      ReconcileStaysSound(q, outbox[..last]);
      var mid := EnqueuePending(q, outbox[..last]).value;
      NQ.EnqueueKeeps(mid, outbox[last].notification);
      NQ.LaterTransitive(q, mid, EnqueuePending(q, outbox).value);
    }
  }

  // ---------------------------------------------------------------- the invariant of a process

  /** A durable receipt and the queue's record of the same notification agree. */
  ghost predicate ReceiptsAgree(q: NQ.Queue, outbox: seq<OutboxEntry>) {
    forall k | 0 <= k < |outbox| && outbox[k].receipt.Some? && NidOf(outbox[k]) in q.records ::
      q.records[NidOf(outbox[k])].delivery == NQ.Done(outbox[k].receipt.value)
  }

  ghost predicate AcceptedInQueue(q: NQ.Queue, accepted: set<Acknowledgement>) {
    forall r | r in accepted :: r.notificationId in q.records && q.records[r.notificationId].delivery == NQ.Done(r)
  }

  /** An earlier version of the outbox; whatever was acknowledged since is in the queue. */
  ghost predicate StaleButKnown(old': seq<OutboxEntry>, q: NQ.Queue, outbox: seq<OutboxEntry>) {
    && |old'| <= |outbox|
    && (forall k | 0 <= k < |old'| :: EntryEvolves(old'[k], outbox[k]))
    && (forall k | 0 <= k < |old'| && old'[k].receipt.None? && outbox[k].receipt.Some? :: NidOf(outbox[k]) in q.records)
  }

  ghost predicate Coupled(p: Process) {
    var outbox := p.sys.graph.outbox;
    && NQ.Sound(p.queue) && DistinctEntries(outbox)
    && (forall id | id in p.queue.records :: exists k :: 0 <= k < |outbox| && NidOf(outbox[k]) == id)
    && Sourced(p.queue, outbox)
    && ReceiptsAgree(p.queue, outbox)
    && AcceptedInQueue(p.queue, p.accepted)
    && (forall i | 0 <= i < |p.loaded| :: StaleButKnown(p.loaded[i].outbox, p.queue, outbox))
  }

  // ---------------------------------------------------------------- the moves

  function WithQueue(p: Process, r: Result<NQ.Queue, ErrorCode>): Process {
    if r.Ok? then p.(queue := r.value) else p
  }

  function Step(limits: Limits, p: Process, move: Move): Process {
    match move
    case Transact(op) => if op.Acknowledge? then p else p.(sys := Next(limits, p.sys, op))
    case LoadGraph => p.(loaded := p.loaded + [p.sys.graph])
    case ReconcileOutbox(i) => if i < |p.loaded| then WithQueue(p, EnqueuePending(p.queue, p.loaded[i].outbox)) else p
    case ClaimSession(ids, claimIds, claimant, at, until) =>
      if |ids| == |claimIds| then p.(queue := NQ.ClaimListed(p.queue, ids, claimIds, claimant, at, until)) else p
    case ReleaseClaims(now) => p.(queue := NQ.ReleaseExpired(p.queue, now))
    case ReconcilePrompt(a, id, claimId) => WithQueue(p, NQ.ReconcileOne(p.queue, a, id, claimId))
    case AcceptAck(receipt) =>
      var r := NQ.Acknowledge(p.queue, receipt);
      if r.Ok? then p.(queue := r.value, accepted := p.accepted + {receipt}) else p
    case CommitAck(receipt, eventId) =>
      if receipt in p.accepted then p.(sys := Next(limits, p.sys, Op.Acknowledge(receipt, eventId))) else p
    case Restart => Process(p.sys, NQ.EMPTY, [], {})
  }

  ghost predicate Possible(p: Process, move: Move) {
    match move
    case Transact(op) => Admissible(p.sys.graph, p.sys.used, op)
    case CommitAck(receipt, eventId) => Admissible(p.sys.graph, p.sys.used, Op.Acknowledge(receipt, eventId))
    case ClaimSession(ids, _, _, _, _) => Distinct(ids)
    case _ => true
  }

  // ---------------------------------------------------------------- every move keeps it

  ghost predicate IsPendingEntry(outbox: seq<OutboxEntry>, id: NotificationId) {
    exists k :: 0 <= k < |outbox| && NidOf(outbox[k]) == id && outbox[k].receipt.None?
  }

  lemma AcknowledgedIsNotPending(outbox: seq<OutboxEntry>, k: nat)
    requires DistinctEntries(outbox) && k < |outbox| && outbox[k].receipt.Some?
    ensures !IsPendingEntry(outbox, NidOf(outbox[k]))
  {
  }

  /** The queue moved on, and every notification it newly knows is pending in the outbox. */
  lemma QueueMoveKeeps(p: Process, q: NQ.Queue)
    requires Coupled(p) && NQ.Sound(q) && NQ.Later(p.queue, q) && Sourced(q, p.sys.graph.outbox)
    requires forall id | id in q.records && id !in p.queue.records :: IsPendingEntry(p.sys.graph.outbox, id)
    ensures Coupled(p.(queue := q))
  {
    var outbox := p.sys.graph.outbox;
    forall id | id in q.records
      ensures exists k :: 0 <= k < |outbox| && NidOf(outbox[k]) == id
    {
      if id !in p.queue.records { assert IsPendingEntry(outbox, id); }
    }
    forall k | 0 <= k < |outbox| && outbox[k].receipt.Some? && NidOf(outbox[k]) in q.records
      ensures q.records[NidOf(outbox[k])].delivery == NQ.Done(outbox[k].receipt.value)
    {
      AcknowledgedIsNotPending(outbox, k);
    }
    forall i | 0 <= i < |p.loaded|
      ensures StaleButKnown(p.loaded[i].outbox, q, outbox)
    {
      assert StaleButKnown(p.loaded[i].outbox, p.queue, outbox);
    }
  }

  lemma SameRecordsKeep(p: Process, q: NQ.Queue)
    requires Coupled(p) && NQ.Sound(q) && NQ.Later(p.queue, q) && q.records.Keys == p.queue.records.Keys
    ensures Coupled(p.(queue := q))
  {
    QueueMoveKeeps(p, q);
  }

  lemma ReconcileKeeps(p: Process, i: nat)
    requires Coupled(p) && i < |p.loaded|
    ensures EnqueuePending(p.queue, p.loaded[i].outbox).Ok?
    ensures Coupled(p.(queue := EnqueuePending(p.queue, p.loaded[i].outbox).value))
  {
    var seen, outbox := p.loaded[i].outbox, p.sys.graph.outbox;
    assert StaleButKnown(seen, p.queue, outbox);
    assert seen[..|seen|] == seen;
    ReconcileIsExact(p.queue, seen, |seen|);
    ReconcileStaysSound(p.queue, seen);
    var q := EnqueuePending(p.queue, seen).value;
    forall id | id in q.records && id !in p.queue.records
      ensures IsPendingEntry(outbox, id)
    {
      StillPending(seen, p.queue, outbox, id);
    }
    StillSourced(p, q, seen);
    QueueMoveKeeps(p, q);
  }

  lemma StillPending(seen: seq<OutboxEntry>, q: NQ.Queue, outbox: seq<OutboxEntry>, id: NotificationId)
    requires StaleButKnown(seen, q, outbox) && id in PendingIds(seen) && id !in q.records
    ensures IsPendingEntry(outbox, id)
  {
    var k :| 0 <= k < |seen| && seen[k].receipt.None? && NidOf(seen[k]) == id;
    assert EntryEvolves(seen[k], outbox[k]);
    assert NidOf(outbox[k]) == id && outbox[k].receipt.None?;
  }

  lemma StillSourced(p: Process, q: NQ.Queue, seen: seq<OutboxEntry>)
    requires Coupled(p) && StaleButKnown(seen, p.queue, p.sys.graph.outbox)
    requires Refilled(p.queue, q, PendingIds(seen)) && Sourced(q, seen)
    ensures Sourced(q, p.sys.graph.outbox)
  {
    var outbox := p.sys.graph.outbox;
    forall id, k | id in q.records && 0 <= k < |outbox| && NidOf(outbox[k]) == id
      ensures q.records[id].notification == outbox[k].notification
    {
      if id !in p.queue.records {
        var j :| 0 <= j < |seen| && seen[j].receipt.None? && NidOf(seen[j]) == id;
        assert EntryEvolves(seen[j], outbox[j]);
        assert j == k;
      }
    }
  }

  lemma AcceptKeeps(p: Process, receipt: Acknowledgement)
    requires Coupled(p) && NQ.Acknowledge(p.queue, receipt).Ok?
    ensures
      var q := NQ.Acknowledge(p.queue, receipt).value;
      Coupled(p.(queue := q, accepted := p.accepted + {receipt}))
  {
    var q := NQ.Acknowledge(p.queue, receipt).value;
    NQ.AcknowledgeKeeps(p.queue, receipt);
    NQ.AcknowledgeCondition(p.queue, receipt);
    SameRecordsKeep(p, q);
    OneMoreAccepted(p.(queue := q), receipt);
  }

  lemma OneMoreAccepted(p: Process, receipt: Acknowledgement)
    requires Coupled(p) && receipt.notificationId in p.queue.records
    requires p.queue.records[receipt.notificationId].delivery == NQ.Done(receipt)
    ensures Coupled(p.(accepted := p.accepted + {receipt}))
  {
  }

  lemma QueueStepKeeps(limits: Limits, p: Process, move: Move)
    requires Coupled(p) && Possible(p, move)
    requires move.ClaimSession? || move.ReleaseClaims? || move.ReconcilePrompt? || move.AcceptAck?
               || move.ReconcileOutbox?
    ensures Coupled(Step(limits, p, move))
  {
    match move
    case ReconcileOutbox(i) => if i < |p.loaded| { ReconcileKeeps(p, i); }
    case ClaimSession(ids, claimIds, claimant, at, until) =>
      if |ids| == |claimIds| {
        NQ.ClaimKeeps(p.queue, ids, claimIds, claimant, at, until);
        NQ.ClaimedExactly(p.queue, ids, claimIds, claimant, at, until);
        SameRecordsKeep(p, NQ.ClaimListed(p.queue, ids, claimIds, claimant, at, until));
      }
    case ReleaseClaims(now) =>
      NQ.ReleaseKeeps(p.queue, now);
      SameRecordsKeep(p, NQ.ReleaseExpired(p.queue, now));
    case ReconcilePrompt(a, id, claimId) =>
      NQ.ReconcileKeeps(p.queue, a, id, claimId);
      if NQ.ReconcileOne(p.queue, a, id, claimId).Ok? {
        SameRecordsKeep(p, NQ.ReconcileOne(p.queue, a, id, claimId).value);
      }
    case AcceptAck(receipt) => if NQ.Acknowledge(p.queue, receipt).Ok? { AcceptKeeps(p, receipt); }
  }

  // ---------------------------------------------------------------- transactions

  /** The outbox of a transaction that is not an acknowledgement: unchanged, or one new pending entry at the end. */
  ghost predicate OneMoreAtMost(before: seq<OutboxEntry>, after: seq<OutboxEntry>) {
    || after == before
    || (|after| == |before| + 1 && after[..|before|] == before && after[|before|].receipt.None?)
  }

  lemma OtherOpsOnlyAppend(limits: Limits, s: System, op: Op)
    requires !op.Acknowledge?
    ensures OneMoreAtMost(s.graph.outbox, Next(limits, s, op).graph.outbox)
  {
  }

  lemma TransactKeeps(p: Process, next: System)
    requires Coupled(p) && OneMoreAtMost(p.sys.graph.outbox, next.graph.outbox) && DistinctEntries(next.graph.outbox)
    ensures Coupled(p.(sys := next))
  {
    var before, after := p.sys.graph.outbox, next.graph.outbox;
    assert forall k | 0 <= k < |before| :: after[k] == before[k];
    forall id | id in p.queue.records
      ensures exists k :: 0 <= k < |after| && NidOf(after[k]) == id
    {
      var k :| 0 <= k < |before| && NidOf(before[k]) == id;
      assert NidOf(after[k]) == id;
    }
    forall id, k | id in p.queue.records && 0 <= k < |after| && NidOf(after[k]) == id
      ensures k < |before|
    {
      var j :| 0 <= j < |before| && NidOf(before[j]) == id;
      assert NidOf(after[j]) == id;
    }
    forall i | 0 <= i < |p.loaded|
      ensures StaleButKnown(p.loaded[i].outbox, p.queue, after)
    {
      assert StaleButKnown(p.loaded[i].outbox, p.queue, before);
    }
  }

  lemma CommitAckKeeps(p: Process, receipt: Acknowledgement, next: System)
    requires Coupled(p) && receipt in p.accepted && next.graph.outbox == Receipted(p.sys.graph.outbox, receipt)
    requires forall k | 0 <= k < |p.sys.graph.outbox| && NidOf(p.sys.graph.outbox[k]) == receipt.notificationId ::
               p.sys.graph.outbox[k].receipt.None?
    ensures Coupled(p.(sys := next))
  {
    var before, after := p.sys.graph.outbox, next.graph.outbox;
    AgreeAfterReceipt(p.queue, before, receipt);
    forall id | id in p.queue.records
      ensures exists k :: 0 <= k < |after| && NidOf(after[k]) == id
    {
      var k :| 0 <= k < |before| && NidOf(before[k]) == id;
      assert NidOf(after[k]) == id;
    }
    forall i | 0 <= i < |p.loaded|
      ensures StaleButKnown(p.loaded[i].outbox, p.queue, after)
    {
      KnownAfterReceipt(p.loaded[i].outbox, p.queue, before, receipt);
    }
  }

  lemma AgreeAfterReceipt(q: NQ.Queue, outbox: seq<OutboxEntry>, receipt: Acknowledgement)
    requires DistinctEntries(outbox) && Sourced(q, outbox) && ReceiptsAgree(q, outbox)
    requires receipt.notificationId in q.records && q.records[receipt.notificationId].delivery == NQ.Done(receipt)
    ensures
      var after := Receipted(outbox, receipt);
      DistinctEntries(after) && Sourced(q, after) && ReceiptsAgree(q, after)
  {
  }

  lemma KnownAfterReceipt(seen: seq<OutboxEntry>, q: NQ.Queue, outbox: seq<OutboxEntry>, receipt: Acknowledgement)
    requires StaleButKnown(seen, q, outbox) && receipt.notificationId in q.records
    requires forall k | 0 <= k < |outbox| && NidOf(outbox[k]) == receipt.notificationId :: outbox[k].receipt.None?
    ensures StaleButKnown(seen, q, Receipted(outbox, receipt))
  {
    forall k | 0 <= k < |seen|
      ensures EntryEvolves(seen[k], Receipted(outbox, receipt)[k])
    {
      assert EntryEvolves(seen[k], outbox[k]);
    }
  }

  lemma CommittedReceipt(limits: Limits, s: System, receipt: Acknowledgement, eventId: Id)
    requires DistinctEntries(s.graph.outbox)
    ensures
      var after := Next(limits, s, Op.Acknowledge(receipt, eventId)).graph.outbox;
      || after == s.graph.outbox
      || (&& after == Receipted(s.graph.outbox, receipt)
          && forall k | 0 <= k < |s.graph.outbox| && NidOf(s.graph.outbox[k]) == receipt.notificationId ::
               s.graph.outbox[k].receipt.None?)
  {
    var op := Op.Acknowledge(receipt, eventId);
    if Accepted(limits, s, op) {
      var j :| 0 <= j < |s.graph.outbox|
        && s.graph.outbox[j] == FindEntry(s.graph.outbox, receipt.notificationId).value;
    }
  }

  ghost predicate ProcessInv(limits: Limits, start: View, p: Process) {
    SystemInv(limits, start, p.sys) && Coupled(p)
  }

  lemma SysStepKeeps(limits: Limits, p: Process, op: Op)
    requires Coupled(p) && DistinctEntries(Next(limits, p.sys, op).graph.outbox)
    requires op.Acknowledge? ==> op.receipt in p.accepted
    ensures Coupled(p.(sys := Next(limits, p.sys, op)))
  {
    if op.Acknowledge? {
      CommittedReceipt(limits, p.sys, op.receipt, op.eventId);
      var next := Next(limits, p.sys, op);
      if next.graph.outbox == p.sys.graph.outbox { TransactKeeps(p, next); }
      else { CommitAckKeeps(p, op.receipt, next); }
    } else {
      OtherOpsOnlyAppend(limits, p.sys, op);
      TransactKeeps(p, Next(limits, p.sys, op));
    }
  }

  lemma ReachedDistinct(limits: Limits, start: View, s: System)
    requires SystemInv(limits, start, s)
    ensures DistinctEntries(s.graph.outbox)
  {
    InvariantIsFoldable(s.graph, s.used);
  }

  lemma CommitKeeps(limits: Limits, start: View, p: Process, op: Op)
    requires ProcessInv(limits, start, p) && Admissible(p.sys.graph, p.sys.used, op)
    requires op.Acknowledge? ==> op.receipt in p.accepted
    ensures ProcessInv(limits, start, p.(sys := Next(limits, p.sys, op)))
  {
    StepKeepsInv(limits, start, p.sys, op);
    ReachedDistinct(limits, start, Next(limits, p.sys, op));
    SysStepKeeps(limits, p, op);
  }

  /** One move, possible at the time, keeps queue and outbox coupled. */
  lemma MoveKeepsCoupling(limits: Limits, start: View, p: Process, move: Move)
    requires ProcessInv(limits, start, p) && Possible(p, move)
    ensures ProcessInv(limits, start, Step(limits, p, move))
  {
    match move
    case Transact(op) =>
      if !op.Acknowledge? { CommitKeeps(limits, start, p, op); }
    case CommitAck(receipt, eventId) =>
      if receipt in p.accepted { CommitKeeps(limits, start, p, Op.Acknowledge(receipt, eventId)); }
    case LoadGraph => LoadKeeps(p);
    case Restart =>
    case _ => QueueStepKeeps(limits, p, move);
  }

  lemma LoadKeeps(p: Process)
    requires Coupled(p)
    ensures Coupled(p.(loaded := p.loaded + [p.sys.graph]))
  {
    var outbox := p.sys.graph.outbox;
    assert StaleButKnown(outbox, p.queue, outbox);
  }

  // ---------------------------------------------------------------- whole histories

  function NewProcess(identity: GraphIdentity, clock: nat): Process {
    Process(Start(identity, clock), NQ.EMPTY, [], {})
  }

  function ProcessAfter(limits: Limits, p: Process, moves: seq<Move>): Process {
    if moves == [] then p else Step(limits, ProcessAfter(limits, p, moves[..|moves| - 1]), moves[|moves| - 1])
  }

  /** Each move is possible when its turn comes. */
  ghost predicate PossibleMoves(limits: Limits, p: Process, moves: seq<Move>) {
    moves != [] ==>
      var front := moves[..|moves| - 1];
      PossibleMoves(limits, p, front) && Possible(ProcessAfter(limits, p, front), moves[|moves| - 1])
  }

  lemma NewProcessInv(limits: Limits, identity: GraphIdentity, clock: nat)
    ensures ProcessInv(limits, StartView(identity, clock), NewProcess(identity, clock))
  {
    StartInv(limits, identity, clock);
  }

  lemma {:induction false} HistoryKeepsInv(limits: Limits, start: View, p: Process, moves: seq<Move>)
    requires ProcessInv(limits, start, p) && PossibleMoves(limits, p, moves)
    ensures ProcessInv(limits, start, ProcessAfter(limits, p, moves))
  {
    if moves != [] {
      var front := moves[..|moves| - 1];
      HistoryKeepsInv(limits, start, p, front);
      MoveKeepsCoupling(limits, start, ProcessAfter(limits, p, front), moves[|moves| - 1]);
    }
  }

  /**
   In every history from the start, through restarts and with graphs as stale as they may be: a
   durable receipt and the queue's record of its notification never disagree, every accepted
   receipt stays in the queue, and re-enqueueing from any loaded graph never conflicts.
   */
  lemma HistoryStaysCoupled(limits: Limits, identity: GraphIdentity, clock: nat, moves: seq<Move>)
    requires PossibleMoves(limits, NewProcess(identity, clock), moves)
    ensures
      var p := ProcessAfter(limits, NewProcess(identity, clock), moves);
      && ReceiptsAgree(p.queue, p.sys.graph.outbox) && AcceptedInQueue(p.queue, p.accepted)
      && forall i | 0 <= i < |p.loaded| :: EnqueuePending(p.queue, p.loaded[i].outbox).Ok?
  {
    NewProcessInv(limits, identity, clock);
    HistoryKeepsInv(limits, StartView(identity, clock), NewProcess(identity, clock), moves);
    CoupledNeverConflicts(ProcessAfter(limits, NewProcess(identity, clock), moves));
  }

  lemma CoupledNeverConflicts(p: Process)
    requires Coupled(p)
    ensures forall i | 0 <= i < |p.loaded| :: EnqueuePending(p.queue, p.loaded[i].outbox).Ok?
  {
    forall i | 0 <= i < |p.loaded|
      ensures EnqueuePending(p.queue, p.loaded[i].outbox).Ok?
    {
      ReconcileKeeps(p, i);
    }
  }

  // ---------------------------------------------------------------- after a restart

  /** The first reconciliation after a restart queues exactly the pending notifications, all of them available again. */
  lemma RestartRequeuesPending(limits: Limits, start: View, p: Process)
    requires ProcessInv(limits, start, p)
    ensures
      var again := Step(limits, Step(limits, Step(limits, p, Restart), LoadGraph), ReconcileOutbox(0));
      && again.sys == p.sys
      && again.queue.records.Keys == PendingIds(p.sys.graph.outbox)
      && forall id | id in again.queue.records :: again.queue.records[id].delivery == NQ.Available
  {
    ReachedDistinct(limits, start, p.sys);
    RefilledFromEmpty(p.sys.graph.outbox);
    StepsAfterRestart(limits, p);
  }

  lemma RefilledFromEmpty(outbox: seq<OutboxEntry>)
    requires DistinctEntries(outbox)
    ensures
      var r := EnqueuePending(NQ.EMPTY, outbox);
      && r.Ok? && r.value.records.Keys == PendingIds(outbox)
      && forall id | id in r.value.records :: r.value.records[id].delivery == NQ.Available
  {
    assert outbox[..|outbox|] == outbox;
    ReconcileIsExact(NQ.EMPTY, outbox, |outbox|);
  }

  lemma StepsAfterRestart(limits: Limits, p: Process)
    ensures Step(limits, Step(limits, Step(limits, p, Restart), LoadGraph), ReconcileOutbox(0))
         == WithQueue(Process(p.sys, NQ.EMPTY, [p.sys.graph], {}), EnqueuePending(NQ.EMPTY, p.sys.graph.outbox))
  {
    assert [] + [p.sys.graph] == [p.sys.graph];
  }

  /** No pending notification is lost: it stays in every later outbox, pending or with its receipt. */
  lemma NotificationsSurvive(limits: Limits, start: View, s: System, more: seq<Op>, k: nat)
    requires SystemInv(limits, start, s) && Plausible(limits, s, more) && k < |s.graph.outbox|
    ensures
      var later := After(limits, s, more).graph.outbox;
      k < |later| && later[k] == s.graph.outbox[k].(receipt := later[k].receipt)
  {
    ContinuationKeeps(limits, start, s, more);
    assert EntryEvolves(s.graph.outbox[k], After(limits, s, more).graph.outbox[k]);
  }
}
