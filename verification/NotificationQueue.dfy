/**
 The in-process notification queue (packages/web-buddy/src/agents/task-notification-queue.ts:16-197):
 FIFO per session, claims with an expiry, and acknowledgements fenced by the claim.
 Claim identifiers (UUIDs) and clock readings are parameters; waiting is not modelled.
 */
module NotificationQueue {
  import opened Wrappers
  import opened Contracts
  import opened Sorting

  datatype Delivery =
    | Available
    | Held(claimId: Id, claimantId: Id, claimedAt: Time, expiresAt: Time)
    | Done(receipt: Acknowledgement)

  datatype Record = Record(notification: Notification, delivery: Delivery)

  /** `recordsById` and `sessionOrder`. */
  datatype Queue = Queue(records: map<NotificationId, Record>, order: map<Id, seq<NotificationId>>)

  const EMPTY := Queue(map[], map[])

  function OrderOf(q: Queue, sessionId: Id): seq<NotificationId> {
    if sessionId in q.order then q.order[sessionId] else []
  }

  /** Every record is filed under its own identifier, and listed exactly once, in the order of its own session. */
  ghost predicate Sound(q: Queue) {
    && (forall id | id in q.records :: q.records[id].notification.notificationId == id)
    && (forall id | id in q.records :: id in OrderOf(q, q.records[id].notification.sessionId))
    && (forall s, i | s in q.order && 0 <= i < |q.order[s]| ::
          q.order[s][i] in q.records && q.records[q.order[s][i]].notification.sessionId == s)
    && (forall s | s in q.order :: Distinct(q.order[s]))
  }

  // ---------------------------------------------------------------- the operations on the queue's value

  /** `enqueue`: whether the notification is new, or the conflict. */
  function Enqueue(q: Queue, n: Notification): Result<Queue, ErrorCode> {
    if n.notificationId in q.records then
      if q.records[n.notificationId].notification != n then Err(NotificationAckConflict) else Ok(q)
    else
      Ok(Queue(q.records[n.notificationId := Record(n, Available)],
               q.order[n.sessionId := OrderOf(q, n.sessionId) + [n.notificationId]]))
  }

  /** `acknowledge`. */
  function Acknowledge(q: Queue, receipt: Acknowledgement): Result<Queue, ErrorCode> {
    if receipt.notificationId !in q.records then Err(NotificationAckConflict)
    else
      var record := q.records[receipt.notificationId];
      match record.delivery
      case Done(earlier) => if earlier == receipt then Ok(q) else Err(NotificationAckConflict)
      case Available => Err(NotificationAckConflict)
      case Held(claimId, _, _, _) =>
        if DeliveryFor(receipt.notificationId) != receipt.deliveryId || claimId != receipt.claimId
        then Err(NotificationAckConflict)
        else Ok(q.(records := q.records[receipt.notificationId := record.(delivery := Done(receipt))]))
  }

  function Release(r: Record, now: Time): Record {
    if r.delivery.Held? && r.delivery.expiresAt <= now then r.(delivery := Available) else r
  }

  /** `releaseExpiredClaims`. */
  function ReleaseExpired(q: Queue, now: Time): Queue {
    q.(records := map id | id in q.records :: Release(q.records[id], now))
  }

  /** Claiming the listed notifications that are available, under the claim identifiers of their positions. */
  function ClaimListed(q: Queue, ids: seq<NotificationId>, claimIds: seq<Id>, claimant: Id, at: Time,
                       until: Time): Queue
    requires |ids| == |claimIds|
  {
    if ids == [] then q
    else
      var last := |ids| - 1;
      var front := ClaimListed(q, ids[..last], claimIds[..last], claimant, at, until);
      if ids[last] in front.records && front.records[ids[last]].delivery.Available? then
        front.(records := front.records[ids[last] :=
          front.records[ids[last]].(delivery := Held(claimIds[last], claimant, at, until))])
      else front
  }

  datatype Attachment = Attachment(sessionId: Id, promptMessageId: Id, persistedAt: Time,
                                   notificationIds: seq<NotificationId>)

  /** The acknowledgement the reconciler makes up for a notification that a persisted prompt message already shows. */
  function ReconciledReceipt(a: Attachment, id: NotificationId, claimId: Id): Acknowledgement {
    Acknowledgement(AckReconciled(DeliveryFor(id), a.promptMessageId), id, DeliveryFor(id), claimId, a.promptMessageId,
                    a.persistedAt)
  }

  /** One notification of `reconcilePersistedPromptAttachments`. */
  function ReconcileOne(q: Queue, a: Attachment, id: NotificationId, claimId: Id): Result<Queue, ErrorCode> {
    if id !in q.records || q.records[id].delivery.Done? then Ok(q)
    else if q.records[id].notification.sessionId != a.sessionId then Err(NotificationAckConflict)
    else
      var claim := if q.records[id].delivery.Held? then q.records[id].delivery.claimId else claimId;
      Ok(q.(records := q.records[id := q.records[id].(delivery := Done(ReconciledReceipt(a, id, claim)))]))
  }

  // ---------------------------------------------------------------- what every operation keeps

  /** Nothing is lost or reordered: records stay, acknowledgements are final, orders only grow at the end. */
  ghost predicate Later(q: Queue, r: Queue) {
    && (forall id | id in q.records ::
          && id in r.records && r.records[id].notification == q.records[id].notification
          && (q.records[id].delivery.Done? ==> r.records[id].delivery == q.records[id].delivery))
    && (forall s | s in q.order :: s in r.order && q.order[s] <= r.order[s])
  }

  lemma LaterTransitive(q: Queue, r: Queue, t: Queue)
    requires Later(q, r) && Later(r, t)
    ensures Later(q, t)
  {
  }

  lemma UnknownIsUnlisted(q: Queue, sessionId: Id, id: NotificationId)
    requires Sound(q) && id !in q.records
    ensures id !in OrderOf(q, sessionId)
  {
    assert forall i | 0 <= i < |OrderOf(q, sessionId)| :: OrderOf(q, sessionId)[i] in q.records;
  }

  /** The notification is new and stands behind the order of its session. */
  ghost predicate Appended(q: Queue, n: Notification, r: Queue) {
    && n.notificationId !in q.records
    && r.records == q.records[n.notificationId := Record(n, Available)]
    && r.order == q.order[n.sessionId := OrderOf(q, n.sessionId) + [n.notificationId]]
  }

  lemma AppendedIsListed(q: Queue, n: Notification, r: Queue)
    requires Sound(q) && Appended(q, n, r)
    ensures forall id | id in r.records :: id in OrderOf(r, r.records[id].notification.sessionId)
  {
    assert r.order[n.sessionId][|OrderOf(q, n.sessionId)|] == n.notificationId;
    forall id | id in r.records
      ensures id in OrderOf(r, r.records[id].notification.sessionId)
    {
      if id != n.notificationId {
        assert id in OrderOf(q, q.records[id].notification.sessionId);
      }
    }
  }

  lemma AppendKeeps(q: Queue, n: Notification, r: Queue)
    requires Sound(q) && Appended(q, n, r)
    ensures Sound(r) && Later(q, r)
  {
    UnknownIsUnlisted(q, n.sessionId, n.notificationId);
    AppendedIsListed(q, n, r);
  }

  lemma EnqueueKeeps(q: Queue, n: Notification)
    requires Sound(q)
    ensures Enqueue(q, n).Ok? ==> Sound(Enqueue(q, n).value) && Later(q, Enqueue(q, n).value)
    ensures Enqueue(q, n).Ok? ==> n.notificationId in Enqueue(q, n).value.records
    ensures Enqueue(q, n).Err? <==> n.notificationId in q.records && q.records[n.notificationId].notification != n
    ensures Enqueue(q, n).Ok? ==>
              if n.notificationId in q.records then Enqueue(q, n).value == q else Appended(q, n, Enqueue(q, n).value)
  {
    if n.notificationId !in q.records {
      AppendKeeps(q, n, Enqueue(q, n).value);
    }
  }

  /** Changing only deliveries keeps the queue sound. */
  lemma DeliveriesKeep(q: Queue, r: Queue)
    requires Sound(q) && r.order == q.order && r.records.Keys == q.records.Keys
    requires forall id | id in q.records ::
               && r.records[id].notification == q.records[id].notification
               && (q.records[id].delivery.Done? ==> r.records[id].delivery == q.records[id].delivery)
    ensures Sound(r) && Later(q, r)
  {
    forall id | id in r.records
      ensures id in OrderOf(r, r.records[id].notification.sessionId)
    {
      assert id in OrderOf(q, q.records[id].notification.sessionId);
    }
  }

  lemma AcknowledgeKeeps(q: Queue, receipt: Acknowledgement)
    requires Sound(q)
    ensures Acknowledge(q, receipt).Ok? ==>
              Sound(Acknowledge(q, receipt).value) && Later(q, Acknowledge(q, receipt).value)
  {
    if Acknowledge(q, receipt).Ok? {
      DeliveriesKeep(q, Acknowledge(q, receipt).value);
    }
  }

  lemma ReleaseKeeps(q: Queue, now: Time)
    requires Sound(q)
    ensures Sound(ReleaseExpired(q, now)) && Later(q, ReleaseExpired(q, now))
  {
    DeliveriesKeep(q, ReleaseExpired(q, now));
  }

  /** Exactly the claims that ended by then are given back. */
  ghost predicate Released(before: map<NotificationId, Record>, after: map<NotificationId, Record>, now: Time) {
    && after.Keys == before.Keys
    && forall id | id in before ::
         after[id] == if before[id].delivery.Held? && before[id].delivery.expiresAt <= now
                      then Record(before[id].notification, Available) else before[id]
  }

  lemma ReconcileKeeps(q: Queue, a: Attachment, id: NotificationId, claimId: Id)
    requires Sound(q)
    ensures ReconcileOne(q, a, id, claimId).Ok? ==>
              Sound(ReconcileOne(q, a, id, claimId).value) && Later(q, ReconcileOne(q, a, id, claimId).value)
  {
    if ReconcileOne(q, a, id, claimId).Ok? {
      DeliveriesKeep(q, ReconcileOne(q, a, id, claimId).value);
    }
  }

  /** After claiming, each listed available notification is held under its position's claim; nothing else changes. */
  lemma {:induction false} ClaimedExactly(q: Queue, ids: seq<NotificationId>, claimIds: seq<Id>, claimant: Id,
                                          at: Time, until: Time)
    requires |ids| == |claimIds| && Distinct(ids)
    ensures
      var r := ClaimListed(q, ids, claimIds, claimant, at, until);
      && r.order == q.order && r.records.Keys == q.records.Keys
      && (forall id | id in q.records && id !in ids :: r.records[id] == q.records[id])
      && (forall i | 0 <= i < |ids| && ids[i] in q.records ::
            r.records[ids[i]] == if q.records[ids[i]].delivery.Available?
                                 then q.records[ids[i]].(delivery := Held(claimIds[i], claimant, at, until))
                                 else q.records[ids[i]])
  {
    if ids != [] {
      var last := |ids| - 1;
      assert Distinct(ids[..last]) && ids == ids[..last] + [ids[last]];
      ClaimedExactly(q, ids[..last], claimIds[..last], claimant, at, until);
      assert ids[last] !in ids[..last];
      assert forall i | 0 <= i < last :: ids[..last][i] == ids[i] && claimIds[..last][i] == claimIds[i];
    }
  }

  lemma ClaimKeeps(q: Queue, ids: seq<NotificationId>, claimIds: seq<Id>, claimant: Id, at: Time, until: Time)
    requires Sound(q) && |ids| == |claimIds| && Distinct(ids)
    ensures Sound(ClaimListed(q, ids, claimIds, claimant, at, until))
    ensures Later(q, ClaimListed(q, ids, claimIds, claimant, at, until))
  {
    ClaimedExactly(q, ids, claimIds, claimant, at, until);
    var r := ClaimListed(q, ids, claimIds, claimant, at, until);
    forall id | id in q.records
      ensures r.records[id].notification == q.records[id].notification
      ensures q.records[id].delivery.Done? ==> r.records[id].delivery == q.records[id].delivery
    {
      if id in ids {
        var i :| 0 <= i < |ids| && ids[i] == id;
        assert ids[i] in q.records;
      }
    }
    DeliveriesKeep(q, r);
  }

  /** A notification is acknowledged by its current claim only, and after that by the very same receipt only. */
  lemma AcknowledgeCondition(q: Queue, receipt: Acknowledgement)
    ensures Acknowledge(q, receipt).Ok? <==>
              && receipt.notificationId in q.records
              && var d := q.records[receipt.notificationId].delivery;
                 || d == Done(receipt)
                 || (d.Held? && d.claimId == receipt.claimId
                     && receipt.deliveryId == DeliveryFor(receipt.notificationId))
    ensures Acknowledge(q, receipt).Ok? ==>
              && Acknowledge(q, receipt).value.records[receipt.notificationId].delivery == Done(receipt)
              && Acknowledge(Acknowledge(q, receipt).value, receipt) == Acknowledge(q, receipt)
  {
  }

  /** A claim that has run out or was given to somebody else can no longer acknowledge. */
  lemma LostClaimIsFenced(q: Queue, ids: seq<NotificationId>, claimIds: seq<Id>, claimant: Id, at: Time, until: Time,
                          now: Time, receipt: Acknowledgement)
    requires |ids| == |claimIds| && Distinct(ids) && receipt.notificationId in q.records && receipt.claimId !in claimIds
    requires q.records[receipt.notificationId].delivery.Held?
    requires q.records[receipt.notificationId].delivery.expiresAt <= now
    ensures Acknowledge(ClaimListed(ReleaseExpired(q, now), ids, claimIds, claimant, at, until), receipt).Err?
  {
    var released := ReleaseExpired(q, now);
    ClaimedExactly(released, ids, claimIds, claimant, at, until);
    if receipt.notificationId in ids {
      var i :| 0 <= i < |ids| && ids[i] == receipt.notificationId;
      assert claimIds[i] in claimIds;
    }
  }

  // ---------------------------------------------------------------- the queue object

  /** What a claim hands out, in queue order. */
  function Handed(q: Queue, ids: seq<NotificationId>, claimIds: seq<Id>, claimant: Id, at: Time,
                  until: Time): seq<Record>
    requires |ids| == |claimIds|
  {
    if ids == [] then []
    else
      var last := |ids| - 1;
      Handed(q, ids[..last], claimIds[..last], claimant, at, until)
        + if ids[last] in q.records && q.records[ids[last]].delivery.Available?
          then [q.records[ids[last]].(delivery := Held(claimIds[last], claimant, at, until))] else []
  }

  predicate Free(q: Queue, id: NotificationId) {
    id in q.records && q.records[id].delivery.Available?
  }

  /** The record of the given place, under the claim of that place. */
  predicate HandedAt(q: Queue, ids: seq<NotificationId>, claimIds: seq<Id>, claimant: Id, at: Time, until: Time,
                     place: nat, record: Record)
    requires |ids| == |claimIds|
  {
    && place < |ids| && Free(q, ids[place])
    && record == Record(q.records[ids[place]].notification, Held(claimIds[place], claimant, at, until))
  }

  /** What is handed out are the records at the given places of the order, which are those that were available. */
  ghost predicate HandsOut(q: Queue, ids: seq<NotificationId>, claimIds: seq<Id>, claimant: Id, at: Time, until: Time,
                           claimed: seq<Record>, places: seq<nat>)
    requires |ids| == |claimIds|
  {
    && |places| == |claimed| && (forall j, k | 0 <= j < k < |places| :: places[j] < places[k])
    && (forall i | 0 <= i < |ids| && Free(q, ids[i]) :: i in places)
    && (forall k | 0 <= k < |places| :: HandedAt(q, ids, claimIds, claimant, at, until, places[k], claimed[k]))
  }

  lemma {:induction false} HandedInOrder(q: Queue, ids: seq<NotificationId>, claimIds: seq<Id>, claimant: Id, at: Time,
                                         until: Time) returns (places: seq<nat>)
    requires |ids| == |claimIds|
    ensures HandsOut(q, ids, claimIds, claimant, at, until, Handed(q, ids, claimIds, claimant, at, until), places)
  {
    places := [];
    if ids != [] {
      var last := |ids| - 1;
      places := HandedInOrder(q, ids[..last], claimIds[..last], claimant, at, until);
      var front := Handed(q, ids[..last], claimIds[..last], claimant, at, until);
      PlacesStay(q, ids, claimIds, claimant, at, until, front, places);
      if Free(q, ids[last]) {
        var record := q.records[ids[last]].(delivery := Held(claimIds[last], claimant, at, until));
        PlaceAdded(q, ids, claimIds, claimant, at, until, front, places, record);
        assert Handed(q, ids, claimIds, claimant, at, until) == front + [record];
        places := places + [last];
      }
    }
  }

  /** All but the last place are accounted for. */
  ghost predicate HandsOutFront(q: Queue, ids: seq<NotificationId>, claimIds: seq<Id>, claimant: Id, at: Time,
                                until: Time, claimed: seq<Record>, places: seq<nat>)
    requires |ids| == |claimIds| && ids != []
  {
    && |places| == |claimed| && (forall j, k | 0 <= j < k < |places| :: places[j] < places[k])
    && (forall i | 0 <= i < |ids| - 1 && Free(q, ids[i]) :: i in places)
    && (forall k | 0 <= k < |places| ::
          places[k] < |ids| - 1 && HandedAt(q, ids, claimIds, claimant, at, until, places[k], claimed[k]))
  }

  lemma PlacesStay(q: Queue, ids: seq<NotificationId>, claimIds: seq<Id>, claimant: Id, at: Time, until: Time,
                   claimed: seq<Record>, places: seq<nat>)
    requires |ids| == |claimIds| && ids != []
    requires HandsOut(q, ids[..|ids| - 1], claimIds[..|ids| - 1], claimant, at, until, claimed, places)
    ensures HandsOutFront(q, ids, claimIds, claimant, at, until, claimed, places)
  {
    forall i | 0 <= i < |ids| - 1 && Free(q, ids[i])
      ensures i in places
    {
      assert ids[..|ids| - 1][i] == ids[i];
    }
    forall k | 0 <= k < |places|
      ensures places[k] < |ids| - 1 && HandedAt(q, ids, claimIds, claimant, at, until, places[k], claimed[k])
    {
      HandedEarlier(q, ids, claimIds, claimant, at, until, places[k], claimed[k]);
    }
  }

  lemma PlaceAdded(q: Queue, ids: seq<NotificationId>, claimIds: seq<Id>, claimant: Id, at: Time, until: Time,
                   claimed: seq<Record>, places: seq<nat>, record: Record)
    requires |ids| == |claimIds| && ids != []
    requires HandsOutFront(q, ids, claimIds, claimant, at, until, claimed, places)
    requires HandedAt(q, ids, claimIds, claimant, at, until, |ids| - 1, record)
    ensures HandsOut(q, ids, claimIds, claimant, at, until, claimed + [record], places + [|ids| - 1])
  {
    var more := places + [|ids| - 1];
    forall i | 0 <= i < |ids| && Free(q, ids[i])
      ensures i in more
    {
      if i == |ids| - 1 { assert more[|places|] == i; } else { assert i in places; }
    }
  }

  lemma HandedEarlier(q: Queue, ids: seq<NotificationId>, claimIds: seq<Id>, claimant: Id, at: Time, until: Time,
                      place: nat, record: Record)
    requires |ids| == |claimIds| && ids != []
    requires HandedAt(q, ids[..|ids| - 1], claimIds[..|ids| - 1], claimant, at, until, place, record)
    ensures HandedAt(q, ids, claimIds, claimant, at, until, place, record) && place < |ids| - 1
  {
  }

  /** Folding `ReconcileOne` over the notifications of one attachment. */
  function ReconcileAll(q: Queue, a: Attachment, n: nat, claimIds: seq<Id>): Result<Queue, ErrorCode>
    requires n <= |a.notificationIds| == |claimIds|
  {
    if n == 0 then Ok(q)
    else
      match ReconcileAll(q, a, n - 1, claimIds)
      case Err(e) => Err(e)
      case Ok(r) => ReconcileOne(r, a, a.notificationIds[n - 1], claimIds[n - 1])
  }

  lemma {:induction false} ReconcileStaysSound(q: Queue, a: Attachment, n: nat, claimIds: seq<Id>)
    requires Sound(q) && n <= |a.notificationIds| == |claimIds| && ReconcileAll(q, a, n, claimIds).Ok?
    ensures Sound(ReconcileAll(q, a, n, claimIds).value) && Later(q, ReconcileAll(q, a, n, claimIds).value)
  {
    if n > 0 {
      ReconcileStaysSound(q, a, n - 1, claimIds);
      var mid := ReconcileAll(q, a, n - 1, claimIds).value;
      ReconcileKeeps(mid, a, a.notificationIds[n - 1], claimIds[n - 1]);
      LaterTransitive(q, mid, ReconcileAll(q, a, n, claimIds).value);
    }
  }

  /** The record is acknowledged as shown in the prompt message: under its claim, or under the one made up for it. */
  ghost predicate AcknowledgedBy(a: Attachment, before: Record, after: Record, id: NotificationId, claimId: Id) {
    if before.delivery.Done? then after == before
    else
      var claim := if before.delivery.Held? then before.delivery.claimId else claimId;
      after == Record(before.notification,
                      Done(Acknowledgement(AckReconciled(DeliveryFor(id), a.promptMessageId), id, DeliveryFor(id),
                                           claim, a.promptMessageId, a.persistedAt)))
  }

  /**
   Reconciling an attachment acknowledges every listed notification that the queue knows, the first
   time it is listed, and touches no other.
   */
  lemma {:induction false} ReconciledAreDone(q: Queue, a: Attachment, n: nat, claimIds: seq<Id>)
    requires n <= |a.notificationIds| == |claimIds| && ReconcileAll(q, a, n, claimIds).Ok?
    ensures
      var r := ReconcileAll(q, a, n, claimIds).value;
      && r.records.Keys == q.records.Keys
      && (forall i | && 0 <= i < n && a.notificationIds[i] in q.records
                     && a.notificationIds[i] !in a.notificationIds[..i] ::
            AcknowledgedBy(a, q.records[a.notificationIds[i]], r.records[a.notificationIds[i]], a.notificationIds[i],
                           claimIds[i]))
      && (forall i | 0 <= i < n && a.notificationIds[i] in q.records :: r.records[a.notificationIds[i]].delivery.Done?)
      && (forall id | id in q.records && id !in a.notificationIds[..n] :: r.records[id] == q.records[id])
  {
    if n > 0 {
      ReconciledAreDone(q, a, n - 1, claimIds);
      assert a.notificationIds[..n] == a.notificationIds[..n - 1] + [a.notificationIds[n - 1]];
    }
  }

  /** The listed notification is known, not acknowledged yet, and of another session. */
  predicate Foreign(q: Queue, a: Attachment, i: nat)
    requires i < |a.notificationIds|
  {
    var id := a.notificationIds[i];
    id in q.records && !q.records[id].delivery.Done? && q.records[id].notification.sessionId != a.sessionId
  }

  lemma {:induction false} ReconcileKeepsNotifications(q: Queue, a: Attachment, n: nat, claimIds: seq<Id>)
    requires n <= |a.notificationIds| == |claimIds| && ReconcileAll(q, a, n, claimIds).Ok?
    ensures
      var r := ReconcileAll(q, a, n, claimIds).value;
      && r.records.Keys == q.records.Keys && r.order == q.order
      && forall id | id in q.records ::
           r.records[id].notification == q.records[id].notification
           && (q.records[id].delivery.Done? || q.records[id].notification.sessionId != a.sessionId ==>
               r.records[id] == q.records[id])
  {
    if n > 0 {
      ReconcileKeepsNotifications(q, a, n - 1, claimIds);
    }
  }

  /** Reconciling fails if and only if a listed notification is known, not acknowledged yet, and of another session. */
  lemma {:induction false} ReconcileCondition(q: Queue, a: Attachment, n: nat, claimIds: seq<Id>)
    requires n <= |a.notificationIds| == |claimIds|
    ensures ReconcileAll(q, a, n, claimIds).Ok? <==> forall i | 0 <= i < n :: !Foreign(q, a, i)
  {
    if n > 0 {
      ReconcileCondition(q, a, n - 1, claimIds);
      if ReconcileAll(q, a, n - 1, claimIds).Ok? {
        ReconcileKeepsNotifications(q, a, n - 1, claimIds);
        var r, id := ReconcileAll(q, a, n - 1, claimIds).value, a.notificationIds[n - 1];
        assert id in q.records ==> r.records[id].notification == q.records[id].notification;
        assert Foreign(r, a, n - 1) <==> Foreign(q, a, n - 1) by {
          ForeignStays(q, r, a, n, claimIds);
        }
        assert ReconcileAll(q, a, n, claimIds).Err? <==> Foreign(r, a, n - 1);
      }
    }
  }

  lemma ForeignStays(q: Queue, r: Queue, a: Attachment, n: nat, claimIds: seq<Id>)
    requires 0 < n <= |a.notificationIds| == |claimIds| && ReconcileAll(q, a, n - 1, claimIds) == Ok(r)
    ensures Foreign(r, a, n - 1) <==> Foreign(q, a, n - 1)
  {
    ReconcileKeepsNotifications(q, a, n - 1, claimIds);
  }

  /** The claims of the listed records that have run out. */
  function Expiring(records: map<NotificationId, Record>, ids: set<NotificationId>, now: Time): set<NotificationId>
    requires ids <= records.Keys
  {
    set id | id in ids && records[id].delivery.Held? && records[id].delivery.expiresAt <= now
  }

  lemma ExpiringGrows(records: map<NotificationId, Record>, done: set<NotificationId>, id: NotificationId, now: Time)
    requires done <= records.Keys && id in records && id !in done
    ensures
      var expired := records[id].delivery.Held? && records[id].delivery.expiresAt <= now;
      |Expiring(records, done + {id}, now)| == |Expiring(records, done, now)| + if expired then 1 else 0
  {
    var expired := records[id].delivery.Held? && records[id].delivery.expiresAt <= now;
    assert Expiring(records, done + {id}, now) == Expiring(records, done, now) + if expired then {id} else {};
  }

  class TaskNotificationQueue {
    var recordsById: map<NotificationId, Record>
    var sessionOrder: map<Id, seq<NotificationId>>

    ghost function State(): Queue
      reads this
    {
      Queue(recordsById, sessionOrder)
    }

    ghost predicate Valid()
      reads this
    {
      Sound(State())
    }

    constructor ()
      ensures Valid() && State() == EMPTY
    {
      recordsById, sessionOrder := map[], map[];
    }

    /** True when the notification is new. */
    method EnqueueNotification(n: Notification) returns (r: Result<bool, ErrorCode>)
      requires Valid()
      modifies this
      ensures Valid() && Later(old(State()), State())
      ensures r.Ok? <==> Enqueue(old(State()), n).Ok?
      ensures r.Ok? ==> State() == Enqueue(old(State()), n).value && r.value == (n.notificationId !in old(recordsById))
      ensures r.Err? ==> State() == old(State()) && Enqueue(old(State()), n) == Err(r.error)
    {
      EnqueueKeeps(State(), n);
      r := AddNotification(n);
    }

    method AddNotification(n: Notification) returns (r: Result<bool, ErrorCode>)
      modifies this
      ensures r.Ok? <==> Enqueue(old(State()), n).Ok?
      ensures r.Ok? ==> State() == Enqueue(old(State()), n).value && r.value == (n.notificationId !in old(recordsById))
      ensures r.Err? ==> State() == old(State()) && Enqueue(old(State()), n) == Err(r.error)
    {
      if n.notificationId in recordsById {
        if recordsById[n.notificationId].notification != n { return Err(NotificationAckConflict); }
        return Ok(false);
      }
      recordsById := recordsById[n.notificationId := Record(n, Available)];
      var order := if n.sessionId in sessionOrder then sessionOrder[n.sessionId] else [];
      sessionOrder := sessionOrder[n.sessionId := order + [n.notificationId]];
      r := Ok(true);
    }

    /** Hands out every available notification of the session, oldest first, each under its own claim. */
    method ClaimAvailable(sessionId: Id, claimantId: Id, claimIds: seq<Id>, now: Time, lease: nat)
      returns (claimed: seq<Record>, ghost places: seq<nat>)
      requires Valid() && |claimIds| == |OrderOf(State(), sessionId)|
      modifies this`recordsById
      ensures Valid() && Later(old(State()), State())
      ensures State() == ClaimListed(old(State()), OrderOf(old(State()), sessionId), claimIds, claimantId, now,
                                     now + lease)
      ensures claimed == Handed(old(State()), OrderOf(old(State()), sessionId), claimIds, claimantId, now, now + lease)
      ensures HandsOut(old(State()), OrderOf(old(State()), sessionId), claimIds, claimantId, now, now + lease, claimed,
                       places)
    {
      var order := if sessionId in sessionOrder then sessionOrder[sessionId] else [];
      ClaimKeeps(State(), order, claimIds, claimantId, now, now + lease);
      places := HandedInOrder(State(), order, claimIds, claimantId, now, now + lease);
      claimed := ClaimInOrder(order, claimIds, claimantId, now, now + lease);
    }

    method ClaimInOrder(order: seq<NotificationId>, claimIds: seq<Id>, claimantId: Id, now: Time, until: Time)
      returns (claimed: seq<Record>)
      requires Distinct(order) && |order| == |claimIds|
      modifies this`recordsById
      ensures State() == ClaimListed(old(State()), order, claimIds, claimantId, now, until)
      ensures claimed == Handed(old(State()), order, claimIds, claimantId, now, until)
    {
      ghost var before := State();
      claimed := [];
      for i := 0 to |order|
        invariant State() == ClaimListed(before, order[..i], claimIds[..i], claimantId, now, until)
        invariant claimed == Handed(before, order[..i], claimIds[..i], claimantId, now, until)
      {
        ClaimOneMore(before, order, claimIds, i, claimantId, now, until);
        var id := order[i];
        if id in recordsById && recordsById[id].delivery.Available? {
          var record := recordsById[id].(delivery := Held(claimIds[i], claimantId, now, until));
          recordsById := recordsById[id := record];
          claimed := claimed + [record];
        }
      }
      assert order[..|order|] == order && claimIds[..|order|] == claimIds;
    }

    static lemma ClaimOneMore(q: Queue, order: seq<NotificationId>, claimIds: seq<Id>, i: nat, claimant: Id, at: Time,
                              until: Time)
      requires Distinct(order) && |order| == |claimIds| && i < |order|
      ensures
        var r := ClaimListed(q, order[..i], claimIds[..i], claimant, at, until);
        var handed := Handed(q, order[..i], claimIds[..i], claimant, at, until);
        var free := order[i] in r.records && r.records[order[i]].delivery.Available?;
        && ClaimListed(q, order[..i + 1], claimIds[..i + 1], claimant, at, until)
           == (if free then r.(records :=
               r.records[order[i] := r.records[order[i]].(delivery := Held(claimIds[i], claimant, at, until))]) else r)
        && Handed(q, order[..i + 1], claimIds[..i + 1], claimant, at, until)
           == (if free then handed + [r.records[order[i]].(delivery := Held(claimIds[i], claimant, at, until))]
               else handed)
    {
      assert order[..i + 1][..i] == order[..i] && claimIds[..i + 1][..i] == claimIds[..i];
      assert Distinct(order[..i]) && order[i] !in order[..i];
      ClaimedExactly(q, order[..i], claimIds[..i], claimant, at, until);
    }

    method AcknowledgeDelivery(receipt: Acknowledgement) returns (r: Result<bool, ErrorCode>)
      requires Valid()
      modifies this`recordsById
      ensures Valid() && Later(old(State()), State())
      ensures r.Ok? <==> Acknowledge(old(State()), receipt).Ok?
      ensures State() == if r.Ok? then Acknowledge(old(State()), receipt).value else old(State())
    {
      AcknowledgeKeeps(State(), receipt);
      r := AcknowledgeFenced(receipt);
    }

    method AcknowledgeFenced(receipt: Acknowledgement) returns (r: Result<bool, ErrorCode>)
      modifies this`recordsById
      ensures r.Ok? <==> Acknowledge(old(State()), receipt).Ok?
      ensures State() == if r.Ok? then Acknowledge(old(State()), receipt).value else old(State())
    {
      if receipt.notificationId !in recordsById { return Err(NotificationAckConflict); }
      var record := recordsById[receipt.notificationId];
      if record.delivery.Done? {
        if record.delivery.receipt == receipt { return Ok(true); }
        return Err(NotificationAckConflict);
      }
      if !record.delivery.Held? || DeliveryFor(receipt.notificationId) != receipt.deliveryId
        || record.delivery.claimId != receipt.claimId {
        return Err(NotificationAckConflict);
      }
      recordsById := recordsById[receipt.notificationId := record.(delivery := Done(receipt))];
      r := Ok(true);
    }

    /** Returns how many claims were given back. */
    method ReleaseExpiredClaims(now: Time) returns (released: nat)
      requires Valid()
      modifies this`recordsById
      ensures Valid() && Later(old(State()), State())
      ensures State() == ReleaseExpired(old(State()), now)
      ensures Released(old(recordsById), recordsById, now) && sessionOrder == old(sessionOrder)
      ensures released == |Expiring(old(recordsById), old(recordsById).Keys, now)|
    {
      ReleaseKeeps(State(), now);
      released := ReleaseEach(now);
    }

    method ReleaseEach(now: Time) returns (released: nat)
      modifies this`recordsById
      ensures State() == ReleaseExpired(old(State()), now)
      ensures released == |Expiring(old(recordsById), old(recordsById).Keys, now)|
    {
      ghost var before := recordsById;
      released := 0;
      var todo := recordsById.Keys;
      ghost var done: set<NotificationId> := {};
      while todo != {}
        invariant todo + done == before.Keys && todo !! done && recordsById.Keys == before.Keys
        invariant forall id | id in before ::
                    recordsById[id] == if id in todo then before[id] else Release(before[id], now)
        invariant released == |Expiring(before, done, now)|
        decreases |todo|
      {
        var id :| id in todo;
        ExpiringGrows(before, done, id, now);
        var record := recordsById[id];
        if record.delivery.Held? && record.delivery.expiresAt <= now {
          recordsById := recordsById[id := record.(delivery := Available)];
          released := released + 1;
        }
        todo := todo - {id};
        done := done + {id};
      }
      assert done == before.Keys;
      assert recordsById == ReleaseExpired(Queue(before, sessionOrder), now).records;
    }

    /**
     One attachment of `reconcilePersistedPromptAttachments`. It acknowledges the listed
     notifications in turn, and throws at the first that is known, not acknowledged yet and of
     another session; those before it stay acknowledged.
     */
    method ReconcileAttachment(a: Attachment, claimIds: seq<Id>) returns (r: Result<bool, ErrorCode>, ghost at: nat)
      requires Valid() && |a.notificationIds| == |claimIds|
      modifies this`recordsById
      ensures Valid() && Later(old(State()), State())
      ensures at <= |claimIds| && ReconcileAll(old(State()), a, at, claimIds) == Ok(State())
      ensures forall i | 0 <= i < at :: !Foreign(old(State()), a, i)
      ensures r == if at == |claimIds| then Ok(true) else Err(NotificationAckConflict)
      ensures at < |claimIds| ==> Foreign(old(State()), a, at)
    {
      ghost var before := State();
      at := 0;
      for i := 0 to |a.notificationIds|
        invariant at == i && ReconcileAll(before, a, i, claimIds) == Ok(State())
        invariant Valid() && Later(before, State())
      {
        ReconcileCondition(before, a, i, claimIds);
        ReconcileKeepsNotifications(before, a, i, claimIds);
        var one := ReconcileNotification(a, a.notificationIds[i], claimIds[i], before);
        if one.Err? { return Err(one.error), at; }
        at := i + 1;
      }
      ReconcileCondition(before, a, at, claimIds);
      r := Ok(true);
    }

    /** One notification of the attachment. */
    method ReconcileNotification(a: Attachment, id: NotificationId, claimId: Id, ghost before: Queue)
      returns (r: Result<bool, ErrorCode>)
      requires Valid() && Later(before, State())
      modifies this`recordsById
      ensures Valid() && Later(before, State())
      ensures r.Ok? ==> ReconcileOne(old(State()), a, id, claimId) == Ok(State())
      ensures r.Err? ==> ReconcileOne(old(State()), a, id,
                                      claimId).Err? && State() == old(State()) && r.error == NotificationAckConflict
    {
      ghost var mid := State();
      ReconcileKeeps(mid, a, id, claimId);
      if id in recordsById && !recordsById[id].delivery.Done? {
        if recordsById[id].notification.sessionId != a.sessionId { return Err(NotificationAckConflict); }
        var claim := if recordsById[id].delivery.Held? then recordsById[id].delivery.claimId else claimId;
        recordsById := recordsById[id := recordsById[id].(delivery := Done(ReconciledReceipt(a, id, claim)))];
      }
      LaterTransitive(before, mid, State());
      r := Ok(true);
    }

    /** The records of a session, oldest first. */
    method Snapshot(sessionId: Id) returns (records: seq<Record>)
      requires Valid()
      ensures |records| == |OrderOf(State(), sessionId)|
      ensures forall i | 0 <= i < |records| :: State().records[OrderOf(State(), sessionId)[i]] == records[i]
    {
      records := [];
      var order := if sessionId in sessionOrder then sessionOrder[sessionId] else [];
      for i := 0 to |order|
        invariant |records| == i
        invariant forall k | 0 <= k < i :: order[k] in recordsById && records[k] == recordsById[order[k]]
      {
        if order[i] in recordsById {
          records := records + [recordsById[order[i]]];
        }
      }
    }
  }
}
