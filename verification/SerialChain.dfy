/**
 The promise chain that serialises the operations on one session
 (packages/web-buddy/src/agents/task-graph-store.ts:128-138). Each step is one microtask, and any
 enabled one may come next. An operation reads the state when it starts and writes when it ends.
 */
module SerialChain {
  import opened Wrappers

  /** Where the call of an operation is; `Done` is after its `finally`. */
  datatype Phase = Waiting | Running | Settled | Done

  /** `prior` is the call whose queued promise was in the map, `queued` says if that of this one has settled. */
  datatype Call<!V> = Call(operation: V -> Option<V>, prior: Option<nat>, phase: Phase, read: Option<V>, queued: bool)

  /** `tail` is the call whose queued promise is in the map. */
  datatype Chain<!V> = Chain(calls: seq<Call<V>>, tail: Option<nat>, value: V)

  datatype Step<!V> =
    | Enter(operation: V -> Option<V>) | Start(i: nat) | Settle(i: nat) | Finally(i: nat) | SettleQueued(i: nat)

  function Empty<V>(value: V): Chain<V> {
    Chain([], None, value)
  }

  predicate PriorSettled<V>(c: Chain<V>, i: nat)
    requires i < |c.calls|
  {
    c.calls[i].prior.Some? ==> c.calls[i].prior.value < |c.calls| && c.calls[c.calls[i].prior.value].queued
  }

  predicate Enabled<V>(c: Chain<V>, s: Step<V>) {
    match s
    case Enter(_) => true
    case Start(i) => i < |c.calls| && c.calls[i].phase == Waiting && PriorSettled(c, i)
    case Settle(i) => i < |c.calls| && c.calls[i].phase == Running
    case Finally(i) => i < |c.calls| && c.calls[i].phase == Settled
    case SettleQueued(i) => i < |c.calls| && c.calls[i].phase == Done && !c.calls[i].queued && PriorSettled(c, i)
  }

  /** What an operation that read `read` leaves; a failing one leaves `value`. */
  function Written<V>(operation: V -> Option<V>, read: Option<V>, value: V): V {
    match read
    case Some(v) => (match operation(v) case Some(w) => w case None => value)
    case None => value
  }

  function Next<V>(c: Chain<V>, s: Step<V>): Chain<V>
    requires Enabled(c, s)
  {
    match s
    case Enter(operation) =>
      Chain(c.calls + [Call(operation, c.tail, Waiting, None, false)], Some(|c.calls|), c.value)
    case Start(i) => c.(calls := c.calls[i := c.calls[i].(phase := Running, read := Some(c.value))])
    case Settle(i) =>
      Chain(c.calls[i := c.calls[i].(phase := Settled)], c.tail,
            Written(c.calls[i].operation, c.calls[i].read, c.value))
    case Finally(i) =>
      Chain(c.calls[i := c.calls[i].(phase := Done)], if c.tail == Some(i) then None else c.tail, c.value)
    case SettleQueued(i) => c.(calls := c.calls[i := c.calls[i].(queued := true)])
  }

  predicate IsRun<V>(c: Chain<V>, steps: seq<Step<V>>)
    decreases |steps|
  {
    steps == [] || (Enabled(c, steps[0]) && IsRun(Next(c, steps[0]), steps[1..]))
  }

  function After<V>(c: Chain<V>, steps: seq<Step<V>>): Chain<V>
    requires IsRun(c, steps)
    decreases |steps|
  {
    if steps == [] then c else After(Next(c, steps[0]), steps[1..])
  }

  // ---------------------------------------------------------------- what every step keeps

  /** Calls wait for all earlier ones: a call that has started has only finished ones before it. */
  ghost predicate InOrder<V>(c: Chain<V>) {
    forall i, j | 0 <= i < j < |c.calls| && c.calls[j].phase != Waiting :: c.calls[i].phase == Done
  }

  ghost predicate Linked<V>(c: Chain<V>) {
    && (forall j | 0 <= j < |c.calls| && c.calls[j].prior.Some? :: c.calls[j].prior.value == j - 1)
    && (forall i, j | 0 <= i < j < |c.calls| && c.calls[j].prior.None? :: c.calls[i].phase == Done)
    && (forall i, j | 0 <= i <= j < |c.calls| && c.calls[j].queued :: c.calls[i].phase == Done)
  }

  /** The map holds the last call, and only while it is unfinished. */
  ghost predicate TailIsLast<V>(c: Chain<V>) {
    match c.tail
    case Some(t) => t == |c.calls| - 1 && c.calls[t].phase != Done
    case None => forall i | 0 <= i < |c.calls| :: c.calls[i].phase == Done
  }

  /** The value after the operations that have ended, one after the other. */
  function Serial<V>(value: V, calls: seq<Call<V>>): V {
    if calls == [] then value
    else
      var before := Serial(value, calls[..|calls| - 1]);
      var last := calls[|calls| - 1];
      if last.phase == Settled || last.phase == Done then Written(last.operation, Some(before), before) else before
  }

  ghost predicate SerialValue<V>(initial: V, c: Chain<V>) {
    && c.value == Serial(initial, c.calls)
    && forall i | 0 <= i < |c.calls| && c.calls[i].phase == Running :: c.calls[i].read == Some(c.value)
  }

  ghost predicate Inv<V>(initial: V, c: Chain<V>) {
    InOrder(c) && Linked(c) && TailIsLast(c) && SerialValue(initial, c)
  }

  lemma OrderKept<V>(c: Chain<V>, s: Step<V>)
    requires InOrder(c) && Linked(c) && Enabled(c, s)
    ensures InOrder(Next(c, s))
  {
  }

  lemma LinksKept<V>(c: Chain<V>, s: Step<V>)
    requires Linked(c) && TailIsLast(c) && Enabled(c, s)
    ensures Linked(Next(c, s))
  {
  }

  lemma TailKept<V>(c: Chain<V>, s: Step<V>)
    requires InOrder(c) && TailIsLast(c) && Enabled(c, s)
    ensures TailIsLast(Next(c, s))
  {
  }

  lemma {:induction false} WaitingAddsNothing<V>(value: V, calls: seq<Call<V>>, k: nat)
    requires k <= |calls| && forall i | k <= i < |calls| :: calls[i].phase == Waiting
    ensures Serial(value, calls) == Serial(value, calls[..k])
    decreases |calls|
  {
    if k < |calls| {
      var shorter := calls[..|calls| - 1];
      WaitingAddsNothing(value, shorter, k);
      assert shorter[..k] == calls[..k];
    } else {
      assert calls[..k] == calls;
    }
  }

  lemma {:induction false} SameSerial<V>(value: V, a: seq<Call<V>>, b: seq<Call<V>>)
    requires |a| == |b|
    requires forall i | 0 <= i < |a| ::
               a[i].operation == b[i].operation && (a[i].phase in {Settled, Done}) == (b[i].phase in {Settled, Done})
    ensures Serial(value, a) == Serial(value, b)
  {
    if a != [] {
      SameSerial(value, a[..|a| - 1], b[..|b| - 1]);
    }
  }

  /** The calls after an unfinished one have not started. */
  lemma LaterWait<V>(c: Chain<V>, i: nat)
    requires InOrder(c) && i < |c.calls| && c.calls[i].phase != Done
    ensures forall j | i < j < |c.calls| :: c.calls[j].phase == Waiting
  {
  }

  lemma ValueAtSettle<V>(initial: V, c: Chain<V>, i: nat)
    requires InOrder(c) && SerialValue(initial, c) && Enabled(c, Settle(i))
    ensures Serial(initial, Next(c, Settle(i)).calls) == Next(c, Settle(i)).value
  {
    var d := Next(c, Settle(i));
    LaterWait(c, i);
    WaitingAddsNothing(initial, c.calls, i + 1);
    WaitingAddsNothing(initial, d.calls, i + 1);
    assert c.calls[..i + 1][..i] == c.calls[..i] && d.calls[..i + 1][..i] == c.calls[..i];
  }

  lemma SerialKept<V>(initial: V, c: Chain<V>, s: Step<V>)
    requires Inv(initial, c) && Enabled(c, s)
    ensures SerialValue(initial, Next(c, s))
  {
    var d := Next(c, s);
    match s {
      case Settle(i) =>
        ValueAtSettle(initial, c, i);
        LaterWait(c, i);
      case Enter(_) => WaitingAddsNothing(initial, d.calls, |c.calls|);
      case _ => SameSerial(initial, c.calls, d.calls);
    }
  }

  lemma {:induction false} RunKeepsInv<V>(initial: V, c: Chain<V>, steps: seq<Step<V>>)
    requires Inv(initial, c) && IsRun(c, steps)
    ensures Inv(initial, After(c, steps))
    decreases |steps|
  {
    if steps != [] {
      OrderKept(c, steps[0]);
      LinksKept(c, steps[0]);
      TailKept(c, steps[0]);
      SerialKept(initial, c, steps[0]);
      RunKeepsInv(initial, Next(c, steps[0]), steps[1..]);
    }
  }

  // ---------------------------------------------------------------- what that means for a run

  /**
   Mutual exclusion, first in first out, and no lost update, over every run: operations never
   overlap, none starts before all earlier ones have ended, and the value is that of the ended
   operations applied one after the other in the order they were entered. A failing operation
   delays nothing and changes nothing.
   */
  lemma ChainIsSerial<V>(initial: V, steps: seq<Step<V>>, i: nat, j: nat)
    requires IsRun(Empty(initial), steps)
    ensures
      var c := After(Empty(initial), steps);
      && c.value == Serial(initial, c.calls)
      && (i < j < |c.calls| && c.calls[j].phase != Waiting ==> c.calls[i].phase == Done)
  {
    RunKeepsInv(initial, Empty(initial), steps);
  }

  /** The map entry goes when the last operation ends: nothing is left behind. */
  lemma EntryIsRemoved<V>(initial: V, steps: seq<Step<V>>)
    requires IsRun(Empty(initial), steps)
    ensures
      var c := After(Empty(initial), steps);
      c.tail.None? <==> forall i | 0 <= i < |c.calls| :: c.calls[i].phase == Done
  {
    RunKeepsInv(initial, Empty(initial), steps);
  }

  /** The first call of the chain, at or before `i`, whose queued promise has not settled. */
  lemma {:induction false} QueuedCanSettle<V>(c: Chain<V>, i: nat) returns (s: Step<V>)
    requires Linked(c) && i < |c.calls| && !c.calls[i].queued && forall k | 0 <= k <= i :: c.calls[k].phase == Done
    ensures Enabled(c, s) && s.SettleQueued?
  {
    if PriorSettled(c, i) {
      s := SettleQueued(i);
    } else {
      s := QueuedCanSettle(c, i - 1);
    }
  }

  lemma {:induction false} FirstUnfinished<V>(calls: seq<Call<V>>) returns (k: nat)
    requires exists i :: 0 <= i < |calls| && calls[i].phase != Done
    ensures k < |calls| && calls[k].phase != Done && forall i | 0 <= i < k :: calls[i].phase == Done
  {
    if calls[0].phase != Done {
      k := 0;
    } else {
      var i :| 0 <= i < |calls| && calls[i].phase != Done;
      assert calls[1..][i - 1] == calls[i];
      var rest := FirstUnfinished(calls[1..]);
      k := rest + 1;
      assert forall i | 1 <= i < k :: calls[i] == calls[1..][i - 1];
    }
  }

  /** While any operation is unfinished, some step other than a new call is enabled: nothing waits forever. */
  lemma ChainNeverStalls<V>(initial: V, steps: seq<Step<V>>) returns (s: Option<Step<V>>)
    requires IsRun(Empty(initial), steps)
    ensures
      var c := After(Empty(initial), steps);
      if s.Some? then Enabled(c, s.value) && !s.value.Enter?
      else forall i | 0 <= i < |c.calls| :: c.calls[i].phase == Done
  {
    var c := After(Empty(initial), steps);
    RunKeepsInv(initial, Empty(initial), steps);
    if forall i | 0 <= i < |c.calls| :: c.calls[i].phase == Done {
      s := None;
    } else {
      var k := FirstUnfinished(c.calls);
      if c.calls[k].phase == Running {
        s := Some(Settle(k));
      } else if c.calls[k].phase == Settled {
        s := Some(Finally(k));
      } else if PriorSettled(c, k) {
        s := Some(Start(k));
      } else {
        var q := QueuedCanSettle(c, k - 1);
        s := Some(q);
      }
    }
  }
}
