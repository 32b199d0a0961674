/**
 Which messages survive `sanitizeMessageBoundary`, said message by message
 (packages/web-buddy/src/context/compaction-pipeline.ts:241-243, 360-391).
 */
module BoundaryLaws {
  import opened Messages

  /** `k` lies in the unbroken run of tool messages right after `a`. */
  ghost predicate InRun(ms: seq<Message>, a: nat, k: nat) {
    a < k < |ms| && forall j | a < j <= k :: ms[j].role == ToolRole
  }

  ghost predicate Answered(ms: seq<Message>, a: nat, x: CallId) {
    x != NO_CALL && exists k: nat :: InRun(ms, a, k) && ms[k].toolCallId == x
  }

  /** Every call of the assistant message at `a` is answered in the run after it. */
  ghost predicate FullyAnswered(ms: seq<Message>, a: nat)
    requires a < |ms|
  {
    CallsTools(ms[a]) && forall x | x in ms[a].toolCallIds :: Answered(ms, a, x)
  }

  /** The message at `i` answers a call of the assistant at `a`, and none before it in the run answers the same one. */
  ghost predicate FirstAnswerTo(ms: seq<Message>, a: nat, i: nat)
    requires i < |ms|
  {
    && InRun(ms, a, i) && Answers(ms[i], IdSet(ms[a].toolCallIds))
    && forall j | a < j < i :: ms[j].toolCallId != ms[i].toolCallId
  }

  ghost predicate Kept(ms: seq<Message>, i: nat)
    requires i < |ms|
  {
    if ms[i].role == ToolRole then exists a :: 0 <= a < i && FullyAnswered(ms, a) && FirstAnswerTo(ms, a, i)
    else CallsTools(ms[i]) ==> FullyAnswered(ms, i)
  }

  ghost function Marks(ms: seq<Message>): (r: seq<bool>)
    ensures |r| == |ms| && forall i | 0 <= i < |ms| :: r[i] == Kept(ms, i)
  {
    seq(|ms|, i requires 0 <= i < |ms| => Kept(ms, i))
  }

  /** The marked messages from `i` on, in order. */
  function Marked(ms: seq<Message>, marks: seq<bool>, i: nat): seq<Message>
    requires |marks| == |ms| && i <= |ms|
    decreases |ms| - i
  {
    if i == |ms| then [] else (if marks[i] then [ms[i]] else []) + Marked(ms, marks, i + 1)
  }

  ghost function KeptFrom(ms: seq<Message>, i: nat): seq<Message>
    requires i <= |ms|
  {
    Marked(ms, Marks(ms), i)
  }

  // ---------------------------------------------------------------- a run after an assistant message

  /** The calls still open after the first `k` messages of the run. */
  function Open(run: seq<Message>, expected: set<CallId>, k: nat): set<CallId>
    requires k <= |run|
  {
    if k == 0 then expected else Open(run, expected, k - 1) - {run[k - 1].toolCallId}
  }

  lemma {:induction false} OpenExactly(run: seq<Message>, expected: set<CallId>, k: nat, x: CallId)
    requires k <= |run|
    ensures x in Open(run, expected, k) <==> x in expected && forall j | 0 <= j < k :: run[j].toolCallId != x
  {
    if k > 0 {
      OpenExactly(run, expected, k - 1, x);
    }
  }

  lemma {:induction false} UnansweredByRun(run: seq<Message>, expected: set<CallId>, x: CallId)
    ensures x in Unanswered(run, expected) <==>
              x in expected && (x == NO_CALL || forall k | 0 <= k < |run| :: run[k].toolCallId != x)
  {
    if run != [] {
      var rest := run[1..];
      var fewer := if Answers(run[0], expected) then expected - {run[0].toolCallId} else expected;
      UnansweredByRun(rest, fewer, x);
      assert (forall k | 0 <= k < |run| :: run[k].toolCallId != x)
        <==> run[0].toolCallId != x && forall k | 0 <= k < |rest| :: rest[k].toolCallId != x by {
        assert forall k | 0 <= k < |rest| :: rest[k] == run[k + 1];
        assert forall k | 0 < k < |run| :: run[k] == rest[k - 1];
      }
    }
  }

  lemma RunAfter(ms: seq<Message>)
    requires ms != [] && CallsTools(ms[0])
    ensures forall k: nat :: InRun(ms, 0, k) <==> 0 < k < Taken(ms)
    ensures Taken(ms) < |ms| ==> ms[Taken(ms)].role != ToolRole
  {
    var n := Taken(ms);
    assert forall k | 0 < k < |ms| :: ms[k] == ms[1..][k - 1];
  }

  /** An assistant message goes exactly when some call of it stays open. */
  lemma FullyAnsweredExactly(ms: seq<Message>)
    requires ms != [] && CallsTools(ms[0])
    ensures FullyAnswered(ms, 0) <==> Unanswered(ms[1..Taken(ms)], IdSet(ms[0].toolCallIds)) == {}
  {
    var run, expected := ms[1..Taken(ms)], IdSet(ms[0].toolCallIds);
    RunAfter(ms);
    forall x
      ensures x in Unanswered(run, expected) <==> x in expected && !Answered(ms, 0, x)
    {
      UnansweredByRun(run, expected, x);
      if k: nat :| InRun(ms, 0, k) && ms[k].toolCallId == x { assert run[k - 1].toolCallId == x; }
      if k :| 0 <= k < |run| && run[k].toolCallId == x { assert InRun(ms, 0, k + 1) && ms[k + 1].toolCallId == x; }
    }
  }

  lemma FirstAnswerIsOpen(ms: seq<Message>, i: nat)
    requires ms != [] && CallsTools(ms[0]) && 0 < i < Taken(ms)
    ensures
      var run, expected := ms[1..Taken(ms)], IdSet(ms[0].toolCallIds);
      FirstAnswerTo(ms, 0, i) <==> Answers(ms[i], Open(run, expected, i - 1))
  {
    var run, expected := ms[1..Taken(ms)], IdSet(ms[0].toolCallIds);
    RunAfter(ms);
    OpenExactly(run, expected, i - 1, ms[i].toolCallId);
    assert forall j | 0 < j < i :: ms[j] == run[j - 1];
    assert forall j | 0 <= j < i - 1 :: run[j] == ms[j + 1];
  }

  /** Only the assistant message in front can keep a tool message of its run. */
  lemma KeptInRun(ms: seq<Message>, i: nat)
    requires ms != [] && CallsTools(ms[0]) && 0 < i < Taken(ms)
    ensures Kept(ms, i) <==> FullyAnswered(ms, 0) && FirstAnswerTo(ms, 0, i)
  {
    RunAfter(ms);
    assert InRun(ms, 0, i);
    assert forall a | 0 < a < i :: ms[a].role == ToolRole;
  }

  /** What the run of an assistant message contributes, from `i` on. */
  lemma {:induction false} KeptOfRun(ms: seq<Message>, i: nat)
    requires ms != [] && CallsTools(ms[0]) && 0 < i <= Taken(ms)
    ensures
      var run, expected := ms[1..Taken(ms)], IdSet(ms[0].toolCallIds);
      KeptFrom(ms, i) ==
        (if FullyAnswered(ms, 0) then Picked(run[i - 1..], Open(run, expected, i - 1)) else [])
          + KeptFrom(ms, Taken(ms))
    decreases |ms| - i
  {
    var n := Taken(ms);
    var run, expected := ms[1..n], IdSet(ms[0].toolCallIds);
    if i < n {
      KeptOfRun(ms, i + 1);
      KeptInRun(ms, i);
      if FullyAnswered(ms, 0) {
        FirstAnswerIsOpen(ms, i);
        OpenExactly(run, expected, i - 1, NO_CALL);
        assert run[i - 1..][0] == ms[i] && run[i - 1..][1..] == run[i..];
        var open := Open(run, expected, i - 1);
        if !Answers(ms[i], open) {
          assert open - {ms[i].toolCallId} == open;
        }
        Associative([ms[i]], Picked(run[i..], Open(run, expected, i)), KeptFrom(ms, n));
      }
    }
  }

  /** What the messages consumed by one round of grouping contribute. */
  lemma KeptOfFirst(ms: seq<Message>)
    requires ms != []
    ensures KeptFrom(ms, 0) == Flatten(FirstGroup(ms)) + KeptFrom(ms, Taken(ms))
  {
    var n := Taken(ms);
    if CallsTools(ms[0]) {
      var run, expected := ms[1..n], IdSet(ms[0].toolCallIds);
      KeptOfRun(ms, 1);
      FullyAnsweredExactly(ms);
      assert run[0..] == run;
      if FullyAnswered(ms, 0) {
        Associative([ms[0]], Picked(run, expected), KeptFrom(ms, n));
        FlattenOne([ms[0]] + Picked(run, expected));
      }
    } else if ms[0].role != ToolRole {
      FlattenOne([ms[0]]);
    }
  }

  lemma FlattenOne(g: seq<Message>)
    ensures Flatten([g]) == g
  {
    assert [g][1..] == [];
    assert g + [] == g;
  }

  // ---------------------------------------------------------------- dropping the messages already grouped

  /** Position `n` lies in no run that begins before it. */
  ghost predicate Boundary(ms: seq<Message>, n: nat) {
    n <= |ms| && forall a: nat | a < n && CallsTools(ms[a]) :: !InRun(ms, a, n)
  }

  lemma TakenIsBoundary(ms: seq<Message>)
    requires ms != []
    ensures Boundary(ms, Taken(ms))
  {
    if CallsTools(ms[0]) {
      RunAfter(ms);
      assert forall a: nat | 0 < a < Taken(ms) :: InRun(ms, 0, a) && ms[a].role == ToolRole;
    }
  }

  lemma InRunShifts(ms: seq<Message>, n: nat, a: nat, k: nat)
    requires n <= |ms|
    ensures InRun(ms[n..], a, k) <==> InRun(ms, n + a, n + k)
  {
    if a < k < |ms[n..]| {
      assert forall j | a < j <= k :: ms[n..][j] == ms[n + j];
      assert forall j | n + a < j <= n + k :: ms[j] == ms[n..][j - n];
    }
  }

  lemma FullyAnsweredShifts(ms: seq<Message>, n: nat, a: nat)
    requires n + a < |ms|
    ensures FullyAnswered(ms[n..], a) <==> FullyAnswered(ms, n + a)
  {
    forall x
      ensures Answered(ms[n..], a, x) <==> Answered(ms, n + a, x)
    {
      if k: nat :| InRun(ms[n..], a, k) && ms[n..][k].toolCallId == x {
        InRunShifts(ms, n, a, k);
        assert ms[n + k].toolCallId == x;
      }
      if k: nat :| InRun(ms, n + a, k) && ms[k].toolCallId == x {
        InRunShifts(ms, n, a, k - n);
        assert ms[n..][k - n].toolCallId == x;
      }
    }
  }

  lemma FirstAnswerShifts(ms: seq<Message>, n: nat, a: nat, i: nat)
    requires n + i < |ms| && a < i
    ensures FirstAnswerTo(ms[n..], a, i) <==> FirstAnswerTo(ms, n + a, n + i)
  {
    InRunShifts(ms, n, a, i);
    assert forall j | a < j < i :: ms[n..][j] == ms[n + j];
    assert forall j | n + a < j < n + i :: ms[j] == ms[n..][j - n];
  }

  lemma KeptShifts(ms: seq<Message>, n: nat, i: nat)
    requires Boundary(ms, n) && n + i < |ms|
    ensures Kept(ms[n..], i) <==> Kept(ms, n + i)
  {
    FullyAnsweredShifts(ms, n, i);
    if ms[n + i].role == ToolRole {
      if a: nat :| a < i && FullyAnswered(ms[n..], a) && FirstAnswerTo(ms[n..], a, i) {
        FullyAnsweredShifts(ms, n, a);
        FirstAnswerShifts(ms, n, a, i);
      }
      if a: nat :| a < n + i && FullyAnswered(ms, a) && FirstAnswerTo(ms, a, n + i) {
        assert a < n ==> InRun(ms, a, n);
        FullyAnsweredShifts(ms, n, a - n);
        FirstAnswerShifts(ms, n, a - n, i);
      }
    }
  }

  lemma MarksShift(ms: seq<Message>, n: nat)
    requires Boundary(ms, n)
    ensures Marks(ms[n..]) == Marks(ms)[n..]
  {
    forall i | 0 <= i < |ms| - n
      ensures Marks(ms[n..])[i] == Marks(ms)[n + i]
    {
      KeptShifts(ms, n, i);
    }
  }

  lemma {:induction false} MarkedShifts(ms: seq<Message>, marks: seq<bool>, n: nat, i: nat)
    requires |marks| == |ms| && n + i <= |ms|
    ensures Marked(ms[n..], marks[n..], i) == Marked(ms, marks, n + i)
    decreases |ms| - i
  {
    if n + i < |ms| {
      MarkedShifts(ms, marks, n, i + 1);
      assert ms[n..][i] == ms[n + i] && marks[n..][i] == marks[n + i];
    }
  }

  lemma KeptFromShifts(ms: seq<Message>, n: nat)
    requires Boundary(ms, n)
    ensures KeptFrom(ms[n..], 0) == KeptFrom(ms, n)
  {
    MarksShift(ms, n);
    MarkedShifts(ms, Marks(ms), n, 0);
  }

  /**
   Sanitising keeps, in order, exactly: every message that is neither a tool message nor a tool
   call; every tool-calling assistant all of whose calls are answered in the run of tool messages
   right after it; and of that run the first answer to each call.
   */
  lemma {:induction false} SanitizeKeepsExactly(ms: seq<Message>)
    ensures Sanitize(ms) == KeptFrom(ms, 0)
    decreases |ms|
  {
    if ms != [] {
      var n := Taken(ms);
      TakenIsBoundary(ms);
      SanitizeKeepsExactly(ms[n..]);
      KeptFromShifts(ms, n);
      KeptOfFirst(ms);
      FlattenAppend(FirstGroup(ms), Groups(ms[n..]));
    }
  }

  /** `part` is a subsequence of `ms` from `i` on: `at` gives a rising position for each message. */
  predicate Positions(ms: seq<Message>, i: nat, part: seq<Message>, at: seq<nat>) {
    && |at| == |part|
    && (forall k | 0 <= k < |at| :: i <= at[k] < |ms| && part[k] == ms[at[k]])
    && (forall j, k | 0 <= j < k < |at| :: at[j] < at[k])
  }

  lemma OneMorePosition(ms: seq<Message>, i: nat, part: seq<Message>, at: seq<nat>)
    requires i < |ms| && Positions(ms, i + 1, part, at)
    ensures Positions(ms, i, part, at) && Positions(ms, i, [ms[i]] + part, [i] + at)
  {
  }

  /** The kept messages are a subsequence. */
  lemma KeptIsSubsequence(ms: seq<Message>) returns (at: seq<nat>)
    ensures Positions(ms, 0, KeptFrom(ms, 0), at)
  {
    at := MarkedIsSubsequence(ms, Marks(ms), 0);
  }

  lemma {:induction false} MarkedIsSubsequence(ms: seq<Message>, marks: seq<bool>, i: nat) returns (at: seq<nat>)
    requires |marks| == |ms| && i <= |ms|
    ensures Positions(ms, i, Marked(ms, marks, i), at)
    decreases |ms| - i
  {
    if i == |ms| {
      at := [];
    } else {
      var rest := MarkedIsSubsequence(ms, marks, i + 1);
      OneMorePosition(ms, i, Marked(ms, marks, i + 1), rest);
      at := if marks[i] then [i] + rest else rest;
    }
  }
}
