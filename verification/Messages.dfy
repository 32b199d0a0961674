/**
 Chat messages and their grouping at tool-call boundaries
 (packages/web-buddy/src/context/compaction-pipeline.ts:241-243, 360-391).
 `ref` is the identity of the message object; `NO_CALL` stands for an empty or missing call id.
 */
module Messages {
  type CallId = nat

  const NO_CALL: CallId := 0

  datatype Role = SystemRole | UserRole | AssistantRole | ToolRole

  datatype Message = Message(
    ref: nat, role: Role, content: string, name: string,
    toolCallIds: seq<CallId>, toolCallId: CallId)

  predicate CallsTools(m: Message) {
    m.role == AssistantRole && m.toolCallIds != []
  }

  function IdSet(ids: seq<CallId>): set<CallId> {
    set x | x in ids
  }

  // ---------------------------------------------------------------- grouping

  /** Number of tool messages at the start. */
  function ToolRun(ms: seq<Message>): (n: nat)
    ensures n <= |ms| && (forall k | 0 <= k < n :: ms[k].role == ToolRole) && (n < |ms| ==> ms[n].role != ToolRole)
  {
    if ms == [] || ms[0].role != ToolRole then 0 else 1 + ToolRun(ms[1..])
  }

  predicate Answers(m: Message, expected: set<CallId>) {
    m.toolCallId != NO_CALL && m.toolCallId in expected
  }

  /** Of a run of tool messages, the first answer to each expected call. */
  function Picked(run: seq<Message>, expected: set<CallId>): seq<Message> {
    if run == [] then []
    else if Answers(run[0], expected) then [run[0]] + Picked(run[1..], expected - {run[0].toolCallId})
    else Picked(run[1..], expected)
  }

  /** The calls that no message of the run answers. */
  function Unanswered(run: seq<Message>, expected: set<CallId>): set<CallId> {
    if run == [] then expected
    else if Answers(run[0], expected) then Unanswered(run[1..], expected - {run[0].toolCallId})
    else Unanswered(run[1..], expected)
  }

  /** How many messages grouping consumes at the start: a message, with its tool messages if it calls tools. */
  function Taken(ms: seq<Message>): (n: nat)
    requires ms != []
    ensures 0 < n <= |ms|
  {
    if CallsTools(ms[0]) then 1 + ToolRun(ms[1..]) else 1
  }

  /** The group they make, if any. */
  function FirstGroup(ms: seq<Message>): seq<seq<Message>>
    requires ms != []
  {
    if ms[0].role == ToolRole then []
    else if CallsTools(ms[0]) then
      var run, expected := ms[1..Taken(ms)], IdSet(ms[0].toolCallIds);
      if Unanswered(run, expected) == {} then [[ms[0]] + Picked(run, expected)] else []
    else [[ms[0]]]
  }

  /** `messageBoundaryGroups`. */
  function Groups(ms: seq<Message>): seq<seq<Message>>
    decreases |ms|
  {
    if ms == [] then [] else FirstGroup(ms) + Groups(ms[Taken(ms)..])
  }

  function Flatten(gs: seq<seq<Message>>): seq<Message> {
    if gs == [] then [] else gs[0] + Flatten(gs[1..])
  }

  /** `sanitizeMessageBoundary`. */
  function Sanitize(ms: seq<Message>): seq<Message> {
    Flatten(Groups(ms))
  }

  /** The inner loop: the answers in the run that starts at `from`, and what stays unanswered. */
  method CollectGroup(messages: seq<Message>, index: nat) returns (group: seq<Message>, complete: bool, cursor: nat)
    requires index < |messages|
    ensures cursor == index + 1 + ToolRun(messages[index + 1..])
    ensures
      var run := messages[index + 1..cursor];
      var expected := IdSet(messages[index].toolCallIds);
      group == [messages[index]] + Picked(run, expected) && (complete <==> Unanswered(run, expected) == {})
  {
    var expected := IdSet(messages[index].toolCallIds);
    ghost var all := expected;
    group := [messages[index]];
    cursor := index + 1;
    ghost var last := index + 1 + ToolRun(messages[index + 1..]);
    RunBounds(messages, index);
    while cursor < |messages| && messages[cursor].role == ToolRole
      invariant index + 1 <= cursor <= last
      invariant group + Picked(messages[cursor..last], expected)
             == [messages[index]] + Picked(messages[index + 1..last], all)
      invariant Unanswered(messages[cursor..last], expected) == Unanswered(messages[index + 1..last], all)
    {
      var toolMessage := messages[cursor];
      assert messages[cursor..last][0] == toolMessage && messages[cursor..last][1..] == messages[cursor + 1..last];
      if toolMessage.toolCallId != NO_CALL && toolMessage.toolCallId in expected {
        group := group + [toolMessage];
        expected := expected - {toolMessage.toolCallId};
      }
      cursor := cursor + 1;
    }
    complete := expected == {};
  }

  lemma RunBounds(messages: seq<Message>, index: nat)
    requires index < |messages|
    ensures
      var last := index + 1 + ToolRun(messages[index + 1..]);
      && last <= |messages| && (forall k | index < k < last :: messages[k].role == ToolRole)
      && (last < |messages| ==> messages[last].role != ToolRole)
  {
    var rest := messages[index + 1..];
    assert forall k | index < k < |messages| :: messages[k] == rest[k - index - 1];
  }

  /** What grouping does with the message at `index`. */
  lemma FirstGroupAt(messages: seq<Message>, index: nat)
    requires index < |messages|
    ensures
      var m := messages[index];
      var last := index + 1 + ToolRun(messages[index + 1..]);
      var run := messages[index + 1..last];
      && last <= |messages|
      && Taken(messages[index..]) == (if CallsTools(m) then last - index else 1)
      && (m.role == ToolRole ==> FirstGroup(messages[index..]) == [])
      && (CallsTools(m) && Unanswered(run, IdSet(m.toolCallIds)) != {} ==> FirstGroup(messages[index..]) == [])
      && (CallsTools(m) && Unanswered(run, IdSet(m.toolCallIds)) == {} ==>
            FirstGroup(messages[index..]) == [[m] + Picked(run, IdSet(m.toolCallIds))])
      && (m.role != ToolRole && !CallsTools(m) ==> FirstGroup(messages[index..]) == [[m]])
  {
    var rest := messages[index..];
    var n := ToolRun(messages[index + 1..]);
    assert rest[0] == messages[index] && rest[1..] == messages[index + 1..];
    assert rest[1..1 + n] == messages[index + 1..index + 1 + n];
  }

  /** The groups found before `index`, with those still to be found, are all the groups. */
  predicate FoundBefore(messages: seq<Message>, index: nat, groups: seq<seq<Message>>) {
    index <= |messages| && groups + Groups(messages[index..]) == Groups(messages)
  }

  lemma FoundAtEnds(messages: seq<Message>, groups: seq<seq<Message>>)
    ensures FoundBefore(messages, 0, [])
    ensures FoundBefore(messages, |messages|, groups) <==> groups == Groups(messages)
  {
    assert messages[0..] == messages;
    assert [] + Groups(messages) == Groups(messages);
    assert groups + Groups(messages[|messages|..]) == groups;
  }

  /** One round of the outer loop. */
  lemma GroupsAdvance(messages: seq<Message>, index: nat, groups: seq<seq<Message>>, found: seq<seq<Message>>,
                      next: nat)
    requires index < |messages| && FoundBefore(messages, index, groups)
    requires found == FirstGroup(messages[index..]) && next == index + Taken(messages[index..])
    ensures FoundBefore(messages, next, groups + found)
  {
    var rest := messages[index..];
    assert rest[Taken(rest)..] == messages[index + Taken(rest)..];
    Associative(groups, FirstGroup(rest), Groups(rest[Taken(rest)..]));
  }

  lemma Associative<T>(a: seq<T>, b: seq<T>, c: seq<T>)
    ensures (a + b) + c == a + (b + c)
  {
  }

  /** The body of the outer loop: the group found at `index`, if any, and where to go on. */
  method NextGroup(messages: seq<Message>, index: nat) returns (found: seq<seq<Message>>, next: nat)
    requires index < |messages|
    ensures found == FirstGroup(messages[index..]) && next == index + Taken(messages[index..])
  {
    FirstGroupAt(messages, index);
    found, next := [], index + 1;
    if messages[index].role == ToolRole {
      return;
    }
    if CallsTools(messages[index]) {
      var group, complete, cursor := CollectGroup(messages, index);
      if complete { found := [group]; }
      next := cursor;
    } else {
      found := [[messages[index]]];
    }
  }

  /** The outer loop. */
  method MessageBoundaryGroups(messages: seq<Message>) returns (groups: seq<seq<Message>>)
    ensures groups == Groups(messages)
  {
    groups := [];
    var index := 0;
    FoundAtEnds(messages, []);
    while index < |messages|
      invariant FoundBefore(messages, index, groups)
    {
      var found, next := NextGroup(messages, index);
      GroupsAdvance(messages, index, groups, found, next);
      groups := groups + found;
      index := next;
    }
    FoundAtEnds(messages, groups);
  }

  method SanitizeMessageBoundary(messages: seq<Message>) returns (r: seq<Message>)
    ensures r == Sanitize(messages)
  {
    var groups := MessageBoundaryGroups(messages);
    r := Flatten(groups);
  }

  // ---------------------------------------------------------------- what a group is

  /** A plain message alone, or a tool-calling assistant with exactly one answer per call. */
  ghost predicate Whole(g: seq<Message>) {
    && g != [] && g[0].role != ToolRole
    && (if CallsTools(g[0]) then
          && (forall k | 0 < k < |g| :: g[k].role == ToolRole && Answers(g[k], IdSet(g[0].toolCallIds)))
          && (forall j, k | 0 < j < k < |g| :: g[j].toolCallId != g[k].toolCallId)
          && (forall x | x in g[0].toolCallIds :: exists k :: 0 < k < |g| && g[k].toolCallId == x)
        else |g| == 1)
  }

  ghost predicate AllWhole(gs: seq<seq<Message>>) {
    forall i | 0 <= i < |gs| :: Whole(gs[i])
  }

  lemma {:induction false} PickedMembers(run: seq<Message>, expected: set<CallId>)
    requires forall k | 0 <= k < |run| :: run[k].role == ToolRole
    ensures forall m | m in Picked(run, expected) :: m.role == ToolRole && Answers(m, expected)
  {
    if run != [] {
      assert forall k | 0 <= k < |run[1..]| :: run[1..][k] == run[k + 1];
      if Answers(run[0], expected) {
        PickedMembers(run[1..], expected - {run[0].toolCallId});
      } else {
        PickedMembers(run[1..], expected);
      }
    }
  }

  /** No two messages answer the same call. */
  ghost predicate OneAnswerEach(p: seq<Message>) {
    forall j, k | 0 <= j < k < |p| :: p[j].toolCallId != p[k].toolCallId
  }

  lemma OneMoreAnswer(m: Message, p: seq<Message>)
    requires OneAnswerEach(p) && forall k | 0 <= k < |p| :: p[k].toolCallId != m.toolCallId
    ensures OneAnswerEach([m] + p)
  {
    var q := [m] + p;
    assert forall k | 0 < k < |q| :: q[k] == p[k - 1];
  }

  lemma {:induction false} PickedOnce(run: seq<Message>, expected: set<CallId>)
    requires forall k | 0 <= k < |run| :: run[k].role == ToolRole
    ensures OneAnswerEach(Picked(run, expected))
  {
    if run != [] {
      assert forall k | 0 <= k < |run[1..]| :: run[1..][k] == run[k + 1];
      if Answers(run[0], expected) {
        var fewer := expected - {run[0].toolCallId};
        PickedOnce(run[1..], fewer);
        PickedMembers(run[1..], fewer);
        var q := Picked(run[1..], fewer);
        forall k | 0 <= k < |q|
          ensures q[k].toolCallId != run[0].toolCallId
        {
          assert q[k] in q;
        }
        OneMoreAnswer(run[0], q);
      } else {
        PickedOnce(run[1..], expected);
      }
    }
  }

  lemma {:induction false} UnansweredExactly(run: seq<Message>, expected: set<CallId>, x: CallId)
    ensures x in Unanswered(run, expected) <==> x in expected && forall m | m in Picked(run, expected) ::
              m.toolCallId != x
  {
    if run != [] {
      if Answers(run[0], expected) {
        var fewer := expected - {run[0].toolCallId};
        UnansweredExactly(run[1..], fewer, x);
        assert forall m :: m in Picked(run, expected) <==> m == run[0] || m in Picked(run[1..], fewer);
      } else {
        UnansweredExactly(run[1..], expected, x);
      }
    }
  }

  lemma PickedAnswers(run: seq<Message>, expected: set<CallId>)
    requires forall k | 0 <= k < |run| :: run[k].role == ToolRole
    ensures
      var p := Picked(run, expected);
      && (forall k | 0 <= k < |p| :: p[k].role == ToolRole && Answers(p[k], expected))
      && OneAnswerEach(p)
      && (forall x :: x in Unanswered(run, expected) <==>
            x in expected && forall k | 0 <= k < |p| :: p[k].toolCallId != x)
  {
    PickedMembers(run, expected);
    PickedOnce(run, expected);
    var p := Picked(run, expected);
    assert forall k | 0 <= k < |p| :: p[k] in p;
    forall x
      ensures x in Unanswered(run, expected) <==> x in expected && forall k | 0 <= k < |p| :: p[k].toolCallId != x
    {
      UnansweredExactly(run, expected, x);
    }
  }

  lemma FirstGroupIsWhole(ms: seq<Message>)
    requires ms != []
    ensures AllWhole(FirstGroup(ms))
  {
    if CallsTools(ms[0]) {
      PickedIsWhole(ms[0], ms[1..Taken(ms)]);
    }
  }

  /** Every group is whole: tool messages stay with their assistant, and every call of it is answered. */
  lemma {:induction false} GroupsAreWhole(ms: seq<Message>)
    ensures AllWhole(Groups(ms))
    decreases |ms|
  {
    if ms != [] {
      FirstGroupIsWhole(ms);
      GroupsAreWhole(ms[Taken(ms)..]);
    }
  }

  lemma PickedIsWhole(m: Message, run: seq<Message>)
    requires CallsTools(m) && forall k | 0 <= k < |run| :: run[k].role == ToolRole
    ensures Unanswered(run, IdSet(m.toolCallIds)) == {} ==> Whole([m] + Picked(run, IdSet(m.toolCallIds)))
  {
    var expected := IdSet(m.toolCallIds);
    PickedAnswers(run, expected);
    var p := Picked(run, expected);
    var g := [m] + p;
    if Unanswered(run, expected) == {} {
      forall x | x in m.toolCallIds
        ensures exists k :: 0 < k < |g| && g[k].toolCallId == x
      {
        assert x !in Unanswered(run, expected);
        var k :| 0 <= k < |p| && p[k].toolCallId == x;
        assert g[k + 1] == p[k];
      }
    }
  }

  // ---------------------------------------------------------------- grouping is stable

  lemma {:induction false} PickedKeepsAnswers(run: seq<Message>, expected: set<CallId>)
    requires forall k | 0 <= k < |run| :: Answers(run[k], expected)
    requires forall j, k | 0 <= j < k < |run| :: run[j].toolCallId != run[k].toolCallId
    ensures Picked(run, expected) == run
  {
    if run != [] {
      forall k | 0 <= k < |run[1..]|
        ensures Answers(run[1..][k], expected - {run[0].toolCallId})
      {
        assert run[1..][k] == run[k + 1];
      }
      PickedKeepsAnswers(run[1..], expected - {run[0].toolCallId});
      assert run == [run[0]] + run[1..];
    }
  }

  lemma {:induction false} ToolRunOf(run: seq<Message>, rest: seq<Message>)
    requires forall k | 0 <= k < |run| :: run[k].role == ToolRole
    requires rest != [] ==> rest[0].role != ToolRole
    ensures ToolRun(run + rest) == |run|
  {
    if run == [] {
      assert run + rest == rest;
    } else {
      assert (run + rest)[1..] == run[1..] + rest;
      ToolRunOf(run[1..], rest);
    }
  }

  /** A whole group in front, not followed by more tool messages, is found again as it is. */
  lemma WholeGroupFirst(g: seq<Message>, rest: seq<Message>)
    requires Whole(g) && (rest != [] ==> rest[0].role != ToolRole)
    ensures Taken(g + rest) == |g| && FirstGroup(g + rest) == [g]
  {
    FrontSlices(g, rest);
    if CallsTools(g[0]) {
      var run := g[1..];
      ToolRunOf(run, rest);
      assert forall k | 0 <= k < |run| :: run[k] == g[k + 1];
      PickedKeepsAnswers(run, IdSet(g[0].toolCallIds));
      AllAnswered(g);
    }
  }

  lemma FrontSlices<T>(g: seq<T>, rest: seq<T>)
    requires g != []
    ensures (g + rest)[0] == g[0] && (g + rest)[1..] == g[1..] + rest && (g + rest)[1..|g|] == g[1..]
    ensures [g[0]] + g[1..] == g
    ensures |g| == 1 ==> g[1..] + rest == rest && [g[0]] == g
  {
  }

  lemma AllAnswered(g: seq<Message>)
    requires Whole(g) && CallsTools(g[0])
    ensures Unanswered(g[1..], IdSet(g[0].toolCallIds)) == {}
  {
    var run := g[1..];
    var expected := IdSet(g[0].toolCallIds);
    assert forall k | 0 <= k < |run| :: run[k] == g[k + 1];
    PickedAnswers(run, expected);
    PickedKeepsAnswers(run, expected);
    forall x | x in expected
      ensures x !in Unanswered(run, expected)
    {
      var k :| 0 < k < |g| && g[k].toolCallId == x;
      assert run[k - 1] == g[k];
    }
    assert Unanswered(run, expected) <= expected;
  }

  lemma FlattenStart(gs: seq<seq<Message>>)
    requires AllWhole(gs)
    ensures Flatten(gs) != [] ==> Flatten(gs)[0].role != ToolRole
  {
  }

  lemma OneGroupMore(g: seq<Message>, rest: seq<Message>)
    requires Whole(g) && (rest != [] ==> rest[0].role != ToolRole)
    ensures Groups(g + rest) == [g] + Groups(rest)
  {
    WholeGroupFirst(g, rest);
    assert (g + rest)[|g|..] == rest;
  }

  /** Grouping the messages of whole groups gives exactly those groups back. */
  lemma {:induction false} GroupsOfFlatten(gs: seq<seq<Message>>)
    requires AllWhole(gs)
    ensures Groups(Flatten(gs)) == gs
  {
    if gs != [] {
      assert AllWhole(gs[1..]) by {
        assert forall i | 0 <= i < |gs[1..]| :: gs[1..][i] == gs[i + 1];
      }
      GroupsOfFlatten(gs[1..]);
      FlattenStart(gs[1..]);
      OneGroupMore(gs[0], Flatten(gs[1..]));
      assert [gs[0]] + gs[1..] == gs;
    }
  }

  /** Sanitising twice is sanitising once. */
  lemma SanitizeIsIdempotent(ms: seq<Message>)
    ensures Sanitize(Sanitize(ms)) == Sanitize(ms)
  {
    GroupsAreWhole(ms);
    GroupsOfFlatten(Groups(ms));
  }

  /** Any suffix of the groups is left alone by sanitising. */
  lemma SuffixIsStable(ms: seq<Message>, k: nat)
    requires k <= |Groups(ms)|
    ensures Sanitize(Flatten(Groups(ms)[k..])) == Flatten(Groups(ms)[k..])
  {
    GroupsAreWhole(ms);
    var gs := Groups(ms)[k..];
    assert AllWhole(gs) by {
      assert forall i | 0 <= i < |gs| :: gs[i] == Groups(ms)[k + i];
    }
    GroupsOfFlatten(gs);
  }

  lemma {:induction false} FlattenAppend(gs: seq<seq<Message>>, hs: seq<seq<Message>>)
    ensures Flatten(gs + hs) == Flatten(gs) + Flatten(hs)
  {
    if gs == [] {
      assert gs + hs == hs;
    } else {
      assert (gs + hs)[1..] == gs[1..] + hs;
      FlattenAppend(gs[1..], hs);
    }
  }

  lemma {:induction false} ToolRunExtends(a: seq<Message>, b: seq<Message>)
    requires b != [] ==> b[0].role != ToolRole
    ensures ToolRun(a + b) == ToolRun(a)
  {
    if a == [] {
      assert a + b == b;
    } else if a[0].role == ToolRole {
      assert (a + b)[1..] == a[1..] + b;
      ToolRunExtends(a[1..], b);
    }
  }

  lemma FirstGroupExtends(a: seq<Message>, b: seq<Message>)
    requires a != [] && (b != [] ==> b[0].role != ToolRole)
    ensures Taken(a + b) == Taken(a) && FirstGroup(a + b) == FirstGroup(a)
  {
    assert (a + b)[1..] == a[1..] + b;
    ToolRunExtends(a[1..], b);
    assert (a + b)[1..Taken(a)] == a[1..Taken(a)];
  }

  /** Grouping splits at every message that is not a tool result. */
  lemma {:induction false} GroupsSplit(a: seq<Message>, b: seq<Message>)
    requires b != [] ==> b[0].role != ToolRole
    ensures Groups(a + b) == Groups(a) + Groups(b)
    decreases |a|
  {
    if a == [] {
      assert a + b == b;
    } else {
      FirstGroupExtends(a, b);
      var n := Taken(a);
      assert (a + b)[n..] == a[n..] + b;
      GroupsSplit(a[n..], b);
      Associative(FirstGroup(a), Groups(a[n..]), Groups(b));
    }
  }

  lemma SanitizeSplits(a: seq<Message>, b: seq<Message>)
    requires b != [] ==> b[0].role != ToolRole
    ensures Sanitize(a + b) == Sanitize(a) + Sanitize(b)
  {
    GroupsSplit(a, b);
    FlattenAppend(Groups(a), Groups(b));
  }
}
