/**
 The raw tail that survives full compaction
 (packages/web-buddy/src/context/compaction-pipeline.ts:245-358, 392-406). `cost` is the token
 estimate of one message; the estimate of a list is the sum over its messages.
 */
module Compaction {
  import opened Wrappers
  import opened Sorting
  import opened Messages
  import opened BoundaryLaws

  const COMPACTED_RUN_CONTEXT_PREFIX := "COMPACTED_RUN_CONTEXT"
  const DEFAULT_KEEP_RECENT_MESSAGES := 6
  const DEFAULT_RECENT_RAW_TOKEN_RATIO := 0.2

  datatype Options = Options(
    keepRecentMessages: Option<Number>, maxInputTokens: Option<Number>, recentRawTokenRatio: Option<Number>)

  datatype RecentSelection = RecentSelection(
    messages: seq<Message>, history: seq<Message>,
    sourceMessageCount: nat, sourceTokens: nat, retainedTokens: nat, compactedHistoryTokens: nat)

  function Filter<T>(p: T -> bool, s: seq<T>): seq<T> {
    if s == [] then [] else if p(s[0]) then [s[0]] + Filter(p, s[1..]) else Filter(p, s[1..])
  }

  predicate IsCompactedRunContext(m: Message) {
    m.role == UserRole && COMPACTED_RUN_CONTEXT_PREFIX <= m.content
  }

  predicate InSource(m: Message) {
    m.role != SystemRole
  }

  predicate InTail(m: Message) {
    m.role != SystemRole && !IsCompactedRunContext(m)
  }

  function Tokens(cost: Message -> nat, ms: seq<Message>): nat {
    if ms == [] then 0 else cost(ms[0]) + Tokens(cost, ms[1..])
  }

  function NormalizeKeep(value: Number): nat {
    match value
    case NotFinite => DEFAULT_KEEP_RECENT_MESSAGES
    case Finite(v) => if v.Floor < 0 then 0 else v.Floor
  }

  function NormalizeRatio(value: Option<Number>): real {
    match value
    case Some(Finite(v)) => if 0.0 < v < 1.0 then v else DEFAULT_RECENT_RAW_TOKEN_RATIO
    case _ => DEFAULT_RECENT_RAW_TOKEN_RATIO
  }

  function TargetTokens(maxInputTokens: real, ratio: real): int {
    var product := (maxInputTokens * ratio).Floor;
    if product < 1 then 1 else product
  }

  // ---------------------------------------------------------------- the two tails

  /** `start` begins the longest run of last groups that fits `target`, or the last group if none fits. */
  ghost predicate TokenTail(cost: Message -> nat, groups: seq<seq<Message>>, target: int, start: nat) {
    && start <= |groups|
    && (groups != [] ==> start < |groups|)
    && (|groups| - start > 1 ==> Tokens(cost, Flatten(groups[start..])) <= target)
    && (forall j | 0 <= j < start :: Tokens(cost, Flatten(groups[j..])) > target)
  }

  /** `start` begins the shortest run of last groups with at least `keep` messages, or all of them. */
  ghost predicate CountTail(groups: seq<seq<Message>>, keep: nat, start: nat) {
    && start <= |groups|
    && (start == 0 || |Flatten(groups[start..])| >= keep)
    && (start < |groups| ==> |Flatten(groups[start + 1..])| < keep)
  }

  method TokenBudgetedTail(cost: Message -> nat, groups: seq<seq<Message>>, targetTokens: int)
      returns (selected: seq<seq<Message>>, start: nat)
    ensures TokenTail(cost, groups, targetTokens, start) && selected == groups[start..]
  {
    selected := [];
    start := |groups|;
    var retainedTokens := 0;
    while start > 0
      invariant start <= |groups| && selected == groups[start..]
      invariant retainedTokens == Tokens(cost, Flatten(selected))
      invariant |selected| > 1 ==> retainedTokens <= targetTokens
    {
      var group := groups[start - 1];
      var groupTokens := Tokens(cost, group);
      TailGrows(cost, groups, start - 1);
      if |selected| > 0 && retainedTokens + groupTokens > targetTokens {
        EarlierTailsCostMore(cost, groups, start - 1, targetTokens);
        break;
      }
      selected := [group] + selected;
      retainedTokens := retainedTokens + groupTokens;
      start := start - 1;
    }
  }

  method BoundedMessageTail(messages: seq<Message>, keep: nat) returns (retained: seq<Message>, ghost start: nat)
    ensures CountTail(Groups(messages), keep, start) && retained == Flatten(Groups(messages)[start..])
  {
    var groups := MessageBoundaryGroups(messages);
    var selected: seq<seq<Message>> := [];
    var selectedCount := 0;
    var index: nat := |groups|;
    while index > 0 && selectedCount < keep
      invariant index <= |groups| && selected == groups[index..]
      invariant selectedCount == |Flatten(selected)|
      invariant index < |groups| ==> |Flatten(groups[index + 1..])| < keep
    {
      index := index - 1;
      assert groups[index..][1..] == groups[index + 1..];
      selected := [groups[index]] + selected;
      selectedCount := selectedCount + |groups[index]|;
    }
    start := index;
    SuffixIsStable(messages, start);
    retained := SanitizeMessageBoundary(Flatten(selected));
  }

  lemma {:induction false} TokensAppend(cost: Message -> nat, a: seq<Message>, b: seq<Message>)
    ensures Tokens(cost, a + b) == Tokens(cost, a) + Tokens(cost, b)
  {
    if a == [] {
      assert a + b == b;
    } else {
      assert (a + b)[1..] == a[1..] + b;
      TokensAppend(cost, a[1..], b);
    }
  }

  lemma TailGrows(cost: Message -> nat, groups: seq<seq<Message>>, j: nat)
    requires j < |groups|
    ensures [groups[j]] + groups[j + 1..] == groups[j..]
    ensures Tokens(cost, Flatten(groups[j..])) == Tokens(cost, groups[j]) + Tokens(cost, Flatten(groups[j + 1..]))
  {
    assert groups[j..][1..] == groups[j + 1..];
    TokensAppend(cost, groups[j], Flatten(groups[j + 1..]));
  }

  lemma {:induction false} LongerTailCostsMore(cost: Message -> nat, groups: seq<seq<Message>>, i: nat, j: nat)
    requires i <= j <= |groups|
    ensures Tokens(cost, Flatten(groups[i..])) >= Tokens(cost, Flatten(groups[j..]))
    decreases j - i
  {
    if i < j {
      TailGrows(cost, groups, i);
      LongerTailCostsMore(cost, groups, i + 1, j);
    }
  }

  lemma EarlierTailsCostMore(cost: Message -> nat, groups: seq<seq<Message>>, j: nat, target: int)
    requires j < |groups| && Tokens(cost, Flatten(groups[j..])) > target
    ensures forall i | 0 <= i <= j :: Tokens(cost, Flatten(groups[i..])) > target
  {
    forall i | 0 <= i <= j
      ensures Tokens(cost, Flatten(groups[i..])) > target
    {
      LongerTailCostsMore(cost, groups, i, j);
    }
  }

  lemma OverBudget(cost: Message -> nat, groups: seq<seq<Message>>, target: int, a: nat, b: nat)
    requires a < b && TokenTail(cost, groups, target, b)
    ensures !TokenTail(cost, groups, target, a)
  {
    assert Tokens(cost, Flatten(groups[a..])) > target;
  }

  /** The token tail is unique. */
  lemma TokenTailIsUnique(cost: Message -> nat, groups: seq<seq<Message>>, target: int, a: nat, b: nat)
    requires TokenTail(cost, groups, target, a) && TokenTail(cost, groups, target, b)
    ensures a == b
  {
    if a < b {
      OverBudget(cost, groups, target, a, b);
    } else if b < a {
      OverBudget(cost, groups, target, b, a);
    }
  }

  /** The count tail keeps at least the asked number, and less than that without its oldest group. */
  lemma CountTailBounds(messages: seq<Message>, keep: nat, start: nat)
    requires CountTail(Groups(messages), keep, start)
    ensures
      var retained := Flatten(Groups(messages)[start..]);
      && |retained| >= (if keep <= |Sanitize(messages)| then keep else |Sanitize(messages)|)
      && (start < |Groups(messages)| ==> |retained| < keep + |Groups(messages)[start]|)
  {
    var groups := Groups(messages);
    assert groups[0..] == groups;
    if start < |groups| {
      assert groups[start..][1..] == groups[start + 1..];
    }
  }

  // ---------------------------------------------------------------- history and retained

  /** `recentMessageSelection`. */
  method RecentMessageSelection(cost: Message -> nat, messages: seq<Message>, selected: seq<Message>)
    returns (r: RecentSelection)
    ensures r == Selection(cost, messages, selected)
  {
    var retained := SanitizeMessageBoundary(selected);
    var source := Filter(InSource, messages);
    var history := SanitizeMessageBoundary(Filter(NotIn(retained), source));
    r := RecentSelection(retained, history, |source|, Tokens(cost, source), Tokens(cost, retained),
                         Tokens(cost, history));
  }

  function NotIn(retained: seq<Message>): Message -> bool {
    (m: Message) => m !in retained
  }

  function Selection(cost: Message -> nat, messages: seq<Message>, selected: seq<Message>): RecentSelection {
    var retained := Sanitize(selected);
    var source := Filter(InSource, messages);
    var history := Sanitize(Filter(NotIn(retained), source));
    RecentSelection(retained, history, |source|, Tokens(cost, source), Tokens(cost, retained), Tokens(cost, history))
  }

  /** At least one token, and otherwise the whole tokens of the share of the window: the ratio, or a fifth. */
  ghost predicate TargetOf(maxInputTokens: real, ratio: Option<Number>, target: int) {
    var given := ratio.Some? && ratio.value.Finite? && 0.0 < ratio.value.value < 1.0;
    var share := if given then maxInputTokens * ratio.value.value else maxInputTokens / 5.0;
    target >= 1 && if share < 1.0 then target == 1 else target as real <= share < target as real + 1.0
  }

  /** The whole messages asked for: six for a number that is not finite, none for a negative one. */
  ghost predicate KeepOf(asked: Number, keep: nat) {
    match asked
    case NotFinite => keep == 6
    case Finite(v) => if v < 0.0 then keep == 0 else keep as real <= v < keep as real + 1.0
  }

  lemma TargetIsShare(max: real, ratio: Option<Number>)
    ensures TargetOf(max, ratio, TargetTokens(max, NormalizeRatio(ratio)))
  {
    assert max * 0.2 == max / 5.0;
  }

  lemma KeepIsWhole(asked: Number)
    ensures KeepOf(asked, NormalizeKeep(asked))
  {
  }

  /** A positive window is given. */
  predicate Windowed(options: Options) {
    options.maxInputTokens.Some? && options.maxInputTokens.value.Finite? && options.maxInputTokens.value.value > 0.0
  }

  /** The tail `recentMessagesForCompaction` keeps, as the group it begins with. */
  ghost predicate ChosenTail(cost: Message -> nat, groups: seq<seq<Message>>, options: Options, start: nat) {
    match options.keepRecentMessages
    case Some(n) => exists keep :: KeepOf(n, keep) && CountTail(groups, keep, start)
    case None =>
      if Windowed(options) then
        exists target ::
          && TargetOf(options.maxInputTokens.value.value, options.recentRawTokenRatio, target)
          && TokenTail(cost, groups, target, start)
      else CountTail(groups, 6, start)
  }

  /** Neither system messages nor the checkpoints of earlier compactions are kept raw. */
  lemma Candidates(messages: seq<Message>, m: Message)
    ensures m in Filter(InTail, messages)
       <==> && m in messages && m.role != SystemRole
            && !(m.role == UserRole && "COMPACTED_RUN_CONTEXT" <= m.content)
  {
    FilterMembers(InTail, messages, m);
  }

  method RecentMessagesForCompaction(cost: Message -> nat, messages: seq<Message>, options: Options)
      returns (r: RecentSelection, ghost start: nat)
    ensures ChosenTail(cost, Groups(Filter(InTail, messages)), options, start)
    ensures start <= |Groups(Filter(InTail, messages))|
    ensures r == Selection(cost, messages, Flatten(Groups(Filter(InTail, messages))[start..]))
  {
    var candidates := Filter(InTail, messages);
    var selected: seq<Message> := [];
    match options.keepRecentMessages {
      case Some(n) =>
        var keep := NormalizeKeep(n);
        KeepIsWhole(n);
        if keep == 0 {
          start := |Groups(candidates)|;
        } else {
          selected, start := BoundedMessageTail(candidates, keep);
        }
      case None =>
        match options.maxInputTokens {
          case Some(Finite(max)) =>
            if max > 0.0 {
              var groups := MessageBoundaryGroups(candidates);
              TargetIsShare(max, options.recentRawTokenRatio);
              var tail, first := TokenBudgetedTail(cost, groups,
                                                   TargetTokens(max, NormalizeRatio(options.recentRawTokenRatio)));
              SuffixIsStable(candidates, first);
              selected := SanitizeMessageBoundary(Flatten(tail));
              start := first;
            } else {
              selected, start := BoundedMessageTail(candidates, DEFAULT_KEEP_RECENT_MESSAGES);
            }
          case _ =>
            selected, start := BoundedMessageTail(candidates, DEFAULT_KEEP_RECENT_MESSAGES);
        }
    }
    r := RecentMessageSelection(cost, messages, selected);
  }

  // ---------------------------------------------------------------- nothing is lost or kept twice

  lemma {:induction false} FilterMembers<T>(p: T -> bool, s: seq<T>, x: T)
    ensures x in Filter(p, s) <==> x in s && p(x)
  {
    if s != [] {
      FilterMembers(p, s[1..], x);
      assert x in s <==> x == s[0] || x in s[1..];
    }
  }

  lemma {:induction false} FilterAppend<T>(p: T -> bool, a: seq<T>, b: seq<T>)
    ensures Filter(p, a + b) == Filter(p, a) + Filter(p, b)
  {
    if a == [] {
      assert a + b == b;
    } else {
      assert (a + b)[1..] == a[1..] + b;
      FilterAppend(p, a[1..], b);
    }
  }

  lemma {:induction false} FilterAll<T>(p: T -> bool, s: seq<T>)
    requires forall x | x in s :: p(x)
    ensures Filter(p, s) == s
  {
    if s != [] { FilterAll(p, s[1..]); }
  }

  lemma {:induction false} FilterNone<T>(p: T -> bool, s: seq<T>)
    requires forall x | x in s :: !p(x)
    ensures Filter(p, s) == []
  {
    if s != [] { FilterNone(p, s[1..]); }
  }

  lemma {:induction false} FilterTwice<T>(p: T -> bool, q: T -> bool, s: seq<T>)
    requires forall x | x in s && p(x) :: q(x)
    ensures Filter(p, Filter(q, s)) == Filter(p, s)
  {
    if s != [] { FilterTwice(p, q, s[1..]); }
  }

  lemma {:induction false} FilterCounts(cost: Message -> nat, p: Message -> bool, q: Message -> bool, s: seq<Message>)
    requires forall x | x in s :: p(x) == !q(x)
    ensures |Filter(p, s)| + |Filter(q, s)| == |s|
    ensures Tokens(cost, Filter(p, s)) + Tokens(cost, Filter(q, s)) == Tokens(cost, s)
  {
    if s != [] { FilterCounts(cost, p, q, s[1..]); }
  }

  lemma {:induction false} DistinctFilter<T>(p: T -> bool, s: seq<T>)
    requires Distinct(s)
    ensures Distinct(Filter(p, s))
  {
    if s != [] {
      assert Distinct(s[1..]);
      DistinctFilter(p, s[1..]);
      FilterMembers(p, s[1..], s[0]);
    }
  }

  /** A test that treats the messages of each group alike. */
  ghost predicate Respects(p: Message -> bool, gs: seq<seq<Message>>) {
    forall i, m | 0 <= i < |gs| && m in gs[i] :: p(m) == p(gs[i][0])
  }

  lemma FilterGroup(p: Message -> bool, g: seq<Message>, rest: seq<Message>)
    requires g != [] && forall m | m in g :: p(m) == p(g[0])
    ensures Filter(p, g + rest) == (if p(g[0]) then g else []) + Filter(p, rest)
  {
    FilterAppend(p, g, rest);
    if p(g[0]) { FilterAll(p, g); } else { FilterNone(p, g); }
  }

  lemma {:induction false} FilterKeepsWhole(p: Message -> bool, gs: seq<seq<Message>>) returns (hs: seq<seq<Message>>)
    requires AllWhole(gs) && Respects(p, gs)
    ensures AllWhole(hs) && Filter(p, Flatten(gs)) == Flatten(hs)
    ensures forall h | h in hs :: h in gs
  {
    hs := [];
    if gs != [] {
      assert forall i | 0 <= i < |gs[1..]| :: gs[1..][i] == gs[i + 1];
      var rest := FilterKeepsWhole(p, gs[1..]);
      FilterGroup(p, gs[0], Flatten(gs[1..]));
      hs := if p(gs[0][0]) then [gs[0]] + rest else rest;
    }
  }

  lemma TailRespectsGroups(gs: seq<seq<Message>>)
    requires AllWhole(gs)
    ensures Respects(InTail, gs)
  {
    forall i, m | 0 <= i < |gs| && m in gs[i]
      ensures InTail(m) == InTail(gs[i][0])
    {
      assert Whole(gs[i]);
      var k :| 0 <= k < |gs[i]| && gs[i][k] == m;
    }
  }

  lemma {:induction false} FlattenMember(gs: seq<seq<Message>>, m: Message)
    ensures m in Flatten(gs) <==> exists i :: 0 <= i < |gs| && m in gs[i]
  {
    if gs != [] {
      FlattenMember(gs[1..], m);
      assert forall i | 0 <= i < |gs[1..]| :: gs[1..][i] == gs[i + 1];
      if i :| 0 <= i < |gs| && m in gs[i] {
        assert i > 0 ==> m in gs[1..][i - 1];
      }
    }
  }

  lemma NotInBoth(a: seq<Message>, b: seq<Message>, m: Message)
    requires Distinct(a + b)
    ensures !(m in a && m in b)
  {
    if i :| 0 <= i < |a| && a[i] == m {
      forall j | 0 <= j < |b|
        ensures b[j] != m
      {
        assert (a + b)[i] == m && (a + b)[|a| + j] == b[j];
      }
    }
  }

  /** Without repeated messages, two groups that share a message are the same one. */
  lemma {:induction false} SharedGroup(gs: seq<seq<Message>>, a: nat, b: nat, m: Message)
    requires Distinct(Flatten(gs)) && a < |gs| && b < |gs| && m in gs[a] && m in gs[b]
    ensures a == b
  {
    var rest := Flatten(gs[1..]);
    assert Distinct(rest) by {
      assert forall i | 0 <= i < |rest| :: rest[i] == Flatten(gs)[|gs[0]| + i];
    }
    assert forall i | 0 <= i < |gs[1..]| :: gs[1..][i] == gs[i + 1];
    if a > 0 && b > 0 {
      SharedGroup(gs[1..], a - 1, b - 1, m);
    } else if a != b {
      var other := if a > b then a else b;
      assert m in gs[1..][other - 1];
      FlattenMember(gs[1..], m);
      NotInBoth(gs[0], rest, m);
    }
  }

  /** A tail of whole groups is kept or dropped group by group. */
  lemma RetainedRespectsGroups(gs: seq<seq<Message>>, tail: seq<seq<Message>>)
    requires AllWhole(gs) && Distinct(Flatten(gs)) && forall h | h in tail :: h in gs
    ensures Respects(NotIn(Flatten(tail)), gs)
  {
    var retained := Flatten(tail);
    forall i, m | 0 <= i < |gs| && m in gs[i]
      ensures (m in retained) == (gs[i][0] in retained)
    {
      assert Whole(gs[i]);
      SameFate(gs, tail, i, m, gs[i][0]);
      SameFate(gs, tail, i, gs[i][0], m);
    }
  }

  lemma SameFate(gs: seq<seq<Message>>, tail: seq<seq<Message>>, i: nat, m: Message, n: Message)
    requires Distinct(Flatten(gs)) && (forall h | h in tail :: h in gs)
    requires i < |gs| && m in gs[i] && n in gs[i]
    ensures m in Flatten(tail) ==> n in Flatten(tail)
  {
    FlattenMember(tail, m);
    FlattenMember(tail, n);
    if k :| 0 <= k < |tail| && m in tail[k] {
      assert tail[k] in gs;
      var j :| 0 <= j < |gs| && gs[j] == tail[k];
      SharedGroup(gs, i, j, m);
    }
  }

  /** The tail is made of the groups of the source that are not checkpoints. */
  lemma CandidateGroups(messages: seq<Message>)
    requires Sanitize(Filter(InSource, messages)) == Filter(InSource, messages)
    ensures
      var gs, ks := Groups(Filter(InSource, messages)), Groups(Filter(InTail, messages));
      && AllWhole(gs) && AllWhole(ks) && Flatten(gs) == Filter(InSource, messages)
        && Flatten(ks) == Filter(InTail, messages)
      && forall k | k in ks :: k in gs
  {
    var source := Filter(InSource, messages);
    var gs := Groups(source);
    GroupsAreWhole(source);
    TailRespectsGroups(gs);
    FilterTwice(InTail, InSource, messages);
    var ks := FilterKeepsWhole(InTail, gs);
    GroupsOfFlatten(ks);
  }

  /** The messages of the tail, in the order of the source. */
  lemma TailIsFiltered(messages: seq<Message>, ks: seq<seq<Message>>, start: nat)
    requires Distinct(Filter(InTail, messages)) && Flatten(ks) == Filter(InTail, messages) && start <= |ks|
    ensures
      var retained := Flatten(ks[start..]);
      Filter((m: Message) => m in retained, Filter(InSource, messages)) == retained
  {
    var source, candidates := Filter(InSource, messages), Filter(InTail, messages);
    var before, retained := Flatten(ks[..start]), Flatten(ks[start..]);
    var kept := (m: Message) => m in retained;
    FlattenAppend(ks[..start], ks[start..]);
    assert ks[..start] + ks[start..] == ks;
    FilterTwice(InTail, InSource, messages);
    forall m | m in source && kept(m)
      ensures InTail(m)
    {
      FilterMembers(InTail, messages, m);
    }
    FilterTwice(kept, InTail, source);
    FilterAppend(kept, before, retained);
    FilterAll(kept, retained);
    forall m | m in before
      ensures !kept(m)
    {
      NotInBoth(before, retained, m);
    }
    FilterNone(kept, before);
  }

  /**
   When the messages other than system messages are well formed and distinct, history and
   retained tail split them exactly: each message goes to one side, both sides keep the order,
   and sanitising drops nothing from either.
   */
  lemma HistoryAndTailPartition(cost: Message -> nat, messages: seq<Message>, start: nat)
    requires
      var source := Filter(InSource, messages);
      Sanitize(source) == source && Distinct(source)
    requires start <= |Groups(Filter(InTail, messages))|
    ensures
      var source, tail := Filter(InSource, messages), Flatten(Groups(Filter(InTail, messages))[start..]);
      var r := Selection(cost, messages, tail);
      && r.messages == tail == Filter((m: Message) => m in tail, source)
      && r.history == Filter(NotIn(tail), source)
      && |r.messages| + |r.history| == r.sourceMessageCount == |source|
      && r.retainedTokens + r.compactedHistoryTokens == r.sourceTokens
  {
    var source, candidates := Filter(InSource, messages), Filter(InTail, messages);
    var gs, ks := Groups(source), Groups(candidates);
    CandidateGroups(messages);
    FilterTwice(InTail, InSource, messages);
    DistinctFilter(InTail, source);
    SuffixIsStable(candidates, start);
    TailIsFiltered(messages, ks, start);
    var tail := Flatten(ks[start..]);
    RetainedRespectsGroups(gs, ks[start..]);
    var hs := FilterKeepsWhole(NotIn(tail), gs);
    GroupsOfFlatten(hs);
    FilterCounts(cost, (m: Message) => m in tail, NotIn(tail), source);
  }

  /** Whatever the input, no message is on both sides, both are well formed, and each side's tokens are its own. */
  lemma SidesAreDisjoint(cost: Message -> nat, messages: seq<Message>, selected: seq<Message>, m: Message)
    ensures
      var r := Selection(cost, messages, selected);
      && !(m in r.messages && m in r.history)
      && Sanitize(r.messages) == r.messages && Sanitize(r.history) == r.history
      && (m in r.history ==> m in messages && m.role != SystemRole)
      && r.retainedTokens == Tokens(cost, r.messages) && r.compactedHistoryTokens == Tokens(cost, r.history)
  {
    var retained := Sanitize(selected);
    var rest := Filter(NotIn(retained), Filter(InSource, messages));
    SanitizeIsIdempotent(selected);
    SanitizeIsIdempotent(rest);
    SanitizeAddsNothing(rest, m);
    FilterMembers(NotIn(retained), Filter(InSource, messages), m);
    FilterMembers(InSource, messages, m);
  }

  lemma SanitizeAddsNothing(ms: seq<Message>, m: Message)
    ensures m in Sanitize(ms) ==> m in ms
  {
    SanitizeKeepsExactly(ms);
    var at := KeptIsSubsequence(ms);
    assert forall k | 0 <= k < |at| :: Sanitize(ms)[k] == ms[at[k]];
  }
}
