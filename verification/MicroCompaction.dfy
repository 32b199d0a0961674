/**
 Shrinking old tool results in place in the conversation
 (packages/web-buddy/src/context/micro-compaction.ts:63-153). The two snapshot patterns are
 parameters, and a rewritten message keeps the `ref` of the one it replaces.
 */
module MicroCompaction {
  import opened Wrappers
  import opened Decimal
  import opened Texts
  import opened Messages
  import opened Compaction

  const DEFAULT_KEEP_RECENT_TOOL_RESULTS := 1
  const DEFAULT_MAX_TOOL_RESULT_CHARS := 1800
  const DEFAULT_MAX_SNAPSHOT_RESULT_CHARS := 1400
  const DEFAULT_MIN_TOOL_RESULT_CHARS := 2600
  /** No JavaScript string is longer. */
  const MAX_STRING_LENGTH := 0x1f_ffff_ffff_ffff

  const MARKER := "[micro_compacted_tool_result originalChars="
  const STALE_SNAPSHOT :=
    "Older browser/form snapshot refs are stale historical evidence. "
    + "Refresh the page/form snapshot before using element refs."

  datatype MicroOptions = MicroOptions(
    keepRecentToolResults: Option<Number>, maxToolResultChars: Option<Number>,
    maxSnapshotResultChars: Option<Number>, minToolResultChars: Option<Number>)

  const DEFAULTS := MicroOptions(None, None, None, None)

  /** `SNAPSHOT_TOOL_RE` on names and `SNAPSHOT_TEXT_RE` on contents. */
  datatype Patterns = Patterns(toolName: string -> bool, text: string -> bool)

  datatype MicroResult = MicroResult(
    applied: bool, messages: seq<Message>, compactedToolResultCount: nat, compactedSnapshotCount: nat,
    estimatedTokensBefore: nat, estimatedTokensAfter: nat, estimatedTokensSaved: nat)

  function NormalizeCount(value: Option<Number>, fallback: nat): nat {
    match value
    case Some(Finite(v)) => if v >= 0.0 then v.Floor else fallback
    case _ => fallback
  }

  function MaxChars(options: MicroOptions, isSnapshot: bool): nat {
    if isSnapshot then NormalizeCount(options.maxSnapshotResultChars, DEFAULT_MAX_SNAPSHOT_RESULT_CHARS)
    else NormalizeCount(options.maxToolResultChars, DEFAULT_MAX_TOOL_RESULT_CHARS)
  }

  function MinChars(options: MicroOptions): nat {
    NormalizeCount(options.minToolResultChars, DEFAULT_MIN_TOOL_RESULT_CHARS)
  }

  predicate IsSnapshot(patterns: Patterns, m: Message) {
    (m.name != "" && patterns.toolName(m.name)) || patterns.text(m.content)
  }

  function CompactContent(content: string, maxChars: nat, isSnapshot: bool): string {
    var head := TrimEnd(if maxChars < |content| then content[..maxChars] else content);
    head + "\n\n" + MARKER + NatText(|content|) + "]" + (if isSnapshot then "\n" + STALE_SNAPSHOT else "")
  }

  // ---------------------------------------------------------------- the protected tool results

  predicate Identified(m: Message) {
    m.role == ToolRole && m.toolCallId != NO_CALL
  }

  function IdentifiedCount(ms: seq<Message>): nat {
    if ms == [] then 0 else (if Identified(ms[0]) then 1 else 0) + IdentifiedCount(ms[1..])
  }

  /** The id of an identified tool result with fewer than `keep` identified ones after it. */
  ghost predicate Recent(ms: seq<Message>, keep: nat, id: CallId, from: nat) {
    exists i :: from <= i < |ms| && Identified(ms[i]) && ms[i].toolCallId == id && IdentifiedCount(ms[i + 1..]) < keep
  }

  ghost function RecentIds(ms: seq<Message>, options: MicroOptions): set<CallId> {
    var keep := NormalizeCount(options.keepRecentToolResults, DEFAULT_KEEP_RECENT_TOOL_RESULTS);
    set m | m in ms && Recent(ms, keep, m.toolCallId, 0) :: m.toolCallId
  }

  method RecentToolMessageIds(messages: seq<Message>, keep: nat) returns (ids: set<CallId>)
    ensures forall id :: id in ids <==> Recent(messages, keep, id, 0)
  {
    var found: seq<CallId> := [];
    var index: nat := |messages|;
    while index > 0 && |found| < keep
      invariant index <= |messages|
      invariant |found| == IdentifiedCount(messages[index..]) <= keep
      invariant forall id :: id in found <==> Recent(messages, keep, id, index)
    {
      index := index - 1;
      assert messages[index..][1..] == messages[index + 1..];
      if Identified(messages[index]) {
        found := found + [messages[index].toolCallId];
      }
    }
    NoneRecentBefore(messages, keep, index);
    ids := IdSet(found);
  }

  lemma {:induction false} CountGrows(ms: seq<Message>, i: nat, j: nat)
    requires i <= j <= |ms|
    ensures IdentifiedCount(ms[i..]) >= IdentifiedCount(ms[j..])
    decreases j - i
  {
    if i < j {
      assert ms[i..][1..] == ms[i + 1..];
      CountGrows(ms, i + 1, j);
    }
  }

  lemma NoneRecentBefore(ms: seq<Message>, keep: nat, index: nat)
    requires index <= |ms| && (index == 0 || IdentifiedCount(ms[index..]) >= keep)
    ensures forall id :: Recent(ms, keep, id, 0) <==> Recent(ms, keep, id, index)
  {
    forall id | Recent(ms, keep, id, 0)
      ensures Recent(ms, keep, id, index)
    {
      var i :| 0 <= i < |ms| && Identified(ms[i]) && ms[i].toolCallId == id && IdentifiedCount(ms[i + 1..]) < keep;
      if i < index { CountGrows(ms, i + 1, index); }
    }
  }

  // ---------------------------------------------------------------- the rewriting

  /** What the map depends on. */
  datatype Rewriting = Rewriting(patterns: Patterns, options: MicroOptions, keepIds: set<CallId>) {
    predicate Snapshot(m: Message) {
      IsSnapshot(patterns, m)
    }

    function Limit(m: Message): nat {
      MaxChars(options, Snapshot(m))
    }
  }

  /** The tool results it shrinks. */
  predicate Compacts(w: Rewriting, m: Message) {
    && m.role == ToolRole && !(m.toolCallId != NO_CALL && m.toolCallId in w.keepIds)
    && |m.content| > w.Limit(m) && |m.content| > MinChars(w.options)
  }

  function Large(w: Rewriting): Message -> bool {
    (m: Message) => Compacts(w, m)
  }

  function LargeSnapshot(w: Rewriting): Message -> bool {
    (m: Message) => Compacts(w, m) && w.Snapshot(m)
  }

  function Rewritten(w: Rewriting, m: Message): (r: Message)
    ensures r.role == m.role && r.toolCallIds == m.toolCallIds && r.toolCallId == m.toolCallId
    ensures r.(content := m.content) == m
  {
    if Compacts(w, m)
    then m.(content := CompactContent(m.content, w.Limit(m), w.Snapshot(m)))
    else m
  }

  function RewrittenAll(w: Rewriting, ms: seq<Message>): (r: seq<Message>)
    ensures |r| == |ms| && forall i | 0 <= i < |ms| :: r[i] == Rewritten(w, ms[i])
  {
    if ms == [] then [] else [Rewritten(w, ms[0])] + RewrittenAll(w, ms[1..])
  }

  /** The function that the source maps over the messages. */
  method CompactMessage(patterns: Patterns, options: MicroOptions, retainToolIds: set<CallId>, message: Message)
      returns (out: Message, rewritten: bool, isSnapshot: bool)
    ensures
      var w := Rewriting(patterns, options, retainToolIds);
      out == Rewritten(w, message) && rewritten == Compacts(w, message) && isSnapshot == w.Snapshot(message)
  {
    out, rewritten, isSnapshot := message, false, IsSnapshot(patterns, message);
    if message.role != ToolRole { return; }
    if message.toolCallId != NO_CALL && message.toolCallId in retainToolIds { return; }
    var maxChars := MaxChars(options, isSnapshot);
    if |message.content| <= (if maxChars < MinChars(options) then MinChars(options) else maxChars) { return; }
    out, rewritten := message.(content := CompactContent(message.content, maxChars, isSnapshot)), true;
  }

  // ---------------------------------------------------------------- what becomes of each message

  /** The whole number asked for, or the default if none, a negative or no finite one is. */
  ghost predicate SizeOf(asked: Option<Number>, fallback: nat, n: nat) {
    if asked.Some? && asked.value.Finite? && 0.0 <= asked.value.value
    then n as real <= asked.value.value < n as real + 1.0
    else n == fallback
  }

  /** The identified tool results behind position `j`. */
  ghost function Later(ms: seq<Message>, j: nat): set<nat> {
    set k: nat | j < k < |ms| && ms[k].role == ToolRole && ms[k].toolCallId != NO_CALL
  }

  /** The id is that of one of the last `keep` identified tool results. */
  ghost predicate Protected(ms: seq<Message>, keep: nat, id: CallId) {
    id != NO_CALL
    && exists j: nat :: j < |ms| && ms[j].role == ToolRole && ms[j].toolCallId == id && |Later(ms, j)| < keep
  }

  /** The first `n` characters are kept: all of the first `limit`, up to blanks at their end. */
  ghost predicate HeadOf(content: string, limit: nat, n: nat) {
    && n <= limit <= |content|
    && (forall i | n <= i < limit :: TrimSpace(content[i]))
    && (n == 0 || !TrimSpace(content[n - 1]))
  }

  /** The head, a blank line, the marker with the length that was, and for a snapshot the warning. */
  ghost predicate Shrunk(content: string, limit: nat, isSnapshot: bool, out: string) {
    exists n: nat ::
      && HeadOf(content, limit, n)
      && out == content[..n] + "\n\n" + MARKER + NatText(|content|) + "]"
                + if isSnapshot then "\n" + STALE_SNAPSHOT else ""
  }

  ghost predicate SizesOf(options: MicroOptions, isSnapshot: bool, keep: nat, limit: nat, least: nat) {
    && SizeOf(options.keepRecentToolResults, 1, keep)
    && SizeOf(options.minToolResultChars, 2600, least)
    && if isSnapshot then SizeOf(options.maxSnapshotResultChars, 1400, limit)
       else SizeOf(options.maxToolResultChars, 1800, limit)
  }

  ghost predicate TreatedWith(ms: seq<Message>, m: Message, out: Message, isSnapshot: bool, keep: nat, limit: nat,
                              least: nat) {
    if m.role == ToolRole && !Protected(ms, keep, m.toolCallId) && |m.content| > limit && |m.content| > least
    then out == m.(content := out.content) && Shrunk(m.content, limit, isSnapshot, out.content)
    else out == m
  }

  /** The tool's name or the text itself speaks of a page snapshot. */
  predicate ShowsPage(patterns: Patterns, m: Message) {
    patterns.text(m.content) || (m.name != "" && patterns.toolName(m.name))
  }

  /** Exactly the long tool results that are not protected shrink; nothing else about any message changes. */
  ghost predicate Treated(patterns: Patterns, options: MicroOptions, ms: seq<Message>, m: Message, out: Message) {
    exists keep, limit, least ::
      && SizesOf(options, ShowsPage(patterns, m), keep, limit, least)
      && TreatedWith(ms, m, out, ShowsPage(patterns, m), keep, limit, least)
  }

  lemma CountIsSize(asked: Option<Number>, fallback: nat)
    ensures SizeOf(asked, fallback, NormalizeCount(asked, fallback))
  {
  }

  lemma {:induction false} CountsLater(ms: seq<Message>, j: nat)
    requires j < |ms|
    ensures IdentifiedCount(ms[j + 1..]) == |Later(ms, j)|
    decreases |ms| - j
  {
    if j + 1 == |ms| {
      assert Later(ms, j) == {};
    } else {
      CountsLater(ms, j + 1);
      assert ms[j + 1..][1..] == ms[j + 2..];
      assert Later(ms, j) == Later(ms, j + 1) + if Identified(ms[j + 1]) then {j + 1} else {};
    }
  }

  lemma RecentIsProtected(ms: seq<Message>, keep: nat, id: CallId)
    ensures Recent(ms, keep, id, 0) <==> Protected(ms, keep, id)
  {
    forall j: nat | j < |ms|
      ensures IdentifiedCount(ms[j + 1..]) == |Later(ms, j)|
    {
      CountsLater(ms, j);
    }
    if i :| 0 <= i < |ms| && Identified(ms[i]) && ms[i].toolCallId == id && IdentifiedCount(ms[i + 1..]) < keep {
      assert |Later(ms, i)| < keep;
    }
    if j: nat :|
      j < |ms| && id != NO_CALL && ms[j].role == ToolRole && ms[j].toolCallId == id && |Later(ms, j)| < keep
    {
      assert Identified(ms[j]) && IdentifiedCount(ms[j + 1..]) < keep;
    }
  }

  lemma {:induction false} TrimmedHead(content: string, limit: nat, s: string) returns (n: nat)
    requires limit <= |content| && s == content[..limit]
    ensures HeadOf(content, limit, n) && TrimEnd(s) == content[..n]
    decreases limit
  {
    if limit > 0 && TrimSpace(content[limit - 1]) {
      assert s[..|s| - 1] == content[..limit - 1];
      n := TrimmedHead(content, limit - 1, content[..limit - 1]);
    } else {
      n := limit;
    }
  }

  lemma CompactContentShrinks(content: string, limit: nat, isSnapshot: bool)
    requires limit < |content|
    ensures Shrunk(content, limit, isSnapshot, CompactContent(content, limit, isSnapshot))
  {
    var n := TrimmedHead(content, limit, content[..limit]);
  }

  /** The function that is mapped over the messages treats each of them as it should be. */
  lemma RewritingTreats(patterns: Patterns, options: MicroOptions, ms: seq<Message>, m: Message)
    ensures Treated(patterns, options, ms, m, Rewritten(RewritingOf(patterns, options, ms), m))
  {
    var w := RewritingOf(patterns, options, ms);
    var keep, limit, least := NormalizeCount(options.keepRecentToolResults, 1), w.Limit(m), MinChars(options);
    CountIsSize(options.keepRecentToolResults, 1);
    CountIsSize(options.minToolResultChars, 2600);
    CountIsSize(options.maxSnapshotResultChars, 1400);
    CountIsSize(options.maxToolResultChars, 1800);
    assert ShowsPage(patterns, m) == w.Snapshot(m);
    assert SizesOf(options, ShowsPage(patterns, m), keep, limit, least);
    RecentIdsMember(ms, options, m.toolCallId);
    RecentIsProtected(ms, keep, m.toolCallId);
    if Compacts(w, m) { CompactContentShrinks(m.content, limit, w.Snapshot(m)); }
    assert TreatedWith(ms, m, Rewritten(w, m), ShowsPage(patterns, m), keep, limit, least);
  }

  lemma AllTreated(patterns: Patterns, options: MicroOptions, ms: seq<Message>)
    ensures
      var out := RewrittenAll(RewritingOf(patterns, options, ms), ms);
      forall i | 0 <= i < |ms| :: Treated(patterns, options, ms, ms[i], out[i])
  {
    forall i | 0 <= i < |ms|
      ensures Treated(patterns, options, ms, ms[i], Rewritten(RewritingOf(patterns, options, ms), ms[i]))
    {
      RewritingTreats(patterns, options, ms, ms[i]);
    }
  }

  method MicroCompactMessages(cost: Message -> nat, patterns: Patterns, messages: seq<Message>, options: MicroOptions)
      returns (r: MicroResult, ghost w: Rewriting)
    ensures w.patterns == patterns && w.options == options && w.keepIds == RecentIds(messages, options)
    ensures r.messages == RewrittenAll(w, messages)
    ensures forall i | 0 <= i < |messages| :: Treated(patterns, options, messages, messages[i], r.messages[i])
    ensures r.compactedToolResultCount == |Filter(Large(w), messages)|
    ensures r.compactedSnapshotCount == |Filter(LargeSnapshot(w), messages)|
    ensures r.applied <==> exists m :: m in messages && Compacts(w, m)
    ensures r.estimatedTokensBefore == Tokens(cost, messages) && r.estimatedTokensAfter == Tokens(cost, r.messages)
    ensures r.estimatedTokensSaved ==
            if r.estimatedTokensAfter < r.estimatedTokensBefore
            then r.estimatedTokensBefore - r.estimatedTokensAfter else 0
  {
    var before := Tokens(cost, messages);
    var keepRecentToolResults := NormalizeCount(options.keepRecentToolResults, DEFAULT_KEEP_RECENT_TOOL_RESULTS);
    var retainToolIds := RecentToolMessageIds(messages, keepRecentToolResults);
    RecentIdsExactly(messages, options, retainToolIds);
    w := Rewriting(patterns, options, retainToolIds);
    var compacted, compactedToolResultCount, compactedSnapshotCount :=
      CompactEach(patterns, options, retainToolIds, messages, w);
    SomeFiltered(Large(w), messages);
    AllTreated(patterns, options, messages);
    var after := Tokens(cost, compacted);
    r := MicroResult(compactedToolResultCount > 0, compacted, compactedToolResultCount, compactedSnapshotCount,
                     before, after, if after < before then before - after else 0);
  }

  /** The loop over the messages. */
  method CompactEach(patterns: Patterns, options: MicroOptions, retainToolIds: set<CallId>, messages: seq<Message>,
                     ghost w: Rewriting)
    returns (compacted: seq<Message>, toolResults: nat, snapshots: nat)
    requires w == Rewriting(patterns, options, retainToolIds)
    ensures compacted == RewrittenAll(w, messages)
    ensures toolResults == |Filter(Large(w), messages)|
    ensures snapshots == |Filter(LargeSnapshot(w), messages)|
  {
    toolResults, snapshots, compacted := 0, 0, [];
    var i := 0;
    while i < |messages|
      invariant i <= |messages| && |compacted| == i
      invariant forall k | 0 <= k < i :: compacted[k] == Rewritten(w, messages[k])
      invariant toolResults == |Filter(Large(w), messages[..i])|
      invariant snapshots == |Filter(LargeSnapshot(w), messages[..i])|
    {
      var out, rewritten, isSnapshot := CompactMessage(patterns, options, retainToolIds, messages[i]);
      CountOneMore(Large(w), messages, i);
      CountOneMore(LargeSnapshot(w), messages, i);
      if rewritten {
        toolResults := toolResults + 1;
        if isSnapshot { snapshots := snapshots + 1; }
      }
      compacted := compacted + [out];
      i := i + 1;
    }
    assert messages[..i] == messages;
    IsRewrittenAll(w, messages, compacted);
  }

  lemma IsRewrittenAll(w: Rewriting, ms: seq<Message>, out: seq<Message>)
    requires |out| == |ms| && forall k | 0 <= k < |ms| :: out[k] == Rewritten(w, ms[k])
    ensures out == RewrittenAll(w, ms)
  {
  }

  lemma CountOneMore(p: Message -> bool, ms: seq<Message>, i: nat)
    requires i < |ms|
    ensures |Filter(p, ms[..i + 1])| == |Filter(p, ms[..i])| + if p(ms[i]) then 1 else 0
  {
    assert ms[..i + 1] == ms[..i] + [ms[i]];
    FilterAppend(p, ms[..i], [ms[i]]);
    assert [ms[i]][1..] == [];
  }

  lemma SomeFiltered(p: Message -> bool, ms: seq<Message>)
    ensures |Filter(p, ms)| > 0 <==> exists m :: m in ms && p(m)
  {
    if |Filter(p, ms)| > 0 {
      FilterMembers(p, ms, Filter(p, ms)[0]);
    }
    if m :| m in ms && p(m) {
      FilterMembers(p, ms, m);
    }
  }

  // ---------------------------------------------------------------- grouping commutes with it

  function RewrittenGroups(w: Rewriting, gs: seq<seq<Message>>): (r: seq<seq<Message>>)
    ensures |r| == |gs| && forall i | 0 <= i < |gs| :: r[i] == RewrittenAll(w, gs[i])
  {
    if gs == [] then []
    else [RewrittenAll(w, gs[0])] + RewrittenGroups(w, gs[1..])
  }

  lemma {:induction false} ToolRunSame(a: seq<Message>, b: seq<Message>)
    requires |a| == |b| && forall i | 0 <= i < |a| :: a[i].role == b[i].role
    ensures ToolRun(a) == ToolRun(b)
  {
    if a != [] {
      assert forall i | 0 <= i < |a[1..]| :: a[1..][i] == a[i + 1] && b[1..][i] == b[i + 1];
      ToolRunSame(a[1..], b[1..]);
    }
  }

  lemma {:induction false} PickedCommutes(w: Rewriting, run: seq<Message>, expected: set<CallId>)
    ensures Picked(RewrittenAll(w, run), expected)
         == RewrittenAll(w, Picked(run, expected))
    ensures Unanswered(RewrittenAll(w, run), expected) == Unanswered(run, expected)
  {
    if run != [] {
      var fewer := if Answers(run[0], expected) then expected - {run[0].toolCallId} else expected;
      PickedCommutes(w, run[1..], fewer);
      assert RewrittenAll(w, run)[1..] == RewrittenAll(w, run[1..]);
      RewrittenFirst(w, run[0], Picked(run[1..], fewer));
    }
  }

  lemma RewrittenFirst(w: Rewriting, m: Message, ms: seq<Message>)
    ensures RewrittenAll(w, [m] + ms)
         == [Rewritten(w, m)] + RewrittenAll(w, ms)
  {
    assert ([m] + ms)[1..] == ms;
  }

  lemma RewrittenSlice(w: Rewriting, ms: seq<Message>, i: nat, j: nat)
    requires i <= j <= |ms|
    ensures RewrittenAll(w, ms)[i..j] == RewrittenAll(w, ms[i..j])
  {
  }

  lemma FirstGroupCommutes(w: Rewriting, ms: seq<Message>)
    requires ms != []
    ensures
      var out := RewrittenAll(w, ms);
      && Taken(out) == Taken(ms)
      && FirstGroup(out) == RewrittenGroups(w, FirstGroup(ms))
  {
    var out := RewrittenAll(w, ms);
    ToolRunSame(out[1..], ms[1..]);
    var n := Taken(ms);
    if CallsTools(ms[0]) {
      RewrittenSlice(w, ms, 1, n);
      PickedCommutes(w, ms[1..n], IdSet(ms[0].toolCallIds));
      RewrittenFirst(w, ms[0], Picked(ms[1..n], IdSet(ms[0].toolCallIds)));
    } else {
      RewrittenFirst(w, ms[0], []);
      assert [ms[0]] + [] == [ms[0]];
      assert ms[0].role != ToolRole ==> FirstGroup(ms) == [[ms[0]]] && FirstGroup(out) == [[out[0]]];
    }
  }

  lemma {:induction false} RewrittenAppend(w: Rewriting, a: seq<seq<Message>>, b: seq<seq<Message>>)
    ensures RewrittenGroups(w, a + b) == RewrittenGroups(w, a) + RewrittenGroups(w, b)
  {
    if a == [] {
      assert a + b == b;
    } else {
      assert (a + b)[1..] == a[1..] + b;
      RewrittenAppend(w, a[1..], b);
      Associative([RewrittenAll(w, a[0])], RewrittenGroups(w, a[1..]), RewrittenGroups(w, b));
    }
  }

  /** Grouping the rewritten messages gives the rewritten groups: no tool-call boundary moves. */
  lemma {:induction false} GroupsCommute(w: Rewriting, ms: seq<Message>)
    ensures Groups(RewrittenAll(w, ms)) == RewrittenGroups(w, Groups(ms))
    decreases |ms|
  {
    if ms != [] {
      var out, n := RewrittenAll(w, ms), Taken(ms);
      FirstGroupCommutes(w, ms);
      GroupsCommute(w, ms[n..]);
      RewrittenDrop(w, ms, n);
      RewrittenAppend(w, FirstGroup(ms), Groups(ms[n..]));
    }
  }

  // ---------------------------------------------------------------- shrinking

  /** What the marker line, and the snapshot warning, add. */
  function Overhead(length: nat, isSnapshot: bool): nat {
    3 + |MARKER| + |NatText(length)| + if isSnapshot then 1 + |STALE_SNAPSHOT| else 0
  }

  function Power10(k: nat): nat {
    if k == 0 then 1 else 10 * Power10(k - 1)
  }

  lemma {:induction false} DigitCount(n: nat, k: nat)
    requires k > 0 && n < Power10(k)
    ensures |NatText(n)| <= k
  {
    if n >= 10 {
      DigitCount(n / 10, k - 1);
    }
  }

  lemma {:induction false} FewDigits(n: nat)
    ensures |NatText(n)| <= 4 + n / 1000
  {
    if n >= 10 {
      FewDigits(n / 10);
    }
  }

  lemma LengthDigits(n: nat)
    requires n <= MAX_STRING_LENGTH
    ensures |NatText(n)| <= 16
  {
    assert Power10(4) == 10_000;
    assert Power10(8) == 10_000 * Power10(4);
    assert Power10(12) == 10_000 * Power10(8);
    assert Power10(16) == 10_000 * Power10(12);
    DigitCount(n, 16);
  }

  lemma ContentLength(content: string, maxChars: nat, isSnapshot: bool)
    ensures
      var head := TrimEnd(if maxChars < |content| then content[..maxChars] else content);
      |CompactContent(content, maxChars, isSnapshot)| == |head| + Overhead(|content|, isSnapshot) && |head| <= maxChars
  {
    var n := TrimEndIsPrefix(if maxChars < |content| then content[..maxChars] else content);
  }

  lemma {:induction false} OneMoreDigit(n: nat)
    ensures |NatText(n + 1)| <= |NatText(n)| + 1
  {
    if n >= 10 {
      if (n + 1) / 10 != n / 10 { OneMoreDigit(n / 10); }
    }
  }

  /** The marker grows no faster than the content it counts. */
  lemma {:induction false} DigitsGrowSlowly(a: nat, b: nat)
    requires a <= b
    ensures |NatText(b)| + a <= |NatText(a)| + b
    decreases b
  {
    if a < b {
      DigitsGrowSlowly(a, b - 1);
      OneMoreDigit(b - 1);
    }
  }

  /** The shortest content that is rewritten. */
  function Least(options: MicroOptions, isSnapshot: bool): nat {
    1 + if MaxChars(options, isSnapshot) < MinChars(options) then MinChars(options) else MaxChars(options, isSnapshot)
  }

  /** The sizes leave room for the marker in the shortest content that is rewritten. */
  predicate Roomy(options: MicroOptions, isSnapshot: bool) {
    MaxChars(options, isSnapshot) + Overhead(Least(options, isSnapshot), isSnapshot) < Least(options, isSnapshot)
  }

  function Letters(n: nat): (r: string)
    ensures |r| == n && forall i | 0 <= i < n :: r[i] == 'x'
  {
    seq(n, i => 'x')
  }

  lemma LettersStay(n: nat, maxChars: nat)
    requires maxChars < n
    ensures TrimEnd(Letters(n)[..maxChars]) == Letters(n)[..maxChars]
  {
  }

  /** Rewriting shortens every content long enough to be rewritten if and only if the sizes leave that room. */
  lemma ShrinksExactly(options: MicroOptions, isSnapshot: bool)
    ensures (forall content: string | |content| >= Least(options, isSnapshot) ::
               |CompactContent(content, MaxChars(options, isSnapshot), isSnapshot)| < |content|)
       <==> Roomy(options, isSnapshot)
  {
    var limit, least := MaxChars(options, isSnapshot), Least(options, isSnapshot);
    if Roomy(options, isSnapshot) {
      forall content: string | |content| >= least
        ensures |CompactContent(content, limit, isSnapshot)| < |content|
      {
        ContentLength(content, limit, isSnapshot);
        DigitsGrowSlowly(least, |content|);
      }
    } else {
      LettersDoNotShrink(options, isSnapshot);
    }
  }

  lemma LettersDoNotShrink(options: MicroOptions, isSnapshot: bool)
    requires !Roomy(options, isSnapshot)
    ensures |CompactContent(Letters(Least(options, isSnapshot)), MaxChars(options, isSnapshot),
                            isSnapshot)| >= Least(options, isSnapshot)
  {
    var limit, least := MaxChars(options, isSnapshot), Least(options, isSnapshot);
    ContentLength(Letters(least), limit, isSnapshot);
    LettersStay(least, limit);
  }

  /** So with roomy sizes every rewritten tool result gets strictly shorter ... */
  lemma RewrittenShrinks(w: Rewriting, m: Message)
    requires Compacts(w, m) && Roomy(w.options, w.Snapshot(m))
    ensures |Rewritten(w, m).content| < |m.content|
  {
    ShrinksExactly(w.options, w.Snapshot(m));
  }

  /** ... and with any other sizes some unprotected tool result is rewritten and does not. */
  lemma SomeResultDoesNotShrink(w: Rewriting, m: Message)
    requires m.role == ToolRole && m.toolCallId == NO_CALL && !Roomy(w.options, w.Snapshot(m))
    requires m.content == Letters(Least(w.options, w.Snapshot(m)))
    ensures Compacts(w, m) && |Rewritten(w, m).content| >= |m.content|
  {
    LettersDoNotShrink(w.options, w.Snapshot(m));
  }

  /** With the default sizes every rewritten tool result gets strictly shorter. */
  lemma DefaultsShrink(w: Rewriting, m: Message)
    requires DefaultSizes(w.options) && Compacts(w, m)
    ensures |Rewritten(w, m).content| < |m.content|
    ensures |m.content| <= MAX_STRING_LENGTH ==> |Rewritten(w, m).content| <= DEFAULT_MIN_TOOL_RESULT_CHARS
  {
    ContentLength(m.content, w.Limit(m), w.Snapshot(m));
    FewDigits(|m.content|);
    if |m.content| <= MAX_STRING_LENGTH { LengthDigits(|m.content|); }
  }

  predicate DefaultSizes(options: MicroOptions) {
    options.maxToolResultChars.None? && options.maxSnapshotResultChars.None? && options.minToolResultChars.None?
  }

  const TINY := MicroOptions(None, Some(Finite(0.0)), None, Some(Finite(0.0)))

  /** With both sizes 0 the one-letter tool result is rewritten, and gets longer. */
  lemma SmallLimitsGrow(patterns: Patterns, m: Message)
    requires m.role == ToolRole && m.toolCallId == NO_CALL && m.content == "x" && !IsSnapshot(patterns, m)
    ensures
      var w := RewritingOf(patterns, TINY, [m]);
      Compacts(w, m) && |Rewritten(w, m).content| > 40 > |m.content|
  {
    var w := RewritingOf(patterns, TINY, [m]);
    assert w.Limit(m) == 0 && MinChars(TINY) == 0;
    ContentLength("x", 0, false);
  }

  // ---------------------------------------------------------------- doing it again

  lemma {:induction false} SameIdentified(w: Rewriting, ms: seq<Message>)
    ensures IdentifiedCount(RewrittenAll(w, ms)) == IdentifiedCount(ms)
  {
    if ms != [] {
      assert RewrittenAll(w, ms)[1..] == RewrittenAll(w, ms[1..]);
      SameIdentified(w, ms[1..]);
    }
  }

  /** The two lists agree on what `Recent` looks at in position `i`. */
  ghost predicate AlikeAt(a: seq<Message>, b: seq<Message>, i: nat) {
    && i < |a| == |b|
    && IdentifiedCount(a[i + 1..]) == IdentifiedCount(b[i + 1..])
    && Identified(a[i]) == Identified(b[i]) && a[i].toolCallId == b[i].toolCallId
  }

  lemma SameAt(w: Rewriting, ms: seq<Message>, i: nat)
    requires i < |ms|
    ensures AlikeAt(RewrittenAll(w, ms), ms, i)
  {
    RewrittenDrop(w, ms, i + 1);
    SameIdentified(w, ms[i + 1..]);
  }

  lemma RewrittenDrop(w: Rewriting, ms: seq<Message>, i: nat)
    requires i <= |ms|
    ensures RewrittenAll(w, ms)[i..] == RewrittenAll(w, ms[i..])
  {
  }

  lemma AlikeIsRecent(a: seq<Message>, b: seq<Message>, keep: nat, id: CallId)
    requires |a| == |b| && forall i: nat | i < |a| :: AlikeAt(a, b, i)
    ensures Recent(a, keep, id, 0) ==> Recent(b, keep, id, 0)
  {
    if i: nat :| i < |a| && Identified(a[i]) && a[i].toolCallId == id && IdentifiedCount(a[i + 1..]) < keep {
      assert AlikeAt(a, b, i);
      assert Identified(b[i]) && b[i].toolCallId == id && IdentifiedCount(b[i + 1..]) < keep;
    }
  }

  /** The rewriting protects the same ids before and after. */
  lemma SameRecent(w: Rewriting, ms: seq<Message>, keep: nat, id: CallId)
    ensures Recent(RewrittenAll(w, ms), keep, id, 0) <==> Recent(ms, keep, id, 0)
  {
    var out := RewrittenAll(w, ms);
    forall i: nat | i < |ms|
      ensures AlikeAt(out, ms, i) && AlikeAt(ms, out, i)
    {
      SameAt(w, ms, i);
    }
    AlikeIsRecent(out, ms, keep, id);
    AlikeIsRecent(ms, out, keep, id);
  }

  lemma RecentIdsMember(ms: seq<Message>, options: MicroOptions, id: CallId)
    ensures id in RecentIds(ms, options)
       <==> Recent(ms, NormalizeCount(options.keepRecentToolResults, DEFAULT_KEEP_RECENT_TOOL_RESULTS), id, 0)
  {
    var keep := NormalizeCount(options.keepRecentToolResults, DEFAULT_KEEP_RECENT_TOOL_RESULTS);
    if Recent(ms, keep, id, 0) {
      var i :| 0 <= i < |ms| && Identified(ms[i]) && ms[i].toolCallId == id && IdentifiedCount(ms[i + 1..]) < keep;
      assert ms[i] in ms;
    }
  }

  lemma RecentIdsExactly(ms: seq<Message>, options: MicroOptions, ids: set<CallId>)
    requires forall id ::
      id in ids <==> Recent(ms, NormalizeCount(options.keepRecentToolResults, DEFAULT_KEEP_RECENT_TOOL_RESULTS), id, 0)
    ensures ids == RecentIds(ms, options)
  {
    forall id
      ensures id in ids <==> id in RecentIds(ms, options)
    {
      RecentIdsMember(ms, options, id);
    }
  }

  ghost function RewritingOf(patterns: Patterns, options: MicroOptions, ms: seq<Message>): Rewriting {
    Rewriting(patterns, options, RecentIds(ms, options))
  }

  /** With the default sizes a second micro-compaction changes nothing. */
  lemma MicroCompactionIsIdempotent(patterns: Patterns, options: MicroOptions, ms: seq<Message>)
    requires DefaultSizes(options) && forall i | 0 <= i < |ms| :: |ms[i].content| <= MAX_STRING_LENGTH
    ensures
      var out := RewrittenAll(RewritingOf(patterns, options, ms), ms);
      RewrittenAll(RewritingOf(patterns, options, out), out) == out
  {
    var w := RewritingOf(patterns, options, ms);
    var out := RewrittenAll(w, ms);
    forall id
      ensures id in RecentIds(out, options) <==> id in RecentIds(ms, options)
    {
      RecentIdsMember(ms, options, id);
      RecentIdsMember(out, options, id);
      SameRecent(w, ms, NormalizeCount(options.keepRecentToolResults, DEFAULT_KEEP_RECENT_TOOL_RESULTS), id);
    }
    assert RecentIds(out, options) == RecentIds(ms, options);
    forall i | 0 <= i < |out|
      ensures Rewritten(w, out[i]) == out[i]
    {
      if Compacts(w, ms[i]) { DefaultsShrink(w, ms[i]); }
    }
  }

  lemma {:induction false} FlattenRewritten(w: Rewriting, gs: seq<seq<Message>>)
    ensures Flatten(RewrittenGroups(w, gs)) == RewrittenAll(w, Flatten(gs))
  {
    if gs != [] {
      FlattenRewritten(w, gs[1..]);
      assert RewrittenGroups(w, gs)[1..] == RewrittenGroups(w, gs[1..]);
      RewrittenConcat(w, gs[0], Flatten(gs[1..]));
    }
  }

  lemma {:induction false} RewrittenConcat(w: Rewriting, a: seq<Message>, b: seq<Message>)
    ensures RewrittenAll(w, a + b) == RewrittenAll(w, a) + RewrittenAll(w, b)
  {
    if a == [] {
      assert a + b == b;
    } else {
      assert (a + b)[1..] == a[1..] + b;
      RewrittenConcat(w, a[1..], b);
      Associative([Rewritten(w, a[0])], RewrittenAll(w, a[1..]), RewrittenAll(w, b));
    }
  }

  /** Micro-compaction and sanitising can be done in either order. */
  lemma SanitizeCommutes(w: Rewriting, ms: seq<Message>)
    ensures Sanitize(RewrittenAll(w, ms)) == RewrittenAll(w, Sanitize(ms))
  {
    GroupsCommute(w, ms);
    FlattenRewritten(w, Groups(ms));
  }
}
