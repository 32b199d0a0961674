/**
 What a context selection may and must contain, said of the input and the result alone
 (packages/web-buddy/src/agents/context-selector.ts:66-239, 268-345, 357-423): who is refused and
 why, what each item is worth, in which order items are listed, and what is left out for the
 budget. The rules are written without the functions that the selector is made of.
 */
module SelectionRules {
  import opened Wrappers
  import opened Contracts
  import opened Sorting
  import opened ContextSelector
  import opened SelectionLaws

  // ---------------------------------------------------------------- one item

  ghost predicate Covered(grants: seq<Grant>, id: Id) {
    exists k :: 0 <= k < |grants| && id in grants[k].allowedItemIds
  }

  ghost predicate Permitted(input: Input, item: Item) {
    && item.availability.Selectable? && item.sensitivity != Secret
    && (item.sensitivity == Sensitive ==> Covered(input.grants, item.id))
    && input.taskKind in item.allowedKinds
  }

  /** Further behind the current action than the item allows. */
  predicate Outdated(item: Item, current: ActionBinding) {
    && item.binding.BrowserAction? && current.BrowserAction?
    && item.binding.sourceActionSeq + item.maxActionLag < current.sourceActionSeq
  }

  /** The item stems from an action, and that is none before the current one. */
  predicate FromTheFuture(item: Item, current: ActionBinding) {
    && item.binding.BrowserAction?
    && (current.BrowserAction? ==> current.sourceActionSeq < item.binding.sourceActionSeq)
  }

  ghost predicate Usable(input: Input, item: Item) {
    Permitted(input, item) && (Outdated(item, input.current) ==> item.allowStale)
  }

  /** The reason is the first of the objections to the item. */
  ghost predicate Refused(input: Input, item: Item, reason: OmittedReason) {
    if item.availability.Denied? then reason == item.availability.reason
    else if item.sensitivity == Secret then reason == SecretDenied
    else if item.sensitivity == Sensitive && !Covered(input.grants, item.id) then reason == SensitiveNotAuthorized
    else if input.taskKind !in item.allowedKinds then reason == TaskKindMismatch
    else Outdated(item, input.current) && !item.allowStale && reason == StaleNotAllowed
  }

  ghost predicate FreshAs(item: Item, current: ActionBinding, f: Assessment) {
    match f
    case Unbound => item.binding.NotActionBound?
    case Current(source) => item.binding == BrowserAction(source) && current == BrowserAction(source)
    case Historical(source, against) =>
      && item.binding == BrowserAction(source) && current == BrowserAction(against) && source < against
      && !Outdated(item, current)
    case Stale(source, against) =>
      item.binding == BrowserAction(source) && current == BrowserAction(against) && Outdated(item, current)
  }

  /** The terms of the query that the item carries. */
  ghost function Shared(item: Item, terms: set<Id>): set<Id> {
    set t | t in terms
            && (t in item.relevanceTerms || (item.availability.Selectable? && t in item.availability.summaryTerms))
  }

  /** A point for each of the twenty actions after the item's own that have not happened yet. */
  function Nearness(source: nat, against: nat): nat
    requires source <= against
  {
    if against < source + 20 then source + 20 - against else 0
  }

  /** What the item is worth without any term of the query. */
  ghost predicate WorthUnasked(f: Assessment, n: int) {
    match f
    case Current(_) => n == 70
    case Historical(source, against) => source <= against && n == 35 + Nearness(source, against)
    case Unbound => n == 25
    case Stale(source, against) => source <= against && n == 10 + Nearness(source, against)
  }

  /** A sensitive item goes under the first grant, by identifier, that covers it. */
  ghost predicate Discloses(input: Input, item: Item, grant: Option<Id>) {
    if item.sensitivity != Sensitive then grant.None?
    else
      && grant.Some?
      && (exists g :: g in input.grants && g.grantId == grant.value && item.id in g.allowedItemIds)
      && (forall g | g in input.grants && item.id in g.allowedItemIds :: grant.value <= g.grantId)
  }

  /** The candidate describes its own item. */
  ghost predicate Describes(input: Input, c: Candidate) {
    && Usable(input, c.item) && !FromTheFuture(c.item, input.current)
    && FreshAs(c.item, input.current, c.freshness) && Discloses(input, c.item, c.grant)
    && WorthUnasked(c.freshness, c.score - 30 * |Shared(c.item, input.queryTerms)|)
  }

  // ---------------------------------------------------------------- the order of the list

  const RETENTIONS: seq<Retention> :=
    [TaskContract, TaskInput, StructuredState, OutputContract, SafetyPolicy, CausalSlice, Optional]

  ghost predicate KeptBefore(a: Retention, b: Retention) {
    exists i, j :: 0 <= i < j < |RETENTIONS| && RETENTIONS[i] == a && RETENTIONS[j] == b
  }

  function Size(c: Candidate): nat {
    if c.item.tokenEstimate > 0 then c.item.tokenEstimate else 1
  }

  /** More points per token; then more points, then fewer tokens, then the smaller identifier. */
  predicate Outranks(a: Candidate, b: Candidate) {
    var x, y := a.score * Size(b), b.score * Size(a);
    && x >= y
    && (x == y ==>
          && a.score >= b.score
          && (a.score == b.score ==>
                && a.item.tokenEstimate <= b.item.tokenEstimate
                && (a.item.tokenEstimate == b.item.tokenEstimate ==> a.item.id < b.item.id)))
  }

  /** Mandatory items go by retention, points and identifier, and before all optional ones. */
  ghost predicate ListedBefore(a: Candidate, b: Candidate) {
    if a.item.retention == b.item.retention == Optional then Outranks(a, b)
    else if a.item.retention == b.item.retention then
      a.score > b.score || (a.score == b.score && a.item.id < b.item.id)
    else KeptBefore(a.item.retention, b.item.retention)
  }

  // ---------------------------------------------------------------- the whole selection

  ghost function Sum(cs: seq<Candidate>): nat {
    if cs == [] then 0 else cs[0].item.tokenEstimate + Sum(cs[1..])
  }

  /** The candidate would be listed at place `n`. */
  ghost predicate Belongs(selected: seq<Candidate>, c: Candidate, n: int) {
    && 0 <= n <= |selected|
    && forall i | 0 <= i < |selected| :: if i < n then ListedBefore(selected[i], c) else ListedBefore(c, selected[i])
  }

  /** Beside what is listed before it, the candidate would overshoot the budget. */
  ghost predicate Overshoots(input: Input, selected: seq<Candidate>, c: Candidate) {
    exists n ::
      && Belongs(selected, c, n)
      && input.fixedEnvelopeTokens + Sum(selected[..n]) + c.item.tokenEstimate > input.maxInputTokens
  }

  ghost predicate LeftOut(input: Input, s: Selection, o: Omission, item: Item) {
    && item.id == o.id
    && (Refused(input, item, o.reason)
        || (&& o.reason == BudgetExceeded && item.retention == Optional
            && exists c :: Describes(input, c) && c.item == item && Overshoots(input, s.selected, c)))
  }

  /** Each item of the catalog is selected or omitted, once. */
  ghost predicate Partitions(items: seq<Item>, s: Selection) {
    && Distinct(CandidateIds(s.selected) + OmittedIds(s.omitted))
    && forall id :: id in CandidateIds(s.selected) + OmittedIds(s.omitted)
               <==> exists item :: item in items && item.id == id
  }

  /** Usable items only, as they are, in order, and all mandatory ones. */
  ghost predicate ProperlySelected(input: Input, selected: seq<Candidate>) {
    && (forall c | c in selected :: c.item in input.catalog.items && Describes(input, c))
    && (forall item | item in input.catalog.items && item.retention != Optional :: item.id in CandidateIds(selected))
    && (forall i, j | 0 <= i < j < |selected| :: ListedBefore(selected[i], selected[j]))
  }

  /** Each omission for its reason, in the order of the identifiers. */
  ghost predicate ProperlyOmitted(input: Input, s: Selection) {
    && (forall o | o in s.omitted :: exists item :: item in input.catalog.items && LeftOut(input, s, o, item))
    && (forall i, j | 0 <= i < j < |s.omitted| :: s.omitted[i].id < s.omitted[j].id)
  }

  /** The grants that selected items go under, in the order of the identifiers. */
  ghost predicate ProperlyGranted(input: Input, s: Selection) {
    && (forall g :: g in s.grants
               <==> g in input.grants && exists c :: c in s.selected && c.grant == Some(g.grantId))
    && (forall i, j | 0 <= i < j < |s.grants| :: s.grants[i].grantId < s.grants[j].grantId)
  }

  ghost predicate Proper(input: Input, s: Selection) {
    && Partitions(input.catalog.items, s)
    && ProperlySelected(input, s.selected) && ProperlyOmitted(input, s) && ProperlyGranted(input, s)
    && s.tokens == Sum(s.selected) && input.fixedEnvelopeTokens + s.tokens <= input.maxInputTokens
  }

  // ---------------------------------------------------------------- every verdict follows the rules

  ghost predicate FirstCover(grants: seq<Grant>, id: Id, k: int) {
    && 0 <= k < |grants| && id in grants[k].allowedItemIds
    && forall j | 0 <= j < k :: id !in grants[j].allowedItemIds
  }

  lemma {:induction false} CoveringIsFirst(grants: seq<Grant>, id: Id)
    ensures CoveringGrant(grants, id).None? <==> !Covered(grants, id)
    ensures CoveringGrant(grants, id).Some? ==>
              exists k :: FirstCover(grants, id, k) && grants[k].grantId == CoveringGrant(grants, id).value
  {
    if grants != [] {
      var rest := grants[1..];
      CoveringIsFirst(rest, id);
      if id in grants[0].allowedItemIds {
        assert FirstCover(grants, id, 0);
      } else if k :| FirstCover(rest, id, k) {
        assert grants[k + 1] == rest[k];
        assert FirstCover(grants, id, k + 1) by {
          forall j | 0 <= j < k + 1
            ensures id !in grants[j].allowedItemIds
          {
            if j > 0 { assert grants[j] == rest[j - 1]; }
          }
        }
      }
      if k :| 0 <= k < |grants| && id in grants[k].allowedItemIds && k > 0 { assert rest[k - 1] == grants[k]; }
    }
  }

  /** The grants that the selector works with. */
  ghost predicate Normalised(input: Input, grants: seq<Grant>) {
    NormalGrants(input.grants, input.taskId, input.catalog.parentSessionId, input.createdAt) == Ok(grants)
  }

  lemma GrantsListed(input: Input, grants: seq<Grant>)
    requires Normalised(input, grants)
    ensures forall g :: g in grants <==> g in input.grants
    ensures forall i, j | 0 <= i < j < |grants| :: grants[i].grantId < grants[j].grantId
  {
    var given := input.grants;
    SortRearranges(GrantBefore, given);
    forall a, b | a in Elements(given) && b in Elements(given) && a != b
      ensures a.grantId != b.grantId
    {
      var i :| 0 <= i < |given| && given[i] == a;
      var j :| 0 <= j < |given| && given[j] == b;
    }
    SortAscending(GrantBefore, given);
  }

  lemma CoverIsDisclosure(input: Input, grants: seq<Grant>, item: Item)
    requires Normalised(input, grants) && item.sensitivity == Sensitive
    ensures CoveringGrant(grants, item.id).None? <==> !Covered(input.grants, item.id)
    ensures CoveringGrant(grants, item.id).Some? ==> Discloses(input, item, CoveringGrant(grants, item.id))
  {
    GrantsListed(input, grants);
    CoveringIsFirst(grants, item.id);
    SameCover(input.grants, grants, item.id);
    if k :| FirstCover(grants, item.id, k) && CoveringGrant(grants, item.id) == Some(grants[k].grantId) {
      FirstIsLeast(input, grants, item, k);
    }
  }

  lemma SameCover(a: seq<Grant>, b: seq<Grant>, id: Id)
    requires forall g :: g in a <==> g in b
    ensures Covered(a, id) <==> Covered(b, id)
  {
    if k :| 0 <= k < |a| && id in a[k].allowedItemIds { assert a[k] in b; }
    if k :| 0 <= k < |b| && id in b[k].allowedItemIds { assert b[k] in a; }
  }

  lemma FirstIsLeast(input: Input, grants: seq<Grant>, item: Item, k: nat)
    requires FirstCover(grants, item.id, k) && item.sensitivity == Sensitive
    requires forall g :: g in grants <==> g in input.grants
    requires forall i, j | 0 <= i < j < |grants| :: grants[i].grantId < grants[j].grantId
    ensures Discloses(input, item, Some(grants[k].grantId))
  {
    assert grants[k] in input.grants;
    forall g | g in input.grants && item.id in g.allowedItemIds
      ensures grants[k].grantId <= g.grantId
    {
      var j :| 0 <= j < |grants| && grants[j] == g;
    }
  }

  lemma AssessTells(item: Item, current: ActionBinding)
    ensures
      match Assess(item, current)
      case Err(e) => e == InvalidActionSeq && FromTheFuture(item, current)
      case Ok(f) =>
        !FromTheFuture(item, current) && FreshAs(item, current, f) && (f.Stale? <==> Outdated(item, current))
  {
  }

  lemma ScoreTells(item: Item, f: Assessment, terms: set<Id>, current: ActionBinding)
    requires item.availability.Selectable? && FreshAs(item, current, f) && !FromTheFuture(item, current)
    ensures WorthUnasked(f, Score(item, f, terms, current) - 30 * |Shared(item, terms)|)
  {
    assert Shared(item, terms) == terms * (item.relevanceTerms + item.availability.summaryTerms);
  }

  /** What the review of an item answers, said of the item and the input. */
  ghost predicate Tells(input: Input, item: Item, r: Result<Verdict, SelectError>) {
    match r
    case Err(e) => e == InvalidActionSeq && Permitted(input, item) && FromTheFuture(item, input.current)
    case Ok(Omitted(reason)) =>
      Refused(input, item, reason) && (Permitted(input, item) ==> !FromTheFuture(item, input.current))
    case Ok(Eligible(c)) => c.item == item && Describes(input, c)
  }

  lemma PermissionTells(input: Input, grants: seq<Grant>, item: Item)
    requires Normalised(input, grants)
    ensures PermissionReason(item, input.taskKind, grants).None? <==> Permitted(input, item)
    ensures PermissionReason(item, input.taskKind, grants).Some? ==>
              Refused(input, item, PermissionReason(item, input.taskKind, grants).value)
  {
    if item.sensitivity == Sensitive { CoverIsDisclosure(input, grants, item); }
  }

  lemma ReviewTells(input: Input, grants: seq<Grant>, item: Item)
    requires Normalised(input, grants)
    ensures Tells(input, item, Review(ProfileOf(input), grants, item))
  {
    PermissionTells(input, grants, item);
    AssessTells(item, input.current);
    if item.sensitivity == Sensitive { CoverIsDisclosure(input, grants, item); }
    if Permitted(input, item) && !FromTheFuture(item, input.current) {
      ScoreTells(item, Assess(item, input.current).value, input.queryTerms, input.current);
    }
  }

  // ---------------------------------------------------------------- the order

  lemma RelevantOutranks(a: Candidate, b: Candidate)
    ensures RelevantBefore(a, b) <==> Outranks(a, b)
  {
    assert Size(a) == Weight(a) && Size(b) == Weight(b);
  }

  lemma RetentionsInOrder(a: Retention, b: Retention)
    ensures RetentionOrder(a) < RetentionOrder(b) <==> KeptBefore(a, b)
  {
    assert RETENTIONS[RetentionOrder(a)] == a && RETENTIONS[RetentionOrder(b)] == b;
  }

  lemma MandatoryIsListed(a: Candidate, b: Candidate)
    requires a.item.retention != Optional && MandatoryBefore(a, b)
    ensures ListedBefore(a, b)
  {
    RetentionsInOrder(a.item.retention, b.item.retention);
    RetentionsInOrder(b.item.retention, a.item.retention);
  }

  lemma MandatoryBeforeOptional(a: Candidate, b: Candidate)
    requires a.item.retention != Optional && b.item.retention == Optional
    ensures ListedBefore(a, b)
  {
    RetentionsInOrder(a.item.retention, b.item.retention);
  }

  lemma OrderedIsListed(selected: seq<Candidate>)
    requires InOrder(selected)
    ensures forall i, j | 0 <= i < j < |selected| :: ListedBefore(selected[i], selected[j])
  {
    var n: nat :| MandatoryFirst(selected, n);
    forall i, j | 0 <= i < j < |selected|
      ensures ListedBefore(selected[i], selected[j])
    {
      if j < n {
        assert selected[..n][i] == selected[i] && selected[..n][j] == selected[j];
        MandatoryIsListed(selected[i], selected[j]);
      } else if i < n {
        MandatoryBeforeOptional(selected[i], selected[j]);
      } else {
        assert selected[n..][i - n] == selected[i] && selected[n..][j - n] == selected[j];
        RelevantOutranks(selected[i], selected[j]);
      }
    }
  }

  // ---------------------------------------------------------------- the budget

  lemma {:induction false} TokensAreSum(cs: seq<Candidate>)
    ensures Tokens(cs) == Sum(cs)
  {
    if cs != [] {
      TokensAppend([cs[0]], cs[1..]);
      assert cs == [cs[0]] + cs[1..];
      TokensAreSum(cs[1..]);
      assert Tokens([cs[0]]) == cs[0].item.tokenEstimate by { assert [cs[0]][..0] == []; }
    }
  }

  /** Where the candidate would stand among the taken ones, and what is before it. */
  ghost predicate StandsAt(taken: seq<Candidate>, c: Candidate, n: nat) {
    && n <= |taken|
    && (forall i | 0 <= i < n :: RelevantBefore(taken[i], c))
    && (forall i | n <= i < |taken| :: RelevantBefore(c, taken[i]))
  }

  lemma {:induction false} LeftOvershoots(cs: seq<Candidate>, used: nat, available: nat, c: Candidate) returns (n: nat)
    requires Ascending(RelevantBefore, cs) && used <= available && c in Pack(cs, used, available).left
    ensures
      var taken := Pack(cs, used, available).taken;
      StandsAt(taken, c, n) && used + Tokens(taken[..n]) + c.item.tokenEstimate > available
  {
    var last := |cs| - 1;
    var front, p := cs[..last], Pack(cs[..last], used, available);
    TakenInOrder(front, used, available);
    PackingIsMaximal(front, used, available);
    if c in p.left {
      n := LeftOvershoots(front, used, available, c);
      LeftComesFrom(front, used, available, c);
      var i :| 0 <= i < |front| && front[i] == c;
      assert RelevantBefore(cs[i], cs[last]);
      assert (p.taken + [cs[last]])[..n] == p.taken[..n];
    } else {
      n := |p.taken|;
      assert p.taken[..n] == p.taken;
      forall i | 0 <= i < n
        ensures RelevantBefore(p.taken[i], c)
      {
        assert p.taken[i] in front;
        var j :| 0 <= j < |front| && front[j] == p.taken[i];
        assert RelevantBefore(cs[j], cs[last]);
      }
    }
  }

  lemma {:induction false} LeftComesFrom(cs: seq<Candidate>, used: nat, available: nat, c: Candidate)
    ensures c in Pack(cs, used, available).left ==> c in cs
  {
    if cs != [] {
      LeftComesFrom(cs[..|cs| - 1], used, available, c);
    }
  }

  lemma Overshot(input: Input, mandatory: seq<Candidate>, taken: seq<Candidate>, c: Candidate, n: nat)
    requires (forall m | m in mandatory :: m.item.retention != Optional) && c.item.retention == Optional
    requires (forall m | m in taken :: m.item.retention == Optional) && StandsAt(taken, c, n)
    requires input.fixedEnvelopeTokens + Tokens(mandatory) + Tokens(taken[..n]) + c.item.tokenEstimate
             > input.maxInputTokens
    ensures Overshoots(input, mandatory + taken, c)
  {
    var selected, k := mandatory + taken, |mandatory| + n;
    assert selected[..k] == mandatory + taken[..n];
    TokensAppend(mandatory, taken[..n]);
    TokensAreSum(selected[..k]);
    assert Belongs(selected, c, k) by {
      BelongsBehind(mandatory, taken, c, n);
    }
  }

  lemma BelongsBehind(mandatory: seq<Candidate>, taken: seq<Candidate>, c: Candidate, n: nat)
    requires (forall m | m in mandatory :: m.item.retention != Optional) && c.item.retention == Optional
    requires (forall m | m in taken :: m.item.retention == Optional) && StandsAt(taken, c, n)
    ensures Belongs(mandatory + taken, c, |mandatory| + n)
  {
    var selected, k := mandatory + taken, |mandatory| + n;
    forall i | 0 <= i < |selected|
      ensures if i < k then ListedBefore(selected[i], c) else ListedBefore(c, selected[i])
    {
      if i < |mandatory| {
        assert selected[i] in mandatory;
        MandatoryBeforeOptional(selected[i], c);
      } else {
        assert selected[i] == taken[i - |mandatory|] && selected[i] in taken;
        RelevantOutranks(selected[i], c);
        RelevantOutranks(c, selected[i]);
      }
    }
  }

  lemma LeftForBudget(input: Input, items: seq<Item>, verdicts: seq<Verdict>, available: nat, c: Candidate)
    requires FromItems(items, verdicts) && UniqueItems(items) && Leaves(input, available)
    requires Tokens(SortBy(MandatoryBefore, Mandatory(verdicts))) <= available
    requires c in OptionalOnes(verdicts) && c !in Chosen(verdicts, available)
    ensures c.item.retention == Optional && Overshoots(input, Chosen(verdicts, available), c)
  {
    var mandatory := SortBy(MandatoryBefore, Mandatory(verdicts));
    var optional := SortBy(RelevantBefore, OptionalOnes(verdicts));
    var p := Pack(optional, Tokens(mandatory), available);
    MandatoryInOrder(items, verdicts);
    OptionalInOrder(items, verdicts);
    SortRearranges(RelevantBefore, OptionalOnes(verdicts));
    OptionalExactly(items, verdicts);
    SortKeepsCandidates(RelevantBefore, OptionalOnes(verdicts));
    PackingSplits(optional, Tokens(mandatory), available);
    TakenInOrder(optional, Tokens(mandatory), available);
    assert c in p.left;
    var n := LeftOvershoots(optional, Tokens(mandatory), available, c);
    Overshot(input, mandatory, p.taken, c, n);
  }

  // ---------------------------------------------------------------- every selection follows the rules

  lemma {:induction false} OmissionsAscend(items: seq<Item>, verdicts: seq<Verdict>, chosen: set<Id>)
    requires |items| == |verdicts| && Ascending(ById, items)
    ensures
      var os := Omissions(items, verdicts, chosen);
      forall i, j | 0 <= i < j < |os| :: os[i].id < os[j].id
  {
    if items != [] {
      var n := |items| - 1;
      OmissionsAscend(items[..n], verdicts[..n], chosen);
      var front := Omissions(items[..n], verdicts[..n], chosen);
      forall i | 0 <= i < |front|
        ensures front[i].id < items[n].id
      {
        OmissionsMember(items[..n], verdicts[..n], chosen, front[i]);
        var k: nat :| OmittedAt(items[..n], verdicts[..n], chosen, front[i], k);
        assert ById(items[k], items[n]);
      }
    }
  }

  lemma {:induction false} KeptMembers(grants: seq<Grant>, used: set<Id>)
    ensures forall g :: g in KeepGrants(grants, used) <==> g in grants && g.grantId in used
  {
    if grants != [] {
      var n := |grants| - 1;
      KeptMembers(grants[..n], used);
      assert grants == grants[..n] + [grants[n]];
    }
  }

  lemma AscendingAppend<T(!new)>(less: Order<T>, xs: seq<T>, x: T)
    requires Ascending(less, xs) && forall y | y in xs :: less(y, x)
    ensures Ascending(less, xs + [x])
  {
  }

  lemma {:induction false} KeptAscend(grants: seq<Grant>, used: set<Id>)
    requires Ascending(GrantBefore, grants)
    ensures Ascending(GrantBefore, KeepGrants(grants, used))
  {
    if grants != [] {
      var n := |grants| - 1;
      KeptAscend(grants[..n], used);
      KeptMembers(grants[..n], used);
      forall g | g in grants[..n]
        ensures GrantBefore(g, grants[n])
      {
        var k :| 0 <= k < n && grants[..n][k] == g;
        assert GrantBefore(grants[k], grants[n]);
      }
      AscendingAppend(GrantBefore, KeepGrants(grants[..n], used), grants[n]);
    }
  }

  lemma CatalogAscends(c: Catalog, items: seq<Item>)
    requires CatalogItems(c) == Ok(items)
    ensures Ascending(ById, items) && UniqueItems(items) && multiset(items) == multiset(c.items)
    ensures forall item :: item in items <==> item in c.items
  {
    SortRearranges(ById, c.items);
    CatalogErrorFree(items, {}, c.parentRunId, c.parentSessionId);
    UniqueRearranged(items, c.items);
    ItemsAreTotal(c.items);
    SortAscending(ById, c.items);
  }

  lemma UniqueRearranged(items: seq<Item>, other: seq<Item>)
    requires UniqueItems(items) && multiset(items) == multiset(other)
    ensures UniqueItems(other)
  {
    ItemsAreTotal(items);
    DistinctFollowsMultiset(items, other);
    SameMultiset(items, other);
    forall i, j | 0 <= i < j < |other|
      ensures other[i].id != other[j].id
    {
      assert other[i] in items && other[j] in items;
      var a :| 0 <= a < |items| && items[a] == other[i];
      var b :| 0 <= b < |items| && items[b] == other[j];
    }
  }

  lemma PartitionOf(items: seq<Item>, other: seq<Item>, s: Selection)
    requires ExactPartition(items, s) && forall item :: item in items <==> item in other
    ensures Partitions(other, s)
  {
    var ids := CandidateIds(s.selected) + OmittedIds(s.omitted);
    SameMultiset(ids, ItemIds(items));
    forall id
      ensures id in ids <==> exists item :: item in other && item.id == id
    {
      if id in ids {
        var i :| 0 <= i < |items| && ItemIds(items)[i] == id;
        assert items[i] in other;
      }
      if item :| item in other && item.id == id {
        var i :| 0 <= i < |items| && items[i] == item;
        assert ItemIds(items)[i] == id;
      }
    }
  }

  /** The verdicts of a selection, said of the input. */
  lemma VerdictsTell(input: Input, grants: seq<Grant>, items: seq<Item>, verdicts: seq<Verdict>)
    requires SelectedFrom(input, grants, items, verdicts)
    ensures forall i | 0 <= i < |items| :: Tells(input, items[i], Ok(verdicts[i]))
  {
    forall i | 0 <= i < |items|
      ensures Tells(input, items[i], Ok(verdicts[i]))
    {
      ReviewTells(input, grants, items[i]);
    }
  }

  lemma ChosenDescribe(input: Input, grants: seq<Grant>, items: seq<Item>, verdicts: seq<Verdict>, available: nat)
    requires SelectedFrom(input, grants, items, verdicts)
    ensures forall c | c in Chosen(verdicts, available) :: c.item in items && Describes(input, c)
  {
    SelectionInputs(input, grants, items, verdicts);
    ChosenAreEligible(items, verdicts, available);
    VerdictsTell(input, grants, items, verdicts);
    forall c | c in Chosen(verdicts, available)
      ensures c.item in items && Describes(input, c)
    {
      var i :| 0 <= i < |items| && verdicts[i] == Eligible(c);
      assert Tells(input, items[i], Ok(verdicts[i])) && items[i] in items;
    }
  }

  lemma OmittedProperly(input: Input, grants: seq<Grant>, items: seq<Item>, verdicts: seq<Verdict>, available: nat,
                        s: Selection, o: Omission)
    requires SelectedFrom(input, grants, items, verdicts) && Leaves(input, available)
    requires Tokens(SortBy(MandatoryBefore, Mandatory(verdicts))) <= available
    requires s.selected == Chosen(verdicts, available)
    requires o in Omissions(items, verdicts, Elements(CandidateIds(s.selected)))
    ensures exists item :: item in items && LeftOut(input, s, o, item)
  {
    SelectionInputs(input, grants, items, verdicts);
    VerdictsTell(input, grants, items, verdicts);
    var i := OmittedItem(items, verdicts, Elements(CandidateIds(s.selected)), o);
    assert Tells(input, items[i], Ok(verdicts[i]));
    assert items[i] in items;
    if verdicts[i].Eligible? {
      var c := verdicts[i].candidate;
      ChosenAreEligible(items, verdicts, available);
      ListedById(s.selected, c);
      OptionalExactly(items, verdicts);
      LeftForBudget(input, items, verdicts, available, c);
    }
    assert LeftOut(input, s, o, items[i]);
  }

  lemma UsedExactly(input: Input, selected: seq<Candidate>)
    requires forall c | c in selected :: Describes(input, c)
    ensures forall id :: id in UsedGrantIds(selected) <==> exists c :: c in selected && c.grant == Some(id)
  {
    forall id
      ensures id in UsedGrantIds(selected) <==> exists c :: c in selected && c.grant == Some(id)
    {
      if c :| c in selected && c.grant == Some(id) {
        var i :| 0 <= i < |selected| && selected[i] == c;
        assert Discloses(input, c.item, c.grant);
      }
      if i :| 0 <= i < |selected| && selected[i].item.sensitivity == Sensitive && selected[i].grant == Some(id) {
        assert selected[i] in selected;
      }
    }
  }

  lemma GrantsUsed(input: Input, grants: seq<Grant>, s: Selection)
    requires Normalised(input, grants) && forall c | c in s.selected :: Describes(input, c)
    requires s.grants == KeepGrants(grants, UsedGrantIds(s.selected))
    ensures ProperlyGranted(input, s)
  {
    GrantsListed(input, grants);
    KeptMembers(grants, UsedGrantIds(s.selected));
    assert Ascending(GrantBefore, grants);
    KeptAscend(grants, UsedGrantIds(s.selected));
    UsedExactly(input, s.selected);
    assert forall i, j | 0 <= i < j < |s.grants| :: GrantBefore(s.grants[i], s.grants[j]);
  }

  lemma SelectedFollow(input: Input, grants: seq<Grant>, items: seq<Item>, verdicts: seq<Verdict>, available: nat)
    requires SelectedFrom(input, grants, items, verdicts) && !DeniedMandatory(items, verdicts)
    requires forall item :: item in items <==> item in input.catalog.items
    ensures ProperlySelected(input, Chosen(verdicts, available))
  {
    SelectionInputs(input, grants, items, verdicts);
    OutcomeIsProper(input, grants, items, verdicts, available);
    ChosenDescribe(input, grants, items, verdicts, available);
    ChosenAreInOrder(items, verdicts, available);
    OrderedIsListed(Chosen(verdicts, available));
  }

  lemma OmittedFollow(input: Input, grants: seq<Grant>, items: seq<Item>, verdicts: seq<Verdict>, available: nat,
                      s: Selection)
    requires SelectedFrom(input, grants, items, verdicts) && Leaves(input, available) && Ascending(ById, items)
    requires forall item :: item in items <==> item in input.catalog.items
    requires Tokens(SortBy(MandatoryBefore, Mandatory(verdicts))) <= available
    requires s.selected == Chosen(verdicts, available)
    requires s.omitted == Omissions(items, verdicts, Elements(CandidateIds(s.selected)))
    ensures ProperlyOmitted(input, s)
  {
    OmissionsAscend(items, verdicts, Elements(CandidateIds(s.selected)));
    forall o | o in s.omitted
      ensures exists item :: item in input.catalog.items && LeftOut(input, s, o, item)
    {
      OmittedProperly(input, grants, items, verdicts, available, s, o);
    }
  }

  lemma BudgetFollows(input: Input, grants: seq<Grant>, items: seq<Item>, verdicts: seq<Verdict>, available: nat)
    requires SelectedFrom(input, grants, items, verdicts) && Leaves(input, available)
    requires Tokens(SortBy(MandatoryBefore, Mandatory(verdicts))) <= available
    ensures input.fixedEnvelopeTokens + Sum(Chosen(verdicts, available)) <= input.maxInputTokens
  {
    MandatorySum(verdicts, available);
    TokensAreSum(Chosen(verdicts, available));
  }

  lemma SelectsProperly(input: Input)
    requires Select(input).Ok?
    ensures ProperlySelected(input, Select(input).value.selected)
  {
    var j, available := SelectedOutcome(input);
    CatalogAscends(input.catalog, j.items);
    SelectedFollow(input, j.grants, j.items, j.verdicts, available);
  }

  lemma OmitsProperly(input: Input)
    requires Select(input).Ok?
    ensures ProperlyOmitted(input, Select(input).value)
  {
    var j, available := SelectedOutcome(input);
    CatalogAscends(input.catalog, j.items);
    OmittedFollow(input, j.grants, j.items, j.verdicts, available, Select(input).value);
  }

  lemma GrantsProperly(input: Input)
    requires Select(input).Ok?
    ensures ProperlyGranted(input, Select(input).value)
  {
    var j, available := SelectedOutcome(input);
    ChosenDescribe(input, j.grants, j.items, j.verdicts, available);
    GrantsUsed(input, j.grants, Select(input).value);
  }

  lemma PartitionsProperly(input: Input)
    requires Select(input).Ok?
    ensures Partitions(input.catalog.items, Select(input).value)
  {
    var j, available := SelectedOutcome(input);
    CatalogAscends(input.catalog, j.items);
    OutcomeIsPartition(input, j.grants, j.items, j.verdicts, available);
    PartitionOf(j.items, input.catalog.items, Select(input).value);
  }

  lemma SpendsProperly(input: Input)
    requires Select(input).Ok?
    ensures
      var s := Select(input).value;
      s.tokens == Sum(s.selected) && input.fixedEnvelopeTokens + s.tokens <= input.maxInputTokens
  {
    var j, available := SelectedOutcome(input);
    BudgetFollows(input, j.grants, j.items, j.verdicts, available);
    TokensAreSum(Select(input).value.selected);
  }

  /** Every successful selection follows the rules. */
  lemma SelectionFollowsRules(input: Input)
    requires Select(input).Ok?
    ensures Proper(input, Select(input).value)
  {
    PartitionsProperly(input);
    SelectsProperly(input);
    OmitsProperly(input);
    GrantsProperly(input);
    SpendsProperly(input);
  }

  // ---------------------------------------------------------------- the rules have one solution

  lemma ListingIsTotal(a: Candidate, b: Candidate)
    ensures !(ListedBefore(a, b) && ListedBefore(b, a))
    ensures a.item.id != b.item.id ==> ListedBefore(a, b) || ListedBefore(b, a)
  {
    RetentionsInOrder(a.item.retention, b.item.retention);
    RetentionsInOrder(b.item.retention, a.item.retention);
  }

  /** The item and the input determine the candidate. */
  lemma DescriptionIsUnique(input: Input, c: Candidate, d: Candidate)
    requires Describes(input, c) && Describes(input, d) && c.item == d.item
    ensures c == d
  {
    if c.item.sensitivity == Sensitive {
      var g :| g in input.grants && Some(g.grantId) == c.grant && c.item.id in g.allowedItemIds;
      var h :| h in input.grants && Some(h.grantId) == d.grant && d.item.id in h.allowedItemIds;
    }
  }

  lemma {:induction false} SumOfPrefix(cs: seq<Candidate>, k: nat)
    requires k < |cs|
    ensures Sum(cs[..k]) + cs[k].item.tokenEstimate <= Sum(cs)
  {
    if k > 0 {
      assert cs[..k][1..] == cs[1..][..k - 1];
      SumOfPrefix(cs[1..], k - 1);
    }
  }

  lemma UsableIsNotRefused(input: Input, item: Item, reason: OmittedReason)
    requires Usable(input, item)
    ensures !Refused(input, item, reason)
  {
  }

  /** What is listed is not omitted, and what is not listed is. */
  lemma EitherWay(input: Input, s: Selection, item: Item)
    requires Partitions(input.catalog.items, s) && item in input.catalog.items && item.id !in CandidateIds(s.selected)
    ensures exists o :: o in s.omitted && o.id == item.id
  {
    assert item.id in CandidateIds(s.selected) + OmittedIds(s.omitted);
    var k :| 0 <= k < |s.omitted| && OmittedIds(s.omitted)[k] == item.id;
    assert s.omitted[k] in s.omitted;
  }

  /** A usable item that is not selected would overshoot where it stands. */
  lemma AbsentOvershoots(input: Input, s: Selection, c: Candidate)
    requires Proper(input, s) && UniqueItems(input.catalog.items) && Describes(input, c)
    requires c.item in input.catalog.items && c.item.id !in CandidateIds(s.selected)
    ensures Overshoots(input, s.selected, c)
  {
    EitherWay(input, s, c.item);
    var o :| o in s.omitted && o.id == c.item.id;
    var item :| item in input.catalog.items && LeftOut(input, s, o, item);
    SameIdSameItem(input.catalog.items, item, c.item);
    UsableIsNotRefused(input, item, o.reason);
    var d :| Describes(input, d) && d.item == item && Overshoots(input, s.selected, d);
    DescriptionIsUnique(input, c, d);
  }

  lemma SameIdSameItem(items: seq<Item>, a: Item, b: Item)
    requires UniqueItems(items) && a in items && b in items && a.id == b.id
    ensures a == b
  {
    var i :| 0 <= i < |items| && items[i] == a;
    var j :| 0 <= j < |items| && items[j] == b;
  }

  /** The lists agree up to `k`, and `c` is the next of the first; the second has nothing, or something later, there. */
  ghost predicate Departs(a: seq<Candidate>, b: seq<Candidate>, k: nat) {
    && k < |a| && k <= |b| && a[..k] == b[..k] && (k < |b| ==> ListedBefore(a[k], b[k]))
  }

  lemma DepartureIsAbsent(a: seq<Candidate>, b: seq<Candidate>, k: nat)
    requires Departs(a, b, k)
    requires forall i, j | 0 <= i < j < |a| :: ListedBefore(a[i], a[j])
    requires forall i, j | 0 <= i < j < |b| :: ListedBefore(b[i], b[j])
    ensures forall i | 0 <= i < k :: ListedBefore(b[i], a[k]) && !ListedBefore(a[k], b[i])
    ensures k < |b| ==> ListedBefore(a[k], b[k]) && !ListedBefore(b[k], a[k])
    ensures a[k] !in b
  {
    forall i | 0 <= i < |b|
      ensures b[i] != a[k] && (i < k ==> ListedBefore(b[i], a[k]) && !ListedBefore(a[k], b[i]))
      ensures i == k ==> !ListedBefore(b[i], a[k])
    {
      if i < k {
        assert b[i] == a[..k][i];
        ListingIsTotal(a[i], a[k]);
      } else {
        ListingIsTotal(a[k], b[k]);
        if i > k { ListingIsTotal(b[k], b[i]); }
      }
    }
  }

  lemma DeparturePlace(a: seq<Candidate>, b: seq<Candidate>, k: nat, n: int)
    requires Departs(a, b, k) && Belongs(b, a[k], n)
    requires forall i, j | 0 <= i < j < |a| :: ListedBefore(a[i], a[j])
    requires forall i, j | 0 <= i < j < |b| :: ListedBefore(b[i], b[j])
    ensures n == k
  {
    DepartureIsAbsent(a, b, k);
    if n < |b| { BelongsAt(b, a[k], n, n); }
    if k < |b| { BelongsAt(b, a[k], n, k); }
  }

  lemma BelongsAt(selected: seq<Candidate>, c: Candidate, n: int, i: nat)
    requires Belongs(selected, c, n) && i < |selected|
    ensures if i < n then ListedBefore(selected[i], c) else ListedBefore(c, selected[i])
  {
  }

  /** At the first difference the one selection would have overshot, or the other left out what fits. */
  lemma NoDeparture(input: Input, s: Selection, t: Selection, k: nat)
    requires UniqueItems(input.catalog.items) && Proper(input, s) && Proper(input, t)
    ensures !Departs(s.selected, t.selected, k)
  {
    if Departs(s.selected, t.selected, k) {
      var a, b := s.selected, t.selected;
      DepartureIsAbsent(a, b, k);
      assert a[k] in a;
      AbsentById(input, b, a[k]);
      AbsentOvershoots(input, t, a[k]);
      FitsAfterAll(input, a, b, k);
      assert false;
    }
  }

  lemma FitsAfterAll(input: Input, a: seq<Candidate>, b: seq<Candidate>, k: nat)
    requires Departs(a, b, k) && input.fixedEnvelopeTokens + Sum(a) <= input.maxInputTokens
    requires forall i, j | 0 <= i < j < |a| :: ListedBefore(a[i], a[j])
    requires forall i, j | 0 <= i < j < |b| :: ListedBefore(b[i], b[j])
    ensures !Overshoots(input, b, a[k])
  {
    SumOfPrefix(a, k);
    forall n | Belongs(b, a[k], n)
      ensures n == k
    {
      DeparturePlace(a, b, k, n);
    }
  }

  lemma AbsentById(input: Input, selected: seq<Candidate>, c: Candidate)
    requires UniqueItems(input.catalog.items) && ProperlySelected(input, selected) && Describes(input, c)
    requires c.item in input.catalog.items && c !in selected
    ensures c.item.id !in CandidateIds(selected)
  {
    if i :| 0 <= i < |selected| && CandidateIds(selected)[i] == c.item.id {
      assert selected[i] in selected;
      SameIdSameItem(input.catalog.items, selected[i].item, c.item);
      DescriptionIsUnique(input, selected[i], c);
    }
  }

  lemma SameNext(input: Input, s: Selection, t: Selection, k: nat)
    requires UniqueItems(input.catalog.items) && Proper(input, s) && Proper(input, t)
    requires k < |s.selected| && k < |t.selected| && s.selected[..k] == t.selected[..k]
    ensures s.selected[k] == t.selected[k]
  {
    var c, d := s.selected[k], t.selected[k];
    NoDeparture(input, s, t, k);
    NoDeparture(input, t, s, k);
    ListingIsTotal(c, d);
    SameDescribed(input, s.selected, t.selected, k);
  }

  lemma SameDescribed(input: Input, a: seq<Candidate>, b: seq<Candidate>, k: nat)
    requires UniqueItems(input.catalog.items) && ProperlySelected(input, a) && ProperlySelected(input, b)
    requires k < |a| && k < |b| && a[k].item.id == b[k].item.id
    ensures a[k] == b[k]
  {
    assert a[k] in a && b[k] in b;
    SameIdSameItem(input.catalog.items, a[k].item, b[k].item);
    DescriptionIsUnique(input, a[k], b[k]);
  }

  lemma {:induction false} SameUpTo(input: Input, s: Selection, t: Selection, k: nat)
    requires UniqueItems(input.catalog.items) && Proper(input, s) && Proper(input, t)
    requires k <= |s.selected| && k <= |t.selected|
    ensures s.selected[..k] == t.selected[..k]
  {
    if k > 0 {
      SameUpTo(input, s, t, k - 1);
      SameNext(input, s, t, k - 1);
      PrefixGrows(s.selected, t.selected, k);
    }
  }

  lemma PrefixGrows(a: seq<Candidate>, b: seq<Candidate>, k: nat)
    requires 0 < k <= |a| && k <= |b| && a[..k - 1] == b[..k - 1] && a[k - 1] == b[k - 1]
    ensures a[..k] == b[..k]
  {
    assert a[..k] == a[..k - 1] + [a[k - 1]] && b[..k] == b[..k - 1] + [b[k - 1]];
  }

  lemma SameSelected(input: Input, s: Selection, t: Selection)
    requires UniqueItems(input.catalog.items) && Proper(input, s) && Proper(input, t)
    ensures s.selected == t.selected
  {
    var n := if |s.selected| <= |t.selected| then |s.selected| else |t.selected|;
    SameUpTo(input, s, t, n);
    if n < |t.selected| { NoDeparture(input, t, s, n); }
    if n < |s.selected| { NoDeparture(input, s, t, n); }
    assert s.selected[..n] == s.selected && t.selected[..n] == t.selected;
  }

  predicate OmittedBefore(a: Omission, b: Omission) {
    a.id < b.id
  }

  lemma {:induction false} SameAscending<T(!new)>(less: Order<T>, xs: seq<T>, ys: seq<T>)
    requires forall a, b :: !(less(a, b) && less(b, a))
    requires Ascending(less, xs) && Ascending(less, ys) && forall x :: x in xs <==> x in ys
    ensures xs == ys
  {
    if xs != [] { assert xs[0] in ys; }
    if ys != [] { assert ys[0] in xs; }
    if xs != [] {
      SameFirst(less, xs, ys);
      forall x
        ensures x in xs[1..] <==> x in ys[1..]
      {
        InRest(less, xs, x);
        InRest(less, ys, x);
      }
      SameAscending(less, xs[1..], ys[1..]);
    }
  }

  lemma SameFirst<T(!new)>(less: Order<T>, xs: seq<T>, ys: seq<T>)
    requires forall a, b :: !(less(a, b) && less(b, a))
    requires Ascending(less, xs) && Ascending(less, ys) && (forall x :: x in xs <==> x in ys) && xs != [] && ys != []
    ensures xs[0] == ys[0]
  {
    assert xs[0] in ys && ys[0] in xs;
    var i :| 0 <= i < |ys| && ys[i] == xs[0];
    var j :| 0 <= j < |xs| && xs[j] == ys[0];
  }

  lemma InRest<T(!new)>(less: Order<T>, xs: seq<T>, x: T)
    requires (forall a, b :: !(less(a, b) && less(b, a))) && Ascending(less, xs) && xs != []
    ensures x in xs[1..] <==> x in xs && x != xs[0]
  {
    assert xs == [xs[0]] + xs[1..];
    forall i | 0 < i < |xs|
      ensures xs[i] != xs[0]
    {
      assert less(xs[0], xs[i]);
    }
  }

  /** An item has one reason to be left out. */
  lemma SameReason(input: Input, s: Selection, t: Selection, o: Omission, item: Item, p: Omission)
    requires LeftOut(input, s, o, item) && LeftOut(input, t, p, item)
    ensures o == p
  {
    if Usable(input, item) {
      UsableIsNotRefused(input, item, o.reason);
      UsableIsNotRefused(input, item, p.reason);
    }
  }

  lemma OmittedInBoth(input: Input, s: Selection, t: Selection, o: Omission)
    requires UniqueItems(input.catalog.items) && Proper(input, s) && Proper(input, t) && s.selected == t.selected
    requires o in s.omitted
    ensures o in t.omitted
  {
    var item :| item in input.catalog.items && LeftOut(input, s, o, item);
    OmittedIsNotSelected(s, o);
    EitherWay(input, t, item);
    var p :| p in t.omitted && p.id == item.id;
    var other :| other in input.catalog.items && LeftOut(input, t, p, other);
    SameIdSameItem(input.catalog.items, item, other);
    SameReason(input, s, t, o, item, p);
  }

  lemma OmittedIsNotSelected(s: Selection, o: Omission)
    requires Distinct(CandidateIds(s.selected) + OmittedIds(s.omitted)) && o in s.omitted
    ensures o.id !in CandidateIds(s.selected)
  {
    var all := CandidateIds(s.selected) + OmittedIds(s.omitted);
    var k :| 0 <= k < |s.omitted| && s.omitted[k] == o;
    assert all[|s.selected| + k] == o.id;
    forall i | 0 <= i < |s.selected|
      ensures CandidateIds(s.selected)[i] != o.id
    {
      assert all[i] == CandidateIds(s.selected)[i];
    }
  }

  /** No two selections follow the rules for the same input. */
  lemma RulesDetermineSelection(input: Input, s: Selection, t: Selection)
    requires UniqueItems(input.catalog.items) && Proper(input, s) && Proper(input, t)
    ensures s == t
  {
    SameSelected(input, s, t);
    forall o
      ensures o in s.omitted <==> o in t.omitted
    {
      if o in s.omitted { OmittedInBoth(input, s, t, o); }
      if o in t.omitted { OmittedInBoth(input, t, s, o); }
    }
    SameAscending(OmittedBefore, s.omitted, t.omitted);
    SameAscending(GrantBefore, s.grants, t.grants);
  }
}
