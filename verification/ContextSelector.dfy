/**
 Budgeted context selection (packages/web-buddy/src/agents/context-selector.ts:66-239, 357-423
 and the catalog it reads, packages/web-buddy/src/agents/context-catalog.ts:249-287).
 Identifiers are naturals and `localeCompare` on them is `<`; words are identifiers too; token
 arithmetic is exact. Shape checks of the input objects are left out.
 */
module ContextSelector {
  import opened Wrappers
  import opened Contracts
  import opened Sorting

  datatype Sensitivity = Public | User | Sensitive | Secret

  datatype Retention =
    | TaskContract | TaskInput | StructuredState | OutputContract | SafetyPolicy | CausalSlice | Optional

  /** `RETENTION_ORDER`. */
  function RetentionOrder(r: Retention): nat {
    match r
    case TaskContract => 0
    case TaskInput => 1
    case StructuredState => 2
    case OutputContract => 3
    case SafetyPolicy => 4
    case CausalSlice => 5
    case Optional => 6
  }

  datatype OmittedReason =
    | CapabilityDenied | LivePageDenied | FullHistoryDenied | MutableRefDenied | IncompleteToolExchange
    | SecretDenied | SensitiveNotAuthorized | TaskKindMismatch | StaleNotAllowed | BudgetExceeded

  datatype SelectError =
    | MissingRequiredContext | DuplicateContextId | OverBudget | InvalidActionSeq | NotAuthorized | SecretSelected
    | InvalidArtifactRef | IncompleteExchange | LiveCapabilityForbidden

  datatype ArtifactKind = ToolCall | ToolResult | SchemaArtifact | OtherArtifact

  datatype ArtifactRef = ArtifactRef(artifactId: Id, runId: Id, sessionId: Id, kind: ArtifactKind,
                                     binding: ActionBinding)

  /** The content of an item: a projection of artifacts, or a tool call with its result. */
  datatype Unit =
    | Projection(artifacts: seq<ArtifactRef>)
    | ToolExchange(call: ArtifactRef, result: ArtifactRef, summaryArtifacts: seq<ArtifactRef>)

  /** `DENIED_REASONS`: what the catalog itself may refuse an item for. */
  type DeniedReason = r: OmittedReason |
    r.CapabilityDenied? || r.LivePageDenied? || r.FullHistoryDenied? || r.MutableRefDenied? || r.IncompleteToolExchange?
    witness CapabilityDenied

  datatype Availability = Selectable(summaryTerms: set<Id>, unit: Unit) | Denied(reason: DeniedReason)

  datatype Item = Item(
    id: Id, sensitivity: Sensitivity, allowedKinds: set<TaskKind>, tokenEstimate: nat, retention: Retention,
    binding: ActionBinding, relevanceTerms: set<Id>, maxActionLag: nat, allowStale: bool,
    provenanceRefs: seq<ArtifactRef>, availability: Availability)

  /** SHA-256 of the printed identifiers, or any other digest. */
  datatype Digest = DigestOf(ids: seq<Id>) | OtherDigest(text: string)

  datatype Manifest = Manifest(revision: nat, ids: seq<Id>, count: nat, digest: Digest)

  datatype Catalog = Catalog(parentRunId: Id, parentSessionId: Id, revision: nat, items: seq<Item>, manifest: Manifest)

  datatype Grant = Grant(grantId: Id, sessionId: Id, taskId: Id, allowedItemIds: set<Id>, issuedAt: Time,
                         expiresAt: Time)

  datatype Input = Input(
    catalog: Catalog, taskId: Id, taskKind: TaskKind, createdAt: Time, current: ActionBinding,
    queryTerms: set<Id>, maxInputTokens: nat, fixedEnvelopeTokens: nat, grants: seq<Grant>)

  datatype Assessment =
    | Unbound | Current(source: nat) | Historical(source: nat, against: nat) | Stale(source: nat, against: nat)

  datatype Candidate = Candidate(item: Item, freshness: Assessment, grant: Option<Id>, score: nat)

  datatype Omission = Omission(id: Id, reason: OmittedReason)

  datatype Selection = Selection(selected: seq<Candidate>, omitted: seq<Omission>, grants: seq<Grant>, tokens: nat)

  // ---------------------------------------------------------------- the catalog

  predicate ById(a: Item, b: Item) {
    a.id < b.id
  }

  predicate OwnedRefs(refs: seq<ArtifactRef>, runId: Id, sessionId: Id) {
    forall i | 0 <= i < |refs| :: refs[i].runId == runId && refs[i].sessionId == sessionId
  }

  /** `artifactRefsForContextUnit`. */
  function UnitRefs(u: Unit): seq<ArtifactRef> {
    match u
    case Projection(artifacts) => artifacts
    case ToolExchange(call, result, summaryArtifacts) => [call, result] + summaryArtifacts
  }

  /** `artifactRefsForCatalogItem`. */
  function ItemRefs(item: Item): seq<ArtifactRef> {
    item.provenanceRefs + if item.availability.Selectable? then UnitRefs(item.availability.unit) else []
  }

  /** A tool exchange is a call with its result, both bound to one action. */
  predicate WholeUnit(u: Unit) {
    u.ToolExchange? ==> u.call.kind == ToolCall && u.result.kind == ToolResult && u.call.binding == u.result.binding
  }

  predicate WholeItem(item: Item) {
    item.availability.Selectable? ==> WholeUnit(item.availability.unit)
  }

  /** The first thing the catalog loop objects to. */
  function CatalogError(items: seq<Item>, seen: set<Id>, runId: Id, sessionId: Id): Option<SelectError> {
    if items == [] then None
    else if items[0].id in seen then Some(DuplicateContextId)
    else if !OwnedRefs(ItemRefs(items[0]), runId, sessionId) then Some(InvalidArtifactRef)
    else CatalogError(items[1..], seen + {items[0].id}, runId, sessionId)
  }

  /** The loop of `createContextCatalog`. */
  method CheckCatalog(items: seq<Item>, runId: Id, sessionId: Id) returns (e: Option<SelectError>)
    ensures e == CatalogError(items, {}, runId, sessionId)
  {
    var seen: set<Id> := {};
    for i := 0 to |items|
      invariant CatalogError(items, {}, runId, sessionId) == CatalogError(items[i..], seen, runId, sessionId)
    {
      assert items[i..][0] == items[i] && items[i..][1..] == items[i + 1..];
      if items[i].id in seen { return Some(DuplicateContextId); }
      if !OwnedRefs(ItemRefs(items[i]), runId, sessionId) { return Some(InvalidArtifactRef); }
      seen := seen + {items[i].id};
    }
    e := None;
  }

  function ItemIds(items: seq<Item>): (r: seq<Id>)
    ensures |r| == |items| && forall i | 0 <= i < |items| :: r[i] == items[i].id
  {
    seq(|items|, i requires 0 <= i < |items| => items[i].id)
  }

  predicate ManifestMatches(c: Catalog, ids: seq<Id>) {
    c.manifest == Manifest(c.revision, ids, |ids|, DigestOf(ids))
  }

  /** `validateCatalogPartition`: the items in identifier order, if the catalog is sound. */
  function CatalogItems(c: Catalog): Result<seq<Item>, SelectError> {
    if exists item | item in c.items :: !WholeItem(item) then Err(IncompleteExchange)
    else
      var items := SortBy(ById, c.items);
      match CatalogError(items, {}, c.parentRunId, c.parentSessionId)
      case Some(e) => Err(e)
      case None => if !ManifestMatches(c, ItemIds(items)) then Err(MissingRequiredContext) else Ok(items)
  }

  // ---------------------------------------------------------------- grants

  predicate GrantInScope(g: Grant, taskId: Id, sessionId: Id, at: Time) {
    g.taskId == taskId && g.sessionId == sessionId && g.issuedAt <= at < g.expiresAt
  }

  predicate GrantBefore(a: Grant, b: Grant) {
    a.grantId < b.grantId
  }

  /** `normalizeGrants`. */
  function NormalGrants(grants: seq<Grant>, taskId: Id, sessionId: Id, at: Time): Result<seq<Grant>, SelectError> {
    if exists g | g in grants :: !GrantInScope(g, taskId, sessionId, at) then Err(NotAuthorized)
    else if exists i, j | 0 <= i < j < |grants| :: grants[i].grantId == grants[j].grantId then Err(NotAuthorized)
    else Ok(SortBy(GrantBefore, grants))
  }

  /** `grantByCandidate.get(id)?.[0]`: of the grants in order, the first that covers the item. */
  function CoveringGrant(grants: seq<Grant>, id: Id): Option<Id> {
    if grants == [] then None
    else if id in grants[0].allowedItemIds then Some(grants[0].grantId)
    else CoveringGrant(grants[1..], id)
  }

  // ---------------------------------------------------------------- one item

  /** `permissionOmissionReason`. */
  function PermissionReason(item: Item, kind: TaskKind, grants: seq<Grant>): Option<OmittedReason> {
    if item.availability.Denied? then Some(item.availability.reason)
    else if item.sensitivity == Secret then Some(SecretDenied)
    else if item.sensitivity == Sensitive && CoveringGrant(grants, item.id).None? then Some(SensitiveNotAuthorized)
    else if kind !in item.allowedKinds then Some(TaskKindMismatch)
    else None
  }

  /** `assessCandidateFreshness`. */
  function Assess(item: Item, current: ActionBinding): Result<Assessment, SelectError> {
    match item.binding
    case NotActionBound => Ok(Unbound)
    case BrowserAction(source) =>
      match current
      case NotActionBound => Err(InvalidActionSeq)
      case BrowserAction(against) =>
        if source > against then Err(InvalidActionSeq)
        else if source == against then Ok(Current(source))
        else if against - source <= item.maxActionLag then Ok(Historical(source, against))
        else Ok(Stale(source, against))
  }

  /** `scoreCandidate`. */
  function Score(item: Item, freshness: Assessment, queryTerms: set<Id>, current: ActionBinding): nat
    requires item.availability.Selectable?
  {
    var overlap := |queryTerms * (item.relevanceTerms + item.availability.summaryTerms)|;
    var freshnessScore := match freshness
      case Current(_) => 40
      case Historical(_, _) => 25
      case Unbound => 15
      case Stale(_, _) => 0;
    var actionScore :=
      if freshness.Unbound? || current.NotActionBound? || current.sourceActionSeq < freshness.source then 0
                       else if current.sourceActionSeq - freshness.source >= 20 then 0
                       else 20 - (current.sourceActionSeq - freshness.source);
    10 + freshnessScore + actionScore + 30 * overlap
  }

  datatype Verdict = Omitted(reason: OmittedReason) | Eligible(candidate: Candidate)

  /** What the verdict on one item depends on, besides the grants. */
  datatype Profile = Profile(taskKind: TaskKind, current: ActionBinding, queryTerms: set<Id>)

  function ProfileOf(input: Input): Profile {
    Profile(input.taskKind, input.current, input.queryTerms)
  }

  function Review(p: Profile, grants: seq<Grant>, item: Item): Result<Verdict, SelectError> {
    match PermissionReason(item, p.taskKind, grants)
    case Some(reason) => Ok(Omitted(reason))
    case None =>
      match Assess(item, p.current)
      case Err(e) => Err(e)
      case Ok(freshness) =>
        if freshness.Stale? && !item.allowStale then Ok(Omitted(StaleNotAllowed))
        else
          Ok(Eligible(Candidate(item, freshness,
                                if item.sensitivity == Sensitive then CoveringGrant(grants, item.id) else None,
                                Score(item, freshness, p.queryTerms, p.current))))
  }

  /** The verdicts of the items, or the first error. */
  function Reviews(p: Profile, grants: seq<Grant>, items: seq<Item>): (r: Result<seq<Verdict>, SelectError>)
    ensures r.Ok? ==> |r.value| == |items|
  {
    if items == [] then Ok([])
    else
      var last := |items| - 1;
      match Reviews(p, grants, items[..last])
      case Err(e) => Err(e)
      case Ok(front) =>
        match Review(p, grants, items[last])
        case Err(e) => Err(e)
        case Ok(v) => Ok(front + [v])
  }

  // ---------------------------------------------------------------- orders

  /** `compareMandatory`. */
  predicate MandatoryBefore(a: Candidate, b: Candidate) {
    var ra, rb := RetentionOrder(a.item.retention), RetentionOrder(b.item.retention);
    ra < rb || (ra == rb && (b.score < a.score || (b.score == a.score && a.item.id < b.item.id)))
  }

  function Weight(c: Candidate): nat {
    if c.item.tokenEstimate == 0 then 1 else c.item.tokenEstimate
  }

  /** `compareRelevant`: score per token by cross-multiplication, then score, then fewer tokens, then identifier. */
  predicate RelevantBefore(a: Candidate, b: Candidate) {
    var l, r := b.score * Weight(a), a.score * Weight(b);
    || l < r
    || (l == r && (b.score < a.score
                   || (b.score == a.score && (a.item.tokenEstimate < b.item.tokenEstimate
                                              || (a.item.tokenEstimate == b.item.tokenEstimate
                                                  && a.item.id < b.item.id)))))
  }

  // ---------------------------------------------------------------- choosing

  function Mandatory(verdicts: seq<Verdict>): seq<Candidate> {
    if verdicts == [] then []
    else
      var v := verdicts[|verdicts| - 1];
      Mandatory(verdicts[..|verdicts| - 1])
        + if v.Eligible? && v.candidate.item.retention != Optional then [v.candidate] else []
  }

  function OptionalOnes(verdicts: seq<Verdict>): seq<Candidate> {
    if verdicts == [] then []
    else
      var v := verdicts[|verdicts| - 1];
      OptionalOnes(verdicts[..|verdicts| - 1])
        + if v.Eligible? && v.candidate.item.retention == Optional then [v.candidate] else []
  }

  function Tokens(cs: seq<Candidate>): nat {
    if cs == [] then 0 else Tokens(cs[..|cs| - 1]) + cs[|cs| - 1].item.tokenEstimate
  }

  /** The greedy pass: what fits is taken, what does not is left, in order. */
  datatype Packing = Packing(taken: seq<Candidate>, left: seq<Candidate>, tokens: nat)

  function Pack(cs: seq<Candidate>, used: nat, available: nat): Packing {
    if cs == [] then Packing([], [], used)
    else
      var p := Pack(cs[..|cs| - 1], used, available);
      var c := cs[|cs| - 1];
      if p.tokens + c.item.tokenEstimate <= available
      then Packing(p.taken + [c], p.left, p.tokens + c.item.tokenEstimate)
      else Packing(p.taken, p.left + [c], p.tokens)
  }

  function CandidateIds(cs: seq<Candidate>): (r: seq<Id>)
    ensures |r| == |cs| && forall i | 0 <= i < |cs| :: r[i] == cs[i].item.id
  {
    seq(|cs|, i requires 0 <= i < |cs| => cs[i].item.id)
  }

  /** The audit entries of the items that were not chosen, in identifier order. */
  function Omissions(items: seq<Item>, verdicts: seq<Verdict>, chosen: set<Id>): seq<Omission>
    requires |items| == |verdicts|
  {
    if items == [] then []
    else
      var last := |items| - 1;
      var reason := if verdicts[last].Omitted? then verdicts[last].reason else BudgetExceeded;
      Omissions(items[..last], verdicts[..last], chosen)
        + if items[last].id in chosen then [] else [Omission(items[last].id, reason)]
  }

  function OmittedIds(os: seq<Omission>): (r: seq<Id>)
    ensures |r| == |os| && forall i | 0 <= i < |os| :: r[i] == os[i].id
  {
    seq(|os|, i requires 0 <= i < |os| => os[i].id)
  }

  /** `assertCompletePartition`. */
  predicate CompletePartition(items: seq<Item>, selected: seq<Candidate>, omitted: seq<Omission>) {
    var audit := CandidateIds(selected) + OmittedIds(omitted);
    && |audit| == |items| && (forall i, j | 0 <= i < j < |audit| :: audit[i] != audit[j])
    && SortBy(IdBefore, ItemIds(items)) == SortBy(IdBefore, audit)
  }

  predicate DeniedMandatory(items: seq<Item>, verdicts: seq<Verdict>)
    requires |items| == |verdicts|
  {
    exists i | 0 <= i < |items| :: items[i].retention != Optional && verdicts[i].Omitted?
  }

  function UsedGrantIds(selected: seq<Candidate>): set<Id> {
    set i | 0 <= i < |selected| && selected[i].item.sensitivity == Sensitive && selected[i].grant.Some? ::
      selected[i].grant.value
  }

  function KeepGrants(grants: seq<Grant>, used: set<Id>): seq<Grant> {
    if grants == [] then []
    else KeepGrants(grants[..|grants| - 1], used)
           + if grants[|grants| - 1].grantId in used then [grants[|grants| - 1]] else []
  }

  // ---------------------------------------------------------------- the whole selection

  /** The checks at the end of `selectContext`. */
  function Audit(grants: seq<Grant>, items: seq<Item>, verdicts: seq<Verdict>, selected: seq<Candidate>,
                 tokens: nat): Result<Selection, SelectError>
    requires |items| == |verdicts|
  {
    var omitted := Omissions(items, verdicts, Elements(CandidateIds(selected)));
    if !CompletePartition(items, selected, omitted) then Err(DuplicateContextId)
    else
      var used := UsedGrantIds(selected);
      var kept := KeepGrants(grants, used);
      if |kept| != |used| then Err(NotAuthorized) else Ok(Selection(selected, omitted, kept, tokens))
  }

  /** The mandatory candidates and what the greedy pass adds, with their tokens. */
  datatype Choice = Choice(selected: seq<Candidate>, tokens: nat)

  function Choose(verdicts: seq<Verdict>, available: nat): Result<Choice, SelectError> {
    var mandatory := SortBy(MandatoryBefore, Mandatory(verdicts));
    if Tokens(mandatory) > available then Err(OverBudget)
    else
      var packing := Pack(SortBy(RelevantBefore, OptionalOnes(verdicts)), Tokens(mandatory), available);
      Ok(Choice(mandatory + packing.taken, packing.tokens))
  }

  /** Everything `selectContext` works out before its final checks. */
  datatype Judgement = Judgement(grants: seq<Grant>, items: seq<Item>, verdicts: seq<Verdict>, choice: Choice)

  function Judge(input: Input): (r: Result<Judgement, SelectError>)
    ensures r.Ok? ==> |r.value.items| == |r.value.verdicts|
  {
    if input.fixedEnvelopeTokens > input.maxInputTokens then Err(OverBudget)
    else
      match CatalogItems(input.catalog)
      case Err(e) => Err(e)
      case Ok(items) =>
        match NormalGrants(input.grants, input.taskId, input.catalog.parentSessionId, input.createdAt)
        case Err(e) => Err(e)
        case Ok(grants) => Decide(input, grants, items)
  }

  function Decide(input: Input, grants: seq<Grant>, items: seq<Item>): (r: Result<Judgement, SelectError>)
    requires input.fixedEnvelopeTokens <= input.maxInputTokens
    ensures r.Ok? ==> |r.value.items| == |r.value.verdicts|
  {
    DecideOn(grants, items, Reviews(ProfileOf(input), grants, items), input.maxInputTokens - input.fixedEnvelopeTokens)
  }

  function DecideOn(grants: seq<Grant>, items: seq<Item>, reviews: Result<seq<Verdict>, SelectError>, available: nat)
    : (r: Result<Judgement, SelectError>)
    requires reviews.Ok? ==> |reviews.value| == |items|
    ensures r.Ok? ==> |r.value.items| == |r.value.verdicts|
  {
    match reviews
    case Err(e) => Err(e)
    case Ok(verdicts) =>
      if DeniedMandatory(items, verdicts) then Err(MissingRequiredContext)
      else
        match Choose(verdicts, available)
        case Err(e) => Err(e)
        case Ok(choice) => Ok(Judgement(grants, items, verdicts, choice))
  }

  /** `selectContext`. */
  function Select(input: Input): Result<Selection, SelectError> {
    match Judge(input)
    case Err(e) => Err(e)
    case Ok(j) => Audit(j.grants, j.items, j.verdicts, j.choice.selected, j.choice.tokens)
  }

  // ---------------------------------------------------------------- the loops of `selectContext`

  /** The first loop: permission and freshness of every item, before any relevance or token arithmetic. */
  method ReviewItems(input: Input, grants: seq<Grant>, items: seq<Item>) returns (r: Result<seq<Verdict>, SelectError>)
    ensures r == Reviews(ProfileOf(input), grants, items)
  {
    var verdicts := [];
    for i := 0 to |items|
      invariant Reviews(ProfileOf(input), grants, items[..i]) == Ok(verdicts)
    {
      assert items[..i + 1][..i] == items[..i];
      var verdict := Review(ProfileOf(input), grants, items[i]);
      if verdict.Err? {
        StuckReview(input, grants, items, i + 1);
        return Err(verdict.error);
      }
      verdicts := verdicts + [verdict.value];
    }
    assert items[..|items|] == items;
    r := Ok(verdicts);
  }

  lemma {:induction false} StuckReview(input: Input, grants: seq<Grant>, items: seq<Item>, n: nat)
    requires n <= |items| && Reviews(ProfileOf(input), grants, items[..n]).Err?
    ensures Reviews(ProfileOf(input), grants, items) == Reviews(ProfileOf(input), grants, items[..n])
    decreases |items| - n
  {
    if n < |items| {
      assert items[..n + 1][..n] == items[..n];
      StuckReview(input, grants, items, n + 1);
    } else {
      assert items[..n] == items;
    }
  }

  /** The greedy loop. */
  method PackOptional(cs: seq<Candidate>, used: nat, available: nat) returns (p: Packing)
    ensures p == Pack(cs, used, available)
  {
    var taken: seq<Candidate> := [];
    var left: seq<Candidate> := [];
    var tokens: nat := used;
    for i := 0 to |cs|
      invariant Pack(cs[..i], used, available) == Packing(taken, left, tokens)
    {
      assert cs[..i + 1][..i] == cs[..i];
      if tokens + cs[i].item.tokenEstimate <= available {
        taken := taken + [cs[i]];
        tokens := tokens + cs[i].item.tokenEstimate;
      } else {
        left := left + [cs[i]];
      }
    }
    assert cs[..|cs|] == cs;
    p := Packing(taken, left, tokens);
  }

  method LoadCatalog(c: Catalog) returns (r: Result<seq<Item>, SelectError>)
    ensures r == CatalogItems(c)
  {
    if exists item | item in c.items :: !WholeItem(item) { return Err(IncompleteExchange); }
    var items := SortBy(ById, c.items);
    var catalogError := CheckCatalog(items, c.parentRunId, c.parentSessionId);
    if catalogError.Some? { return Err(catalogError.value); }
    if !ManifestMatches(c, ItemIds(items)) { return Err(MissingRequiredContext); }
    r := Ok(items);
  }

  method JudgeContext(input: Input) returns (r: Result<Judgement, SelectError>)
    ensures r == Judge(input)
  {
    if input.fixedEnvelopeTokens > input.maxInputTokens { return Err(OverBudget); }
    var items := LoadCatalog(input.catalog);
    if items.Err? { return Err(items.error); }
    var grants := NormalGrants(input.grants, input.taskId, input.catalog.parentSessionId, input.createdAt);
    if grants.Err? { return Err(grants.error); }
    r := JudgeItems(input, grants.value, items.value);
  }

  method JudgeItems(input: Input, grants: seq<Grant>, items: seq<Item>) returns (r: Result<Judgement, SelectError>)
    requires input.fixedEnvelopeTokens <= input.maxInputTokens
    ensures r == Decide(input, grants, items)
  {
    var verdicts := ReviewItems(input, grants, items);
    if verdicts.Err? { return Err(verdicts.error); }
    if DeniedMandatory(items, verdicts.value) { return Err(MissingRequiredContext); }
    var choice := ChooseContext(verdicts.value, input.maxInputTokens - input.fixedEnvelopeTokens);
    if choice.Err? { return Err(choice.error); }
    r := Ok(Judgement(grants, items, verdicts.value, choice.value));
  }

  method SelectContext(input: Input) returns (r: Result<Selection, SelectError>)
    ensures r == Select(input)
  {
    var j := JudgeContext(input);
    if j.Err? { return Err(j.error); }
    r := Audit(j.value.grants, j.value.items, j.value.verdicts, j.value.choice.selected, j.value.choice.tokens);
  }

  method ChooseContext(verdicts: seq<Verdict>, available: nat) returns (r: Result<Choice, SelectError>)
    ensures r == Choose(verdicts, available)
  {
    var mandatory := SortBy(MandatoryBefore, Mandatory(verdicts));
    var mandatoryTokens := Tokens(mandatory);
    if mandatoryTokens > available { return Err(OverBudget); }
    var packing := PackOptional(SortBy(RelevantBefore, OptionalOnes(verdicts)), mandatoryTokens, available);
    r := Ok(Choice(mandatory + packing.taken, packing.tokens));
  }
}
