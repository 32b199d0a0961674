/**
 The subagent envelope and the validator that checks it again from scratch
 (packages/web-buddy/src/agents/context-envelope.ts:62-330). Closed-object shapes, the objective's
 text and the envelope's identifiers are not part of this model.
 */
module ContextEnvelope {
  import opened Wrappers
  import opened Texts
  import opened Contracts
  import opened Sorting
  import opened ContextSelector
  import opened SelectionLaws

  datatype Budget = Budget(maxInput: nat, fixed: nat, selected: nat, used: nat, reservedOutput: nat)

  datatype Tool = ReadText | ReadJson | SearchText | ListRefs | OtherTool(name: string)

  datatype Authority = Authority(
    browserWrite: bool, livePageAccess: bool, completionEvidence: bool, mainVerification: bool, parentHistory: bool,
    login: bool, captcha: bool, upload: bool, save: bool, finalSubmit: bool)

  datatype RoleAuthority = ReadOnly | RecommendOnly | OtherAuthority

  datatype Role = Role(
    roleId: string, roleVersion: string, roleDigest: string, authority: RoleAuthority, runtimeKind: TaskKind,
      tools: seq<Tool>,
    outputKind: string, payloadVersion: string, requiredFields: seq<string>,
    browserWrite: bool, livePageAccess: bool, resolvesApproval: bool, writesMemory: bool,
    completionEvidence: bool, mainVerification: bool)

  datatype Envelope = Envelope(
    taskKind: TaskKind, parentRunId: Id, parentSessionId: Id, authority: Authority, role: Option<Role>,
      tools: seq<Tool>,
    manifest: Manifest, selected: seq<Candidate>, omitted: seq<Omission>, grants: seq<Grant>, budget: Budget,
    objectiveRefs: seq<ArtifactRef>, outputSchemaRef: ArtifactRef)

  // ---------------------------------------------------------------- tools and roles

  /** `READ_ONLY_TOOL_ORDER`. */
  const TOOL_ORDER := [ReadText, ReadJson, SearchText, ListRefs]

  function ToolsAmong(order: seq<Tool>, requested: seq<Tool>): (r: seq<Tool>)
    ensures forall t :: t in r <==> t in order && t in requested
  {
    if order == [] then []
    else (if order[0] in requested then [order[0]] else []) + ToolsAmong(order[1..], requested)
  }

  /** `normalizeAllowedTools`: the requested tools, each once, in the fixed order. */
  function NormalTools(values: seq<Tool>): Result<seq<Tool>, SelectError> {
    if exists t | t in values :: t.OtherTool? then Err(LiveCapabilityForbidden) else Ok(ToolsAmong(TOOL_ORDER, values))
  }

  lemma {:induction false} SameToolsSameOrder(order: seq<Tool>, xs: seq<Tool>, ys: seq<Tool>)
    requires forall t | t in order :: t in xs <==> t in ys
    ensures ToolsAmong(order, xs) == ToolsAmong(order, ys)
  {
    if order != [] {
      SameToolsSameOrder(order[1..], xs, ys);
    }
  }

  /** Normal tools are their own normal form. */
  lemma ToolsStayNormal(values: seq<Tool>)
    requires NormalTools(values).Ok?
    ensures NormalTools(NormalTools(values).value) == NormalTools(values)
  {
    SameToolsSameOrder(TOOL_ORDER, ToolsAmong(TOOL_ORDER, values), values);
  }

  /** `requireNonEmptyString`. */
  predicate NonEmptyText(s: string) {
    Trim(s) != "" && '\0' !in s
  }

  predicate HexDigest(s: string) {
    |s| == 64 && forall i | 0 <= i < |s| :: '0' <= s[i] <= '9' || 'a' <= s[i] <= 'f' || 'A' <= s[i] <= 'F'
  }

  /** The role stays within the task and claims no authority of the main agent. */
  predicate RoleIsHarmless(role: Role, kind: TaskKind) {
    && HexDigest(role.roleDigest) && role.authority != OtherAuthority && role.runtimeKind == kind
    && !role.browserWrite && !role.livePageAccess && !role.resolvesApproval && !role.writesMemory
    && !role.completionEvidence && role.mainVerification
  }

  predicate FieldsAreProper(fields: seq<string>) {
    fields != [] && (forall f | f in fields :: NonEmptyText(f)) && Distinct(fields)
  }

  /** `normalizeBuiltInRoleBinding`. */
  function NormalRole(role: Role, kind: TaskKind, tools: seq<Tool>): Result<Role, SelectError> {
    if !(NonEmptyText(role.roleId) && NonEmptyText(role.roleVersion) && NonEmptyText(role.outputKind)
         && NonEmptyText(role.payloadVersion))
    then Err(MissingRequiredContext)
    else if !RoleIsHarmless(role, kind) then Err(LiveCapabilityForbidden)
    else
      match NormalTools(role.tools)
      case Err(e) => Err(e)
      case Ok(own) =>
        match NormalTools(tools)
        case Err(e) => Err(e)
        case Ok(theirs) =>
          if own != theirs then Err(LiveCapabilityForbidden)
          else if !FieldsAreProper(role.requiredFields) then Err(MissingRequiredContext)
          else Ok(role.(tools := own))
  }

  function NormalRoles(role: Option<Role>, kind: TaskKind, tools: seq<Tool>): Result<Option<Role>, SelectError> {
    match role
    case None => Ok(None)
    case Some(r) =>
      match NormalRole(r, kind, tools)
      case Err(e) => Err(e)
      case Ok(normal) => Ok(Some(normal))
  }

  /** A normal role is accepted again, with the normal tools. */
  lemma RoleStaysNormal(role: Option<Role>, kind: TaskKind, tools: seq<Tool>, normal: Option<Role>,
                        normalTools: seq<Tool>)
    requires NormalRoles(role, kind, tools) == Ok(normal) && NormalTools(tools) == Ok(normalTools)
    ensures NormalRoles(normal, kind, normalTools) == Ok(normal)
  {
    ToolsStayNormal(tools);
    if role.Some? {
      ToolsStayNormal(role.value.tools);
    }
  }

  // ---------------------------------------------------------------- the validator

  function FindGrant(grants: seq<Grant>, id: Id): (r: Option<Grant>)
    ensures r.Some? ==> r.value in grants && r.value.grantId == id
    ensures r.None? ==> forall g | g in grants :: g.grantId != id
  {
    if grants == [] then None
    else if grants[|grants| - 1].grantId == id then Some(grants[|grants| - 1])
    else FindGrant(grants[..|grants| - 1], id)
  }

  function UnitOf(c: Candidate): Unit {
    if c.item.availability.Selectable? then c.item.availability.unit else Projection([])
  }

  /** What the validator has against one selected item. */
  function ItemError(e: Envelope, c: Candidate): Option<SelectError> {
    var grant := if c.grant.Some? then FindGrant(e.grants, c.grant.value) else None;
    var unit := UnitOf(c);
    if c.item.sensitivity == Sensitive && (grant.None? || c.item.id !in grant.value.allowedItemIds)
    then Some(NotAuthorized)
    else if c.item.sensitivity == Secret then Some(SecretSelected)
    else if !OwnedRefs(UnitRefs(unit), e.parentRunId, e.parentSessionId) then Some(InvalidArtifactRef)
    else if unit.ToolExchange? && (unit.call.kind != ToolCall || unit.result.kind != ToolResult)
    then Some(IncompleteExchange)
    else None
  }

  function FirstItemError(e: Envelope, n: nat): Option<SelectError>
    requires n <= |e.selected|
  {
    if n == 0 then None
    else
      match FirstItemError(e, n - 1)
      case Some(err) => Some(err)
      case None => ItemError(e, e.selected[n - 1])
  }

  /** `authorityBoundary` and the other literals of an envelope. */
  const NO_AUTHORITY := Authority(false, false, false, true, false, false, false, false, false, false)

  predicate AuditMatches(e: Envelope) {
    && e.manifest.count == |e.manifest.ids| && e.manifest.digest == DigestOf(e.manifest.ids)
    && SortBy(IdBefore, CandidateIds(e.selected) + OmittedIds(e.omitted)) == SortBy(IdBefore, e.manifest.ids)
  }

  predicate BudgetMatches(e: Envelope) {
    && Tokens(e.selected) == e.budget.selected
    && e.budget.fixed + Tokens(e.selected) == e.budget.used
    && e.budget.used <= e.budget.maxInput
  }

  /** What the validator checks before it looks at the selected items. */
  function FrameError(e: Envelope): Option<SelectError> {
    if e.authority != NO_AUTHORITY then Some(LiveCapabilityForbidden)
    else
      match NormalRoles(e.role, e.taskKind, e.tools)
      case Err(error) => Some(error)
      case Ok(_) =>
        if !Distinct(CandidateIds(e.selected) + OmittedIds(e.omitted)) then Some(DuplicateContextId)
        else if !AuditMatches(e) then Some(MissingRequiredContext)
        else if !BudgetMatches(e) then Some(OverBudget)
        else None
  }

  /** `validateBuiltEnvelope`: the first thing it throws, if anything. */
  function EnvelopeError(e: Envelope): Option<SelectError> {
    match FrameError(e)
    case Some(err) => Some(err)
    case None =>
      match FirstItemError(e, |e.selected|)
      case Some(err) => Some(err)
      case None =>
        if |UsedGrantIds(e.selected)| != |GrantIds(e.grants)| then Some(NotAuthorized)
        else if !OwnedRefs(e.objectiveRefs + [e.outputSchemaRef], e.parentRunId, e.parentSessionId)
        then Some(InvalidArtifactRef)
        else None
  }

  lemma {:induction false} ItemErrorStays(e: Envelope, m: nat, n: nat)
    requires m <= n <= |e.selected| && FirstItemError(e, m).Some?
    ensures FirstItemError(e, n) == FirstItemError(e, m)
  {
    if m < n {
      ItemErrorStays(e, m, n - 1);
    }
  }

  method ValidateFrame(e: Envelope) returns (r: Option<SelectError>)
    ensures r == FrameError(e)
  {
    if e.authority != NO_AUTHORITY { return Some(LiveCapabilityForbidden); }
    if e.role.Some? {
      var role := NormalRole(e.role.value, e.taskKind, e.tools);
      if role.Err? { return Some(role.error); }
    }
    if !Distinct(CandidateIds(e.selected) + OmittedIds(e.omitted)) { return Some(DuplicateContextId); }
    if !AuditMatches(e) { return Some(MissingRequiredContext); }
    if !BudgetMatches(e) { return Some(OverBudget); }
    r := None;
  }

  /** The validator's loop over the selected items, which collects the grants it has seen used. */
  method ValidateItems(e: Envelope) returns (r: Option<SelectError>, usedGrantIds: set<Id>)
    ensures r == FirstItemError(e, |e.selected|)
    ensures r.None? ==> usedGrantIds == UsedGrantIds(e.selected)
  {
    usedGrantIds := {};
    for i := 0 to |e.selected|
      invariant FirstItemError(e, i).None?
      invariant usedGrantIds == UsedGrantIds(e.selected[..i])
    {
      var err := ItemError(e, e.selected[i]);
      if err.Some? {
        ItemErrorStays(e, i + 1, |e.selected|);
        return err, usedGrantIds;
      }
      UsedGrantsGrow(e.selected, i);
      if e.selected[i].item.sensitivity == Sensitive && e.selected[i].grant.Some? {
        usedGrantIds := usedGrantIds + {e.selected[i].grant.value};
      }
    }
    assert e.selected[..|e.selected|] == e.selected;
    r := None;
  }

  method ValidateBuiltEnvelope(e: Envelope) returns (r: Option<SelectError>)
    ensures r == EnvelopeError(e)
  {
    var frameError := ValidateFrame(e);
    if frameError.Some? { return frameError; }
    var itemError, usedGrantIds := ValidateItems(e);
    if itemError.Some? { return itemError; }
    if |usedGrantIds| != |GrantIds(e.grants)| { return Some(NotAuthorized); }
    if !OwnedRefs(e.objectiveRefs + [e.outputSchemaRef], e.parentRunId, e.parentSessionId) {
      return Some(InvalidArtifactRef);
    }
    r := None;
  }

  lemma UsedGrantsGrow(cs: seq<Candidate>, i: nat)
    requires i < |cs|
    ensures UsedGrantIds(cs[..i + 1])
         == UsedGrantIds(cs[..i])
           + (if cs[i].item.sensitivity == Sensitive && cs[i].grant.Some? then {cs[i].grant.value} else {})
  {
    assert forall k | 0 <= k < i :: cs[..i + 1][k] == cs[..i][k];
    assert cs[..i + 1][i] == cs[i];
  }

  // ---------------------------------------------------------------- the builder

  /** What the builder is given around the input of the selection. */
  datatype Request = Request(
    input: Input, parentRunId: Id, parentSessionId: Id, objectiveRefs: seq<ArtifactRef>, schemaRef: ArtifactRef,
    role: Option<Role>, tools: seq<Tool>, reserved: nat)

  /** The builder's own checks; it goes on with the normal tools. */
  function RequestTools(q: Request): Result<seq<Tool>, SelectError> {
    if q.input.taskKind != CandidateJobResearch && q.input.taskKind != TraceSummarization
    then Err(LiveCapabilityForbidden)
    else if q.input.catalog.parentRunId != q.parentRunId || q.input.catalog.parentSessionId != q.parentSessionId
    then Err(MissingRequiredContext)
    else if !OwnedRefs(q.objectiveRefs, q.parentRunId, q.parentSessionId) then Err(InvalidArtifactRef)
    else if q.schemaRef.kind != SchemaArtifact then Err(MissingRequiredContext)
    else if !OwnedRefs([q.schemaRef], q.parentRunId, q.parentSessionId) then Err(InvalidArtifactRef)
    else NormalTools(q.tools)
  }

  /** The envelope around a selection. */
  function Assemble(q: Request, s: Selection, role: Option<Role>, tools: seq<Tool>): Envelope {
    var tokens := Tokens(s.selected);
    Envelope(q.input.taskKind, q.parentRunId, q.parentSessionId, NO_AUTHORITY, role, tools,
             q.input.catalog.manifest, s.selected, s.omitted, s.grants,
             Budget(q.input.maxInputTokens, q.input.fixedEnvelopeTokens, tokens, q.input.fixedEnvelopeTokens + tokens,
                    q.reserved),
             q.objectiveRefs, q.schemaRef)
  }

  /**
   `buildSubagentContextEnvelope`: its own checks, the selection, its units and the role once more,
   and the validator at the end.
   */
  function Build(q: Request): Result<Envelope, SelectError> {
    match RequestTools(q)
    case Err(e) => Err(e)
    case Ok(tools) => BuildAround(q, tools, Select(q.input), NormalRoles(q.role, q.input.taskKind, tools))
  }

  function BuildAround(q: Request, tools: seq<Tool>, selection: Result<Selection, SelectError>,
                       role: Result<Option<Role>, SelectError>)
    : Result<Envelope, SelectError>
  {
    match selection
    case Err(e) => Err(e)
    case Ok(s) =>
      if exists c | c in s.selected :: !WholeUnit(UnitOf(c)) then Err(IncompleteExchange)
      else
        match role
        case Err(e) => Err(e)
        case Ok(r) =>
          match EnvelopeError(Assemble(q, s, r, tools))
          case Some(e) => Err(e)
          case None => Ok(Assemble(q, s, r, tools))
  }

  // ---------------------------------------------------------------- every built envelope is valid

  lemma {:induction false} NoItemErrors(e: Envelope, n: nat)
    requires n <= |e.selected| && forall k | 0 <= k < |e.selected| :: ItemError(e, e.selected[k]).None?
    ensures FirstItemError(e, n).None?
  {
    if n > 0 {
      NoItemErrors(e, n - 1);
    }
  }

  lemma GrantIsKept(grants: seq<Grant>, used: set<Id>, id: Id, k: nat)
    requires DistinctGrants(grants) && k < |grants| && grants[k].grantId == id && id in used
    ensures FindGrant(KeepGrants(grants, used), id) == Some(grants[k])
  {
    KeptGrantsCount(grants, used);
    assert grants[k] in KeepGrants(grants, used);
    var found := FindGrant(KeepGrants(grants, used), id);
    if found.Some? {
      assert found.value in grants;
      var j :| 0 <= j < |grants| && grants[j] == found.value;
    }
  }

  /** Whatever was chosen passes the validator's item checks. */
  lemma ChosenItemIsValid(input: Input, grants: seq<Grant>, items: seq<Item>, verdicts: seq<Verdict>, available: nat,
                          e: Envelope, c: Candidate)
    requires Judged(ProfileOf(input), grants, items, verdicts) && FromItems(items, verdicts) && UniqueItems(items)
    requires DistinctGrants(grants)
    requires forall i | 0 <= i < |items| ::
               OwnedRefs(ItemRefs(items[i]), e.parentRunId, e.parentSessionId) && WholeItem(items[i])
    requires e.selected == Chosen(verdicts, available) && e.grants == KeepGrants(grants, UsedGrantIds(e.selected))
    requires c in e.selected
    ensures ItemError(e, c).None?
  {
    ChosenAreEligible(items, verdicts, available);
    var i :| 0 <= i < |items| && verdicts[i] == Eligible(c);
    assert Review(ProfileOf(input), grants, items[i]) == Ok(Eligible(c));
    assert c.item == items[i];
    UnitIsOwned(c.item, e.parentRunId, e.parentSessionId);
    if c.item.sensitivity == Sensitive {
      SensitiveIsCovered(input, grants, items[i], c);
      var k :| 0 <= k < |grants| && grants[k].grantId == c.grant.value && items[i].id in grants[k].allowedItemIds;
      var j :| 0 <= j < |e.selected| && e.selected[j] == c;
      assert e.selected[j].grant.value in UsedGrantIds(e.selected);
      GrantIsKept(grants, UsedGrantIds(e.selected), c.grant.value, k);
    }
  }

  lemma UnitIsOwned(item: Item, runId: Id, sessionId: Id)
    requires OwnedRefs(ItemRefs(item), runId, sessionId) && item.availability.Selectable?
    ensures OwnedRefs(UnitRefs(item.availability.unit), runId, sessionId)
  {
    var refs, unit := ItemRefs(item), UnitRefs(item.availability.unit);
    assert forall i | 0 <= i < |unit| :: unit[i] == refs[|item.provenanceRefs| + i];
  }

  lemma KeptGrantIds(grants: seq<Grant>, used: set<Id>)
    requires DistinctGrants(grants) && used <= GrantIds(grants)
    ensures GrantIds(KeepGrants(grants, used)) == used
  {
    KeptGrantsCount(grants, used);
    var kept := KeepGrants(grants, used);
    forall id | id in used
      ensures id in GrantIds(kept)
    {
      var k :| 0 <= k < |grants| && grants[k].grantId == id;
      assert grants[k] in kept;
      var j :| 0 <= j < |kept| && kept[j] == grants[k];
      assert kept[j].grantId == id;
    }
    forall id | id in GrantIds(kept)
      ensures id in used
    {
      var j :| 0 <= j < |kept| && kept[j].grantId == id;
      assert kept[j] in kept;
    }
  }

  lemma AuditOfOutcomeMatches(input: Input, grants: seq<Grant>, items: seq<Item>, verdicts: seq<Verdict>,
                              available: nat)
    requires SelectedFrom(input, grants, items, verdicts)
    ensures
      var s := Outcome(grants, items, verdicts, available);
      var audit := CandidateIds(s.selected) + OmittedIds(s.omitted);
      && Distinct(audit) && ManifestMatches(input.catalog, ItemIds(items))
      && SortBy(IdBefore, audit) == SortBy(IdBefore, input.catalog.manifest.ids)
  {
    OutcomeIsPartition(input, grants, items, verdicts, available);
    var s := Outcome(grants, items, verdicts, available);
    var audit := CandidateIds(s.selected) + OmittedIds(s.omitted);
    IdsAreTotal(Elements(audit));
    SortIgnoresInputOrder(IdBefore, audit, ItemIds(items));
  }

  lemma ItemsOfOutcomeAreValid(input: Input, grants: seq<Grant>, items: seq<Item>, verdicts: seq<Verdict>,
                               available: nat, e: Envelope)
    requires SelectedFrom(input, grants, items, verdicts)
    requires e.parentRunId == input.catalog.parentRunId && e.parentSessionId == input.catalog.parentSessionId
    requires e.selected == Chosen(verdicts, available) && e.grants == KeepGrants(grants, UsedGrantIds(e.selected))
    ensures FirstItemError(e, |e.selected|).None? && |UsedGrantIds(e.selected)| == |GrantIds(e.grants)|
  {
    ItemsAreWhole(input, items);
    SelectionInputs(input, grants, items, verdicts);
    NormalGrantsDistinct(input.grants, input.taskId, input.catalog.parentSessionId, input.createdAt);
    CatalogErrorFree(items, {}, input.catalog.parentRunId, input.catalog.parentSessionId);
    forall k | 0 <= k < |e.selected|
      ensures ItemError(e, e.selected[k]).None?
    {
      ChosenItemIsValid(input, grants, items, verdicts, available, e, e.selected[k]);
    }
    NoItemErrors(e, |e.selected|);
    UsedGrantsExist(input, grants, items, verdicts, available);
    KeptGrantIds(grants, UsedGrantIds(e.selected));
  }

  lemma ItemsAreWhole(input: Input, items: seq<Item>)
    requires CatalogItems(input.catalog) == Ok(items)
    ensures forall i | 0 <= i < |items| :: WholeItem(items[i])
  {
    SortRearranges(ById, input.catalog.items);
    forall i | 0 <= i < |items|
      ensures WholeItem(items[i])
    {
      assert items[i] in multiset(items);
      assert items[i] in input.catalog.items;
    }
  }

  lemma AllChecksPass(e: Envelope)
    requires e.authority == NO_AUTHORITY && NormalRoles(e.role, e.taskKind, e.tools).Ok?
    requires Distinct(CandidateIds(e.selected) + OmittedIds(e.omitted)) && AuditMatches(e) && BudgetMatches(e)
    requires FirstItemError(e, |e.selected|).None? && |UsedGrantIds(e.selected)| == |GrantIds(e.grants)|
    requires OwnedRefs(e.objectiveRefs + [e.outputSchemaRef], e.parentRunId, e.parentSessionId)
    ensures EnvelopeError(e).None?
  {
  }

  lemma UnitsAreWhole(input: Input, grants: seq<Grant>, items: seq<Item>, verdicts: seq<Verdict>, available: nat)
    requires SelectedFrom(input, grants, items, verdicts)
    ensures forall c | c in Chosen(verdicts, available) :: WholeUnit(UnitOf(c))
  {
    ItemsAreWhole(input, items);
    SelectionInputs(input, grants, items, verdicts);
    ChosenAreEligible(items, verdicts, available);
    forall c | c in Chosen(verdicts, available)
      ensures WholeUnit(UnitOf(c))
    {
      var i :| 0 <= i < |items| && verdicts[i] == Eligible(c);
      assert c.item == items[i];
    }
  }

  /** The independent validator accepts every envelope assembled from a selection. */
  lemma OutcomeEnvelopeIsValid(q: Request, grants: seq<Grant>, items: seq<Item>, verdicts: seq<Verdict>, available: nat,
                               role: Option<Role>, tools: seq<Tool>)
    requires SelectedFrom(q.input, grants, items, verdicts) && Leaves(q.input, available)
    requires Tokens(SortBy(MandatoryBefore, Mandatory(verdicts))) <= available
    requires RequestTools(q) == Ok(tools) && NormalRoles(q.role, q.input.taskKind, tools) == Ok(role)
    ensures EnvelopeError(Assemble(q, Outcome(grants, items, verdicts, available), role, tools)).None?
  {
    var e := Assemble(q, Outcome(grants, items, verdicts, available), role, tools);
    AuditOfOutcomeMatches(q.input, grants, items, verdicts, available);
    MandatorySum(verdicts, available);
    ItemsOfOutcomeAreValid(q.input, grants, items, verdicts, available, e);
    ToolsStayNormal(q.tools);
    RoleStaysNormal(q.role, q.input.taskKind, tools, role, tools);
    AllChecksPass(e);
  }

  /**
   So building fails only for the builder's own checks, for what the selection throws, or for the
   role, in that order; neither the validator nor the second look at the units ever objects.
   */
  lemma BuildNeverFailsValidation(q: Request)
    ensures RequestTools(q).Err? ==> Build(q) == Err(RequestTools(q).error)
    ensures RequestTools(q).Ok? && Select(q.input).Err? ==> Build(q) == Err(Select(q.input).error)
    ensures RequestTools(q).Ok? && Select(q.input).Ok? ==>
              var role := NormalRoles(q.role, q.input.taskKind, q.tools);
              Build(q) == if role.Err? then Err(role.error)
                else Ok(Assemble(q, Select(q.input).value, role.value, RequestTools(q).value))
  {
    if RequestTools(q).Ok? && Select(q.input).Ok? {
      var tools := RequestTools(q).value;
      RoleByTools(q.role, q.input.taskKind, q.tools);
      SelectionIsBuilt(q, tools, NormalRoles(q.role, q.input.taskKind, tools));
    }
  }

  lemma SelectionIsBuilt(q: Request, tools: seq<Tool>, role: Result<Option<Role>, SelectError>)
    requires RequestTools(q) == Ok(tools) && Select(q.input).Ok? && role == NormalRoles(q.role, q.input.taskKind, tools)
    ensures BuildAround(q, tools, Select(q.input), role)
         == if role.Err? then Err(role.error) else Ok(Assemble(q, Select(q.input).value, role.value, tools))
  {
    var j, available := SelectedOutcome(q.input);
    UnitsAreWhole(q.input, j.grants, j.items, j.verdicts, available);
    if role.Ok? {
      OutcomeEnvelopeIsValid(q, j.grants, j.items, j.verdicts, available, role.value, tools);
    }
  }

  /** Only the normal form of the tools matters to the role. */
  lemma RoleByTools(role: Option<Role>, kind: TaskKind, tools: seq<Tool>)
    requires NormalTools(tools).Ok?
    ensures NormalRoles(role, kind, NormalTools(tools).value) == NormalRoles(role, kind, tools)
  {
    ToolsStayNormal(tools);
  }
}
