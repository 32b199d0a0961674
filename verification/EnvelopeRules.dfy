/**
 Which envelopes the validator accepts and what a built envelope contains, said of the envelope and
 the request alone (packages/web-buddy/src/agents/context-envelope.ts:62-330). The rules are written
 without the checks that validator and builder are made of.
 */
module EnvelopeRules {
  import opened Wrappers
  import opened Texts
  import opened Contracts
  import opened Sorting
  import opened ContextSelector
  import opened SelectionLaws
  import opened ContextEnvelope
  import SelectionRules
  import SelectionAcceptance

  // ---------------------------------------------------------------- roles and tools

  /** Some character that is not blank, and no zero character. */
  ghost predicate Says(s: string) {
    (exists i :: 0 <= i < |s| && !TrimSpace(s[i])) && forall i | 0 <= i < |s| :: s[i] != '\0'
  }

  ghost predicate HexDigit(c: char) {
    c in {'0', '1', '2', '3', '4', '5', '6', '7', '8', '9', 'a', 'b', 'c', 'd', 'e', 'f', 'A', 'B', 'C', 'D', 'E', 'F'}
  }

  /** Only tools that read artifacts. */
  ghost predicate ReadingTools(tools: seq<Tool>) {
    forall t | t in tools :: t in {ReadText, ReadJson, SearchText, ListRefs}
  }

  /** The role has no more authority than the envelope, and asks for the same tools. */
  ghost predicate Fits(role: Role, kind: TaskKind, tools: seq<Tool>) {
    && Says(role.roleId) && Says(role.roleVersion) && Says(role.outputKind) && Says(role.payloadVersion)
    && |role.roleDigest| == 64 && (forall c | c in role.roleDigest :: HexDigit(c))
    && (role.authority == ReadOnly || role.authority == RecommendOnly) && role.runtimeKind == kind
    && !role.browserWrite && !role.livePageAccess && !role.resolvesApproval && !role.writesMemory
    && !role.completionEvidence && role.mainVerification
    && ReadingTools(role.tools) && ReadingTools(tools) && (forall t :: t in role.tools <==> t in tools)
    && role.requiredFields != [] && (forall f | f in role.requiredFields :: Says(f)) && Distinct(role.requiredFields)
  }

  /** Reading before searching before listing. */
  predicate Earlier(a: Tool, b: Tool) {
    || (a == ReadText && b != ReadText)
    || (a == ReadJson && (b == SearchText || b == ListRefs))
    || (a == SearchText && b == ListRefs)
  }

  /** The same tools, each once, in order. */
  ghost predicate ToolsOf(tools: seq<Tool>, normal: seq<Tool>) {
    (forall t :: t in normal <==> t in tools) && Ascending(Earlier, normal)
  }

  lemma {:induction false} TrimStartSays(s: string)
    ensures TrimStart(s) == "" <==> forall i | 0 <= i < |s| :: TrimSpace(s[i])
    ensures TrimStart(s) != "" ==> !TrimSpace(TrimStart(s)[0])
  {
    if s != "" && TrimSpace(s[0]) {
      TrimStartSays(s[1..]);
      assert forall i | 0 < i < |s| :: s[i] == s[1..][i - 1];
    }
  }

  lemma TextSays(s: string)
    ensures NonEmptyText(s) <==> Says(s)
  {
    TrimStartSays(s);
    if TrimStart(s) != "" { TrimEndKeepsFirst(TrimStart(s)); }
  }

  lemma DigestIsHex(s: string)
    ensures HexDigest(s) <==> |s| == 64 && forall c | c in s :: HexDigit(c)
  {
    if HexDigest(s) {
      forall c | c in s
        ensures HexDigit(c)
      {
        var i :| 0 <= i < |s| && s[i] == c;
        HexCharacter(c);
      }
    }
    forall i | 0 <= i < |s| && HexDigit(s[i])
      ensures '0' <= s[i] <= '9' || 'a' <= s[i] <= 'f' || 'A' <= s[i] <= 'F'
    {
      HexCharacter(s[i]);
    }
  }

  lemma HexCharacter(c: char)
    ensures HexDigit(c) <==> '0' <= c <= '9' || 'a' <= c <= 'f' || 'A' <= c <= 'F'
  {
  }

  lemma ToolsAreReading(tools: seq<Tool>)
    ensures NormalTools(tools).Ok? <==> ReadingTools(tools)
    ensures NormalTools(tools).Err? ==> NormalTools(tools).error == LiveCapabilityForbidden
    ensures NormalTools(tools).Ok? ==> ToolsOf(tools, NormalTools(tools).value)
  {
    if NormalTools(tools).Ok? { ToolsInOrder(tools); }
  }

  lemma {:induction false} AmongInOrder(order: seq<Tool>, tools: seq<Tool>)
    requires Ascending(Earlier, order)
    ensures Ascending(Earlier, ToolsAmong(order, tools))
  {
    if order != [] {
      AmongInOrder(order[1..], tools);
      forall t | t in ToolsAmong(order[1..], tools)
        ensures Earlier(order[0], t)
      {
        var i :| 0 <= i < |order[1..]| && order[1..][i] == t;
        assert Earlier(order[0], order[i + 1]);
      }
    }
  }

  lemma ToolsInOrder(tools: seq<Tool>)
    requires ReadingTools(tools)
    ensures ToolsOf(tools, ToolsAmong(TOOL_ORDER, tools))
  {
    assert Ascending(Earlier, TOOL_ORDER);
    AmongInOrder(TOOL_ORDER, tools);
  }

  lemma SameNormalTools(xs: seq<Tool>, ys: seq<Tool>)
    requires ReadingTools(xs) && ReadingTools(ys)
    ensures ToolsAmong(TOOL_ORDER, xs) == ToolsAmong(TOOL_ORDER, ys) <==> forall t :: t in xs <==> t in ys
  {
    if forall t :: t in xs <==> t in ys { SameToolsSameOrder(TOOL_ORDER, xs, ys); }
    if ToolsAmong(TOOL_ORDER, xs) == ToolsAmong(TOOL_ORDER, ys) {
      forall t
        ensures t in xs <==> t in ys
      {
        assert t in xs ==> t in ToolsAmong(TOOL_ORDER, xs);
        assert t in ys ==> t in ToolsAmong(TOOL_ORDER, ys);
      }
    }
  }

  /** The role that the envelope carries: as given, with its tools in order. */
  lemma RoleFits(role: Role, kind: TaskKind, tools: seq<Tool>)
    ensures NormalRole(role, kind, tools).Ok? <==> Fits(role, kind, tools)
    ensures NormalRole(role, kind, tools).Ok? ==>
              var r := NormalRole(role, kind, tools).value;
              ToolsOf(role.tools, r.tools) && r.(tools := role.tools) == role
    ensures NormalRole(role, kind, tools).Err? ==>
              NormalRole(role, kind, tools).error in {MissingRequiredContext, LiveCapabilityForbidden}
  {
    TextSays(role.roleId);
    TextSays(role.roleVersion);
    TextSays(role.outputKind);
    TextSays(role.payloadVersion);
    DigestIsHex(role.roleDigest);
    ToolsAreReading(role.tools);
    ToolsAreReading(tools);
    if ReadingTools(role.tools) && ReadingTools(tools) { SameNormalTools(role.tools, tools); }
    forall f | f in role.requiredFields
      ensures NonEmptyText(f) <==> Says(f)
    {
      TextSays(f);
    }
  }

  // ---------------------------------------------------------------- what the validator accepts

  /** The grant that counts for an identifier is the last one listed under it. */
  ghost predicate CoveredBy(grants: seq<Grant>, grantId: Id, itemId: Id) {
    exists k ::
      && 0 <= k < |grants| && grants[k].grantId == grantId && itemId in grants[k].allowedItemIds
      && forall j | k < j < |grants| :: grants[j].grantId != grantId
  }

  predicate OfParent(e: Envelope, r: ArtifactRef) {
    r.runId == e.parentRunId && r.sessionId == e.parentSessionId
  }

  ghost predicate ItemIsSealed(e: Envelope, c: Candidate) {
    && c.item.sensitivity != Secret
    && (c.item.sensitivity == Sensitive ==> c.grant.Some? && CoveredBy(e.grants, c.grant.value, c.item.id))
    && (c.item.availability.Selectable? ==>
          match c.item.availability.unit
          case Projection(artifacts) => forall r | r in artifacts :: OfParent(e, r)
          case ToolExchange(call, result, summaries) =>
            && OfParent(e, call) && OfParent(e, result) && (forall r | r in summaries :: OfParent(e, r))
            && call.kind == ToolCall && result.kind == ToolResult)
  }

  ghost predicate NoAuthority(a: Authority) {
    && !a.browserWrite && !a.livePageAccess && !a.completionEvidence && a.mainVerification && !a.parentHistory
    && !a.login && !a.captcha && !a.upload && !a.save && !a.finalSubmit
  }

  ghost predicate Accounted(e: Envelope) {
    && e.budget.selected == SelectionRules.Sum(e.selected)
    && e.budget.used == e.budget.fixed + e.budget.selected && e.budget.used <= e.budget.maxInput
  }

  /** Selected and omitted identifiers are those of the manifest, none twice. */
  ghost predicate Audited(e: Envelope) {
    var audit := CandidateIds(e.selected) + OmittedIds(e.omitted);
    && Distinct(audit) && multiset(audit) == multiset(e.manifest.ids)
    && e.manifest.count == |e.manifest.ids| && e.manifest.digest == DigestOf(e.manifest.ids)
  }

  ghost predicate Sealed(e: Envelope) {
    && NoAuthority(e.authority) && (e.role.Some? ==> Fits(e.role.value, e.taskKind, e.tools))
    && Audited(e) && Accounted(e)
    && (forall c | c in e.selected :: ItemIsSealed(e, c))
    && (forall g | g in e.grants ::
          exists c :: c in e.selected && c.item.sensitivity == Sensitive && c.grant == Some(g.grantId))
    && (forall r | r in e.objectiveRefs :: OfParent(e, r)) && OfParent(e, e.outputSchemaRef)
  }

  lemma {:induction false} LastGrantFound(grants: seq<Grant>, grantId: Id, itemId: Id)
    ensures
      var found := FindGrant(grants, grantId);
      found.Some? && itemId in found.value.allowedItemIds <==> CoveredBy(grants, grantId, itemId)
  {
    if grants != [] {
      var n := |grants| - 1;
      if grants[n].grantId == grantId {
        assert itemId in grants[n].allowedItemIds ==> CoveredBy(grants, grantId, itemId);
      } else {
        LastGrantFound(grants[..n], grantId, itemId);
        CoverWithoutLast(grants, grantId, itemId);
      }
    }
  }

  lemma CoverWithoutLast(grants: seq<Grant>, grantId: Id, itemId: Id)
    requires grants != [] && grants[|grants| - 1].grantId != grantId
    ensures CoveredBy(grants, grantId, itemId) <==> CoveredBy(grants[..|grants| - 1], grantId, itemId)
  {
    var front := grants[..|grants| - 1];
    assert forall j | 0 <= j < |front| :: front[j] == grants[j];
  }

  lemma RefsOwned(e: Envelope, refs: seq<ArtifactRef>)
    ensures OwnedRefs(refs, e.parentRunId, e.parentSessionId) <==> forall r | r in refs :: OfParent(e, r)
  {
    if OwnedRefs(refs, e.parentRunId, e.parentSessionId) {
      forall r | r in refs
        ensures OfParent(e, r)
      {
        var i :| 0 <= i < |refs| && refs[i] == r;
      }
    }
    if forall r | r in refs :: OfParent(e, r) {
      assert forall i | 0 <= i < |refs| :: refs[i] in refs;
    }
  }

  lemma ExchangeRefs(call: ArtifactRef, result: ArtifactRef, summaries: seq<ArtifactRef>, r: ArtifactRef)
    ensures r in [call, result] + summaries <==> r == call || r == result || r in summaries
  {
  }

  lemma ItemChecks(e: Envelope, c: Candidate)
    ensures ItemError(e, c).None? <==> ItemIsSealed(e, c)
  {
    if c.grant.Some? { LastGrantFound(e.grants, c.grant.value, c.item.id); }
    var unit := UnitOf(c);
    RefsOwned(e, UnitRefs(unit));
    if unit.ToolExchange? {
      forall r
        ensures r in UnitRefs(unit) <==> r == unit.call || r == unit.result || r in unit.summaryArtifacts
      {
        ExchangeRefs(unit.call, unit.result, unit.summaryArtifacts, r);
      }
      assert unit.call in UnitRefs(unit) && unit.result in UnitRefs(unit);
    }
  }

  lemma {:induction false} FirstErrorTells(e: Envelope, n: nat)
    requires n <= |e.selected|
    ensures FirstItemError(e, n).None? <==> forall i | 0 <= i < n :: ItemIsSealed(e, e.selected[i])
    ensures FirstItemError(e, n).Some? ==> exists i :: 0 <= i < n && ItemError(e, e.selected[i]) == FirstItemError(e, n)
  {
    if n > 0 {
      FirstErrorTells(e, n - 1);
      ItemChecks(e, e.selected[n - 1]);
    }
  }

  lemma AllSealed(e: Envelope)
    ensures FirstItemError(e, |e.selected|).None? <==> forall c | c in e.selected :: ItemIsSealed(e, c)
  {
    FirstErrorTells(e, |e.selected|);
    if FirstItemError(e, |e.selected|).None? {
      forall c | c in e.selected
        ensures ItemIsSealed(e, c)
      {
        var i :| 0 <= i < |e.selected| && e.selected[i] == c;
      }
    } else {
      var i :| 0 <= i < |e.selected| && !ItemIsSealed(e, e.selected[i]);
      assert e.selected[i] in e.selected;
    }
  }

  lemma AuditAccepts(e: Envelope)
    ensures Distinct(CandidateIds(e.selected) + OmittedIds(e.omitted)) && AuditMatches(e) <==> Audited(e)
  {
    var audit := CandidateIds(e.selected) + OmittedIds(e.omitted);
    SortRearranges(IdBefore, audit);
    SortRearranges(IdBefore, e.manifest.ids);
    if Audited(e) {
      IdsAreTotal(Elements(audit));
      SortIgnoresInputOrder(IdBefore, audit, e.manifest.ids);
    }
  }

  lemma BudgetAccepts(e: Envelope)
    ensures BudgetMatches(e) <==> Accounted(e)
  {
    SelectionRules.TokensAreSum(e.selected);
  }

  lemma UsedAreListed(e: Envelope)
    requires forall c | c in e.selected :: ItemIsSealed(e, c)
    ensures UsedGrantIds(e.selected) <= GrantIds(e.grants)
  {
    forall id | id in UsedGrantIds(e.selected)
      ensures id in GrantIds(e.grants)
    {
      var i :| 0 <= i < |e.selected| && e.selected[i].item.sensitivity == Sensitive && e.selected[i].grant == Some(id);
      assert e.selected[i] in e.selected;
      var k :| 0 <= k < |e.grants| && e.grants[k].grantId == id;
    }
  }

  lemma SubsetBySize<T>(a: set<T>, b: set<T>)
    requires a <= b
    ensures |a| == |b| <==> a == b
  {
    assert b == a + (b - a);
  }

  /** As many grants are used as there are exactly when each of them is used. */
  lemma GrantsAllUsed(e: Envelope)
    requires forall c | c in e.selected :: ItemIsSealed(e, c)
    ensures |UsedGrantIds(e.selected)| == |GrantIds(e.grants)|
       <==> forall g | g in e.grants ::
              exists c :: c in e.selected && c.item.sensitivity == Sensitive && c.grant == Some(g.grantId)
  {
    UsedAreListed(e);
    SubsetBySize(UsedGrantIds(e.selected), GrantIds(e.grants));
    UsedIds(e);
    GrantIdsListed(e.grants);
    if UsedGrantIds(e.selected) == GrantIds(e.grants) {
      forall g | g in e.grants
        ensures exists c :: c in e.selected && c.item.sensitivity == Sensitive && c.grant == Some(g.grantId)
      {
        assert g.grantId in GrantIds(e.grants);
      }
    }
  }

  lemma UsedIds(e: Envelope)
    ensures forall id :: id in UsedGrantIds(e.selected)
                    <==> exists c :: c in e.selected && c.item.sensitivity == Sensitive && c.grant == Some(id)
  {
    forall id
      ensures id in UsedGrantIds(e.selected)
         <==> exists c :: c in e.selected && c.item.sensitivity == Sensitive && c.grant == Some(id)
    {
      if i :| 0 <= i < |e.selected| && e.selected[i].item.sensitivity == Sensitive && e.selected[i].grant == Some(id) {
        assert e.selected[i] in e.selected;
      }
    }
  }

  lemma GrantIdsListed(grants: seq<Grant>)
    ensures forall id :: id in GrantIds(grants) <==> exists g :: g in grants && g.grantId == id
  {
    forall id
      ensures id in GrantIds(grants) <==> exists g :: g in grants && g.grantId == id
    {
      if k :| 0 <= k < |grants| && grants[k].grantId == id { assert grants[k] in grants; }
    }
  }

  /** The validator accepts exactly the sealed envelopes. */
  lemma ValidatorAccepts(e: Envelope)
    ensures EnvelopeError(e).None? <==> Sealed(e)
  {
    AuditAccepts(e);
    BudgetAccepts(e);
    AllSealed(e);
    if e.role.Some? { RoleFits(e.role.value, e.taskKind, e.tools); }
    if forall c | c in e.selected :: ItemIsSealed(e, c) { GrantsAllUsed(e); }
    RefsOwned(e, e.objectiveRefs + [e.outputSchemaRef]);
    assert forall r :: r in e.objectiveRefs + [e.outputSchemaRef] <==> r in e.objectiveRefs || r == e.outputSchemaRef;
  }

  // ---------------------------------------------------------------- what is built

  ghost predicate Requestable(q: Request) {
    && (q.input.taskKind == CandidateJobResearch || q.input.taskKind == TraceSummarization)
    && q.input.catalog.parentRunId == q.parentRunId && q.input.catalog.parentSessionId == q.parentSessionId
    && (forall r | r in q.objectiveRefs :: r.runId == q.parentRunId && r.sessionId == q.parentSessionId)
    && q.schemaRef.kind == SchemaArtifact
    && q.schemaRef.runId == q.parentRunId && q.schemaRef.sessionId == q.parentSessionId
    && ReadingTools(q.tools)
    && (q.role.Some? ==> Fits(q.role.value, q.input.taskKind, q.tools))
  }

  /** The envelope of a request around a selection. */
  ghost predicate EnvelopeOf(q: Request, s: Selection, e: Envelope) {
    && e.taskKind == q.input.taskKind && e.parentRunId == q.parentRunId && e.parentSessionId == q.parentSessionId
    && e.objectiveRefs == q.objectiveRefs && e.outputSchemaRef == q.schemaRef
    && NoAuthority(e.authority) && ToolsOf(q.tools, e.tools)
    && (if q.role.None? then e.role.None?
        else
          && e.role.Some? && ToolsOf(q.tools, e.role.value.tools)
          && e.role.value.(tools := q.role.value.tools) == q.role.value)
    && e.manifest == q.input.catalog.manifest
    && e.selected == s.selected && e.omitted == s.omitted && e.grants == s.grants
    && e.budget == Budget(q.input.maxInputTokens, q.input.fixedEnvelopeTokens, s.tokens,
                          q.input.fixedEnvelopeTokens + s.tokens, q.reserved)
  }

  lemma RequestChecks(q: Request)
    ensures RequestTools(q).Ok? && NormalRoles(q.role, q.input.taskKind, q.tools).Ok? <==> Requestable(q)
    ensures RequestTools(q).Ok? ==> RequestTools(q) == NormalTools(q.tools)
  {
    ToolsAreReading(q.tools);
    if q.role.Some? { RoleFits(q.role.value, q.input.taskKind, q.tools); }
    RefsOfParent(q, q.objectiveRefs);
    RefsOfParent(q, [q.schemaRef]);
  }

  lemma RefsOfParent(q: Request, refs: seq<ArtifactRef>)
    ensures OwnedRefs(refs, q.parentRunId, q.parentSessionId)
       <==> forall r | r in refs :: r.runId == q.parentRunId && r.sessionId == q.parentSessionId
  {
    forall i | 0 <= i < |refs|
      ensures refs[i] in refs
    {
    }
  }

  lemma AssembledIs(q: Request, s: Selection, role: Option<Role>, tools: seq<Tool>)
    requires NormalTools(q.tools) == Ok(tools) && NormalRoles(q.role, q.input.taskKind, q.tools) == Ok(role)
    requires s.tokens == SelectionRules.Sum(s.selected)
    ensures EnvelopeOf(q, s, Assemble(q, s, role, tools))
  {
    ToolsAreReading(q.tools);
    SelectionRules.TokensAreSum(s.selected);
    if q.role.Some? { RoleFits(q.role.value, q.input.taskKind, q.tools); }
  }

  /** Nothing else is an envelope of that request and selection. */
  lemma EnvelopeIsUnique(q: Request, s: Selection, d: Envelope, e: Envelope)
    requires EnvelopeOf(q, s, d) && EnvelopeOf(q, s, e)
    ensures d == e
  {
    EarlierIsAsymmetric();
    SelectionRules.SameAscending(Earlier, d.tools, e.tools);
    if q.role.Some? { SelectionRules.SameAscending(Earlier, d.role.value.tools, e.role.value.tools); }
    assert d.authority == e.authority;
  }

  lemma EarlierIsAsymmetric()
    ensures forall a, b :: !(Earlier(a, b) && Earlier(b, a))
  {
  }

  /** Building answers exactly the requests in order, with the one envelope around the one proper selection. */
  lemma BuildIsExact(q: Request, e: Envelope)
    ensures Build(q) == Ok(e)
       <==> && Requestable(q) && SelectionAcceptance.Satisfiable(q.input)
            && exists s :: SelectionRules.Proper(q.input, s) && EnvelopeOf(q, s, e)
  {
    RequestChecks(q);
    BuildNeverFailsValidation(q);
    SelectionAcceptance.SucceedsExactly(q.input);
    if Requestable(q) && Select(q.input).Ok? {
      var s, tools := Select(q.input).value, NormalTools(q.tools).value;
      var role := NormalRoles(q.role, q.input.taskKind, q.tools).value;
      SelectionRules.SelectionFollowsRules(q.input);
      AssembledIs(q, s, role, tools);
      if t :| SelectionRules.Proper(q.input, t) && EnvelopeOf(q, t, e) {
        SelectionAcceptance.SelectionIsTheProperOne(q.input, t);
        EnvelopeIsUnique(q, s, e, Assemble(q, s, role, tools));
      }
    }
  }
}
