/**
 When a context selection succeeds, what its failures mean, and what the score of a candidate does
 to it (packages/web-buddy/src/agents/context-selector.ts:66-159, 202-239, 268-345, 357-423;
 packages/web-buddy/src/agents/context-catalog.ts:249-287).
 */
module SelectionAcceptance {
  import opened Wrappers
  import opened Contracts
  import opened Sorting
  import opened ContextSelector
  import opened SelectionLaws
  import opened SelectionRules

  // ---------------------------------------------------------------- what is asked of the input

  ghost predicate Whole(item: Item) {
    item.availability.Selectable? && item.availability.unit.ToolExchange? ==>
      var u := item.availability.unit;
      u.call.kind == ToolCall && u.result.kind == ToolResult && u.call.binding == u.result.binding
  }

  predicate OfSession(c: Catalog, r: ArtifactRef) {
    r.runId == c.parentRunId && r.sessionId == c.parentSessionId
  }

  /** All artifacts behind the item belong to the run and session of the catalog. */
  ghost predicate Owned(c: Catalog, item: Item) {
    && (forall r | r in item.provenanceRefs :: OfSession(c, r))
    && (item.availability.Selectable? ==>
          match item.availability.unit
          case Projection(artifacts) => forall r | r in artifacts :: OfSession(c, r)
          case ToolExchange(call, result, summaries) =>
            OfSession(c, call) && OfSession(c, result) && forall r | r in summaries :: OfSession(c, r))
  }

  /** The manifest lists the identifiers of the items, in their order, with their number and digest. */
  ghost predicate ManifestLists(c: Catalog) {
    var m := c.manifest;
    && m.revision == c.revision && m.count == |c.items| && m.digest == DigestOf(m.ids)
    && (forall i, j | 0 <= i < j < |m.ids| :: m.ids[i] < m.ids[j])
    && (forall id :: id in m.ids <==> exists item :: item in c.items && item.id == id)
  }

  ghost predicate SoundCatalog(c: Catalog) {
    && UniqueItems(c.items) && (forall item | item in c.items :: Whole(item) && Owned(c, item)) && ManifestLists(c)
  }

  predicate Grants(input: Input, g: Grant) {
    && g.taskId == input.taskId && g.sessionId == input.catalog.parentSessionId
    && g.issuedAt <= input.createdAt && input.createdAt < g.expiresAt
  }

  ghost predicate SoundGrants(input: Input) {
    && (forall g | g in input.grants :: Grants(input, g))
    && (forall i, j | 0 <= i < j < |input.grants| :: input.grants[i].grantId != input.grants[j].grantId)
  }

  /** The tokens of the mandatory items. */
  ghost function Demand(items: seq<Item>): nat {
    if items == [] then 0
    else (if items[0].retention == Optional then 0 else items[0].tokenEstimate) + Demand(items[1..])
  }

  ghost predicate Satisfiable(input: Input) {
    && SoundCatalog(input.catalog) && SoundGrants(input)
    && (forall item | item in input.catalog.items && Permitted(input, item) :: !FromTheFuture(item, input.current))
    && (forall item | item in input.catalog.items && item.retention != Optional :: Usable(input, item))
    && input.fixedEnvelopeTokens + Demand(input.catalog.items) <= input.maxInputTokens
  }

  // ---------------------------------------------------------------- the catalog

  lemma OwnedSame(c: Catalog, item: Item)
    ensures OwnedRefs(ItemRefs(item), c.parentRunId, c.parentSessionId) <==> Owned(c, item)
  {
    var refs := ItemRefs(item);
    if OwnedRefs(refs, c.parentRunId, c.parentSessionId) {
      forall r | r in refs
        ensures OfSession(c, r)
      {
        var i :| 0 <= i < |refs| && refs[i] == r;
      }
      if item.availability.Selectable? { UnitListed(item); }
    }
    if Owned(c, item) {
      forall i | 0 <= i < |refs|
        ensures OfSession(c, refs[i])
      {
        RefBelongs(item, refs[i]);
      }
    }
  }

  lemma RefBelongs(item: Item, r: ArtifactRef)
    requires r in ItemRefs(item)
    ensures r in item.provenanceRefs
              || (item.availability.Selectable?
                  && match item.availability.unit
                     case Projection(artifacts) => r in artifacts
                     case ToolExchange(call, result, summaries) => r == call || r == result || r in summaries)
  {
  }

  lemma UnitListed(item: Item)
    requires item.availability.Selectable?
    ensures forall r | r in UnitRefs(item.availability.unit) :: r in ItemRefs(item)
    ensures item.availability.unit.ToolExchange? ==>
              item.availability.unit.call in ItemRefs(item) && item.availability.unit.result in ItemRefs(item)
  {
    var u := item.availability.unit;
    if u.ToolExchange? { assert UnitRefs(u)[0] == u.call && UnitRefs(u)[1] == u.result; }
  }

  lemma {:induction false} CatalogErrorNone(items: seq<Item>, seen: set<Id>, c: Catalog)
    requires UniqueItems(items)
    requires forall i | 0 <= i < |items| :: items[i].id !in seen && Owned(c, items[i])
    ensures CatalogError(items, seen, c.parentRunId, c.parentSessionId).None?
  {
    if items != [] {
      OwnedSame(c, items[0]);
      forall i | 0 <= i < |items[1..]|
        ensures items[1..][i].id !in seen + {items[0].id} && Owned(c, items[1..][i])
      {
        assert items[1..][i] == items[i + 1];
      }
      CatalogErrorNone(items[1..], seen + {items[0].id}, c);
    }
  }

  lemma IdsAscend(items: seq<Item>)
    requires Ascending(ById, items)
    ensures Ascending(IdBefore, ItemIds(items))
  {
    forall i, j | 0 <= i < j < |items|
      ensures IdBefore(ItemIds(items)[i], ItemIds(items)[j])
    {
      assert ById(items[i], items[j]);
    }
  }

  lemma IdsListed(items: seq<Item>, other: seq<Item>)
    requires forall item :: item in items <==> item in other
    ensures forall id :: id in ItemIds(items) <==> exists item :: item in other && item.id == id
  {
    forall id
      ensures id in ItemIds(items) <==> exists item :: item in other && item.id == id
    {
      if id in ItemIds(items) {
        var i :| 0 <= i < |items| && ItemIds(items)[i] == id;
        assert items[i] in other;
      }
      if item :| item in other && item.id == id {
        var i :| 0 <= i < |items| && items[i] == item;
        assert ItemIds(items)[i] == id;
      }
    }
  }

  /** The manifest check compares with the one list of identifiers there is. */
  lemma ManifestSame(c: Catalog, items: seq<Item>)
    requires Ascending(ById, items) && |items| == |c.items| && forall item :: item in items <==> item in c.items
    ensures ManifestMatches(c, ItemIds(items)) <==> ManifestLists(c)
  {
    IdsAscend(items);
    IdsListed(items, c.items);
    if ManifestLists(c) { SameAscending(IdBefore, c.manifest.ids, ItemIds(items)); }
  }

  lemma WholeSame(c: Catalog)
    ensures (exists item | item in c.items :: !WholeItem(item)) <==> exists item :: item in c.items && !Whole(item)
  {
  }

  lemma UniqueAscending(c: Catalog)
    requires UniqueItems(c.items)
    ensures Ascending(ById, SortBy(ById, c.items)) && UniqueItems(SortBy(ById, c.items))
  {
    SortRearranges(ById, c.items);
    ItemsAreTotal(c.items);
    SortAscending(ById, c.items);
  }

  lemma CatalogOk(c: Catalog)
    requires SoundCatalog(c)
    ensures CatalogItems(c) == Ok(SortBy(ById, c.items))
  {
    var items := SortBy(ById, c.items);
    SortRearranges(ById, c.items);
    UniqueAscending(c);
    WholeSame(c);
    forall i | 0 <= i < |items|
      ensures Owned(c, items[i])
    {
      assert items[i] in c.items;
    }
    CatalogErrorNone(items, {}, c);
    ManifestSame(c, items);
  }

  lemma CatalogSound(c: Catalog)
    requires CatalogItems(c).Ok?
    ensures SoundCatalog(c)
  {
    var items := CatalogItems(c).value;
    CatalogAscends(c, items);
    SameMultiset(items, c.items);
    UniqueRearranged(items, c.items);
    CatalogErrorFree(items, {}, c.parentRunId, c.parentSessionId);
    WholeSame(c);
    forall item | item in c.items
      ensures Owned(c, item)
    {
      var i :| 0 <= i < |items| && items[i] == item;
      OwnedSame(c, item);
    }
    ManifestSame(c, items);
  }

  /** What the catalog is refused for. */
  lemma CatalogRefusal(c: Catalog)
    requires CatalogItems(c).Err?
    ensures
      match CatalogItems(c).error
      case IncompleteExchange => exists item :: item in c.items && !Whole(item)
      case DuplicateContextId => !UniqueItems(c.items)
      case InvalidArtifactRef => exists item :: item in c.items && !Owned(c, item)
      case MissingRequiredContext => !ManifestLists(c)
      case _ => false
  {
    var items := SortBy(ById, c.items);
    SortRearranges(ById, c.items);
    WholeSame(c);
    CatalogErrorTells(items, {}, c);
    if UniqueItems(c.items) { UniqueAscending(c); }
    if CatalogError(items, {}, c.parentRunId, c.parentSessionId).None? {
      CatalogErrorFree(items, {}, c.parentRunId, c.parentSessionId);
      UniqueRearranged(items, c.items);
      UniqueAscending(c);
      ManifestSame(c, items);
    }
  }

  lemma {:induction false} CatalogErrorTells(items: seq<Item>, seen: set<Id>, c: Catalog)
    ensures
      match CatalogError(items, seen, c.parentRunId, c.parentSessionId)
      case None => true
      case Some(DuplicateContextId) =>
        !UniqueItems(items) || exists i :: 0 <= i < |items| && items[i].id in seen
      case Some(InvalidArtifactRef) => exists item :: item in items && !Owned(c, item)
      case Some(_) => false
  {
    if items != [] {
      OwnedSame(c, items[0]);
      var rest := items[1..];
      CatalogErrorTells(rest, seen + {items[0].id}, c);
      if i :| 0 <= i < |rest| && rest[i].id in seen + {items[0].id} {
        assert items[i + 1] == rest[i];
      }
      if !UniqueItems(rest) {
        var i, j :| 0 <= i < j < |rest| && rest[i].id == rest[j].id;
        assert items[i + 1] == rest[i] && items[j + 1] == rest[j];
      }
    }
  }

  // ---------------------------------------------------------------- tokens of the mandatory items

  lemma {:induction false} InsertKeepsSum(less: Order<Candidate>, c: Candidate, cs: seq<Candidate>)
    ensures Sum(Insert(less, c, cs)) == c.item.tokenEstimate + Sum(cs)
  {
    if cs == [] || less(c, cs[0]) {
      assert ([c] + cs)[1..] == cs;
    } else {
      InsertKeepsSum(less, c, cs[1..]);
      assert ([cs[0]] + Insert(less, c, cs[1..]))[1..] == Insert(less, c, cs[1..]);
    }
  }

  lemma {:induction false} SortKeepsSum(less: Order<Candidate>, cs: seq<Candidate>)
    ensures Sum(SortBy(less, cs)) == Sum(cs)
  {
    if cs != [] {
      SortKeepsSum(less, cs[1..]);
      InsertKeepsSum(less, cs[0], SortBy(less, cs[1..]));
    }
  }

  lemma {:induction false} InsertKeepsDemand(item: Item, items: seq<Item>)
    ensures Demand(Insert(ById, item, items))
         == (if item.retention == Optional then 0 else item.tokenEstimate) + Demand(items)
  {
    if items == [] || ById(item, items[0]) {
      assert ([item] + items)[1..] == items;
    } else {
      InsertKeepsDemand(item, items[1..]);
      assert ([items[0]] + Insert(ById, item, items[1..]))[1..] == Insert(ById, item, items[1..]);
    }
  }

  lemma {:induction false} SortKeepsDemand(items: seq<Item>)
    ensures Demand(SortBy(ById, items)) == Demand(items)
  {
    if items != [] {
      SortKeepsDemand(items[1..]);
      InsertKeepsDemand(items[0], SortBy(ById, items[1..]));
    }
  }

  lemma {:induction false} DemandAppend(items: seq<Item>, item: Item)
    ensures Demand(items + [item]) == Demand(items) + if item.retention == Optional then 0 else item.tokenEstimate
  {
    if items != [] {
      assert (items + [item])[1..] == items[1..] + [item];
      DemandAppend(items[1..], item);
    }
  }

  /** All mandatory items being eligible, their candidates ask for exactly their tokens. */
  lemma {:induction false} MandatoryDemand(items: seq<Item>, verdicts: seq<Verdict>)
    requires FromItems(items, verdicts) && !DeniedMandatory(items, verdicts)
    ensures Tokens(Mandatory(verdicts)) == Demand(items)
  {
    if items != [] {
      var n := |items| - 1;
      assert items == items[..n] + [items[n]];
      DemandAppend(items[..n], items[n]);
      NoneDenied(items, verdicts);
      MandatoryDemand(items[..n], verdicts[..n]);
      TokensAppend(Mandatory(verdicts[..n]), if items[n].retention == Optional then [] else [verdicts[n].candidate]);
      OneToken(verdicts[n]);
    }
  }

  lemma NoneDenied(items: seq<Item>, verdicts: seq<Verdict>)
    requires FromItems(items, verdicts) && !DeniedMandatory(items, verdicts) && items != []
    ensures !DeniedMandatory(items[..|items| - 1], verdicts[..|items| - 1])
    ensures items[|items| - 1].retention != Optional ==> verdicts[|items| - 1].Eligible?
  {
    forall i | 0 <= i < |items|
      ensures items[i].retention != Optional ==> verdicts[i].Eligible?
    {
    }
  }

  lemma OneToken(v: Verdict)
    ensures v.Eligible? ==> Tokens([v.candidate]) == v.candidate.item.tokenEstimate
  {
    if v.Eligible? { assert [v.candidate][..0] == []; }
  }

  lemma MandatoryTokens(items: seq<Item>, verdicts: seq<Verdict>, catalog: seq<Item>)
    requires FromItems(items, verdicts) && !DeniedMandatory(items, verdicts) && items == SortBy(ById, catalog)
    ensures Tokens(SortBy(MandatoryBefore, Mandatory(verdicts))) == Demand(catalog)
  {
    TokensAreSum(SortBy(MandatoryBefore, Mandatory(verdicts)));
    TokensAreSum(Mandatory(verdicts));
    SortKeepsSum(MandatoryBefore, Mandatory(verdicts));
    MandatoryDemand(items, verdicts);
    SortKeepsDemand(catalog);
  }

  // ---------------------------------------------------------------- when the selection succeeds

  lemma GrantsOk(input: Input)
    ensures NormalGrants(input.grants, input.taskId, input.catalog.parentSessionId, input.createdAt)
         == if SoundGrants(input) then Ok(SortBy(GrantBefore, input.grants)) else Err(NotAuthorized)
  {
  }

  /** Without an item from the future every item gets a verdict. */
  lemma AllReviewed(input: Input, grants: seq<Grant>, items: seq<Item>) returns (verdicts: seq<Verdict>)
    requires Normalised(input, grants)
    requires forall item | item in items && Permitted(input, item) :: !FromTheFuture(item, input.current)
    ensures Judged(ProfileOf(input), grants, items, verdicts)
    ensures forall i | 0 <= i < |items| :: Tells(input, items[i], Ok(verdicts[i]))
  {
    var p := ProfileOf(input);
    forall i | 0 <= i < |items|
      ensures Review(p, grants, items[i]).Ok? && Tells(input, items[i], Review(p, grants, items[i]))
    {
      ReviewTells(input, grants, items[i]);
      assert items[i] in items;
    }
    verdicts := seq(|items|, i requires 0 <= i < |items| => Review(p, grants, items[i]).value);
  }

  lemma UsableIsEligible(input: Input, items: seq<Item>, verdicts: seq<Verdict>)
    requires |items| == |verdicts| && forall i | 0 <= i < |items| :: Tells(input, items[i], Ok(verdicts[i]))
    ensures DeniedMandatory(items, verdicts)
       <==> exists item :: item in items && item.retention != Optional && !Usable(input, item)
  {
    forall i | 0 <= i < |items|
      ensures verdicts[i].Omitted? <==> !Usable(input, items[i])
    {
      assert Tells(input, items[i], Ok(verdicts[i]));
      if verdicts[i].Omitted? && Usable(input, items[i]) { UsableIsNotRefused(input, items[i], verdicts[i].reason); }
    }
    if item :| item in items && item.retention != Optional && !Usable(input, item) {
      var i :| 0 <= i < |items| && items[i] == item;
    }
    if DeniedMandatory(items, verdicts) {
      var i :| 0 <= i < |items| && items[i].retention != Optional && verdicts[i].Omitted?;
      assert items[i] in items;
    }
  }

  lemma SatisfiableSucceeds(input: Input)
    requires Satisfiable(input)
    ensures Select(input).Ok?
  {
    CatalogOk(input.catalog);
    GrantsOk(input);
    var items, grants := SortBy(ById, input.catalog.items), SortBy(GrantBefore, input.grants);
    SortRearranges(ById, input.catalog.items);
    var verdicts := AllReviewed(input, grants, items);
    UsableIsEligible(input, items, verdicts);
    var available := input.maxInputTokens - input.fixedEnvelopeTokens;
    JudgedFromItems(input, grants, items, verdicts);
    MandatoryTokens(items, verdicts, input.catalog.items);
    SelectionSucceedsExactly(input, grants, items, verdicts, available);
  }

  lemma SuccessIsSatisfiable(input: Input)
    requires Select(input).Ok?
    ensures Satisfiable(input)
  {
    var j, available := SelectedOutcome(input);
    CatalogSound(input.catalog);
    CatalogAscends(input.catalog, j.items);
    GrantsOk(input);
    SelectionInputs(input, j.grants, j.items, j.verdicts);
    VerdictsTell(input, j.grants, j.items, j.verdicts);
    UsableIsEligible(input, j.items, j.verdicts);
    MandatoryTokens(j.items, j.verdicts, input.catalog.items);
    forall item | item in input.catalog.items && Permitted(input, item)
      ensures !FromTheFuture(item, input.current)
    {
      var i :| 0 <= i < |j.items| && j.items[i] == item;
      assert Tells(input, j.items[i], Ok(j.verdicts[i]));
    }
  }

  /** A selection succeeds exactly when the input is sound and its mandatory items are usable and fit. */
  lemma SucceedsExactly(input: Input)
    ensures Select(input).Ok? <==> Satisfiable(input)
  {
    if Satisfiable(input) { SatisfiableSucceeds(input); }
    if Select(input).Ok? { SuccessIsSatisfiable(input); }
  }

  /** Selecting is following the rules. */
  lemma SelectionIsTheProperOne(input: Input, s: Selection)
    ensures Select(input) == Ok(s) <==> Satisfiable(input) && Proper(input, s)
  {
    SucceedsExactly(input);
    if Select(input).Ok? {
      SelectionFollowsRules(input);
      if Proper(input, s) { RulesDetermineSelection(input, s, Select(input).value); }
    }
  }

  // ---------------------------------------------------------------- what a failure means

  ghost predicate Justified(input: Input, e: SelectError) {
    var c := input.catalog;
    match e
    case OverBudget =>
      input.maxInputTokens < input.fixedEnvelopeTokens + Demand(c.items)
    case IncompleteExchange => exists item :: item in c.items && !Whole(item)
    case DuplicateContextId => !UniqueItems(c.items)
    case InvalidArtifactRef => exists item :: item in c.items && !Owned(c, item)
    case MissingRequiredContext =>
      !ManifestLists(c) || exists item :: item in c.items && item.retention != Optional && !Usable(input, item)
    case NotAuthorized => !SoundGrants(input)
    case InvalidActionSeq =>
      exists item :: item in c.items && Permitted(input, item) && FromTheFuture(item, input.current)
    case _ => false
  }

  lemma {:induction false} FirstError(input: Input, grants: seq<Grant>, items: seq<Item>)
    requires Normalised(input, grants) && Reviews(ProfileOf(input), grants, items).Err?
    ensures Reviews(ProfileOf(input), grants, items) == Err(InvalidActionSeq)
    ensures exists item :: item in items && Permitted(input, item) && FromTheFuture(item, input.current)
  {
    var last := |items| - 1;
    assert items == items[..last] + [items[last]];
    ReviewTells(input, grants, items[last]);
    if Reviews(ProfileOf(input), grants, items[..last]).Err? {
      FirstError(input, grants, items[..last]);
    } else {
      assert items[last] in items;
    }
  }

  lemma DecisionRefusal(input: Input, grants: seq<Grant>, items: seq<Item>, verdicts: seq<Verdict>)
    requires SelectedFrom(input, grants, items, verdicts) && input.fixedEnvelopeTokens <= input.maxInputTokens
    requires Select(input).Err?
    ensures Justified(input, Select(input).error)
  {
    SelectionInputs(input, grants, items, verdicts);
    CatalogAscends(input.catalog, items);
    VerdictsTell(input, grants, items, verdicts);
    UsableIsEligible(input, items, verdicts);
    var available := input.maxInputTokens - input.fixedEnvelopeTokens;
    if DeniedMandatory(items, verdicts) {
      DeniedIsMissing(input, grants, items, verdicts);
    } else {
      SelectionSucceedsExactly(input, grants, items, verdicts, available);
      MandatoryTokens(items, verdicts, input.catalog.items);
    }
  }

  lemma DeniedIsMissing(input: Input, grants: seq<Grant>, items: seq<Item>, verdicts: seq<Verdict>)
    requires SelectedFrom(input, grants, items, verdicts) && input.fixedEnvelopeTokens <= input.maxInputTokens
    requires DeniedMandatory(items, verdicts)
    ensures Select(input) == Err(MissingRequiredContext)
  {
    JudgedIsReviewed(input, grants, items, verdicts);
  }

  /** Every failure names something that is wrong with the input. */
  lemma FailureIsJustified(input: Input)
    requires Select(input).Err?
    ensures Justified(input, Select(input).error)
  {
    if input.fixedEnvelopeTokens <= input.maxInputTokens {
      if CatalogItems(input.catalog).Err? {
        CatalogRefusal(input.catalog);
      } else {
        GrantsOk(input);
        if SoundGrants(input) { ReviewedRefusal(input, SortBy(GrantBefore, input.grants)); }
      }
    }
  }

  lemma ReviewedRefusal(input: Input, grants: seq<Grant>)
    requires CatalogItems(input.catalog).Ok? && Normalised(input, grants)
    requires input.fixedEnvelopeTokens <= input.maxInputTokens && Select(input).Err?
    ensures Justified(input, Select(input).error)
  {
    var items := CatalogItems(input.catalog).value;
    if Reviews(ProfileOf(input), grants, items).Err? {
      FirstError(input, grants, items);
      CatalogAscends(input.catalog, items);
    } else {
      ReviewsJudge(input, grants, items);
      DecisionRefusal(input, grants, items, Reviews(ProfileOf(input), grants, items).value);
    }
  }

  // ---------------------------------------------------------------- what the score does

  /** Equally fresh items differ by thirty points for each term of the query. */
  lemma ThirtyPerTerm(input: Input, c: Candidate, d: Candidate)
    requires Describes(input, c) && Describes(input, d) && c.freshness == d.freshness
    ensures c.score - d.score == 30 * (|Shared(c.item, input.queryTerms)| - |Shared(d.item, input.queryTerms)|)
  {
  }

  /** A step further back costs one point, within twenty steps, and none beyond them. */
  lemma OnePerStep(input: Input, c: Candidate, d: Candidate, source: nat, further: nat, against: nat)
    requires Describes(input, c) && Describes(input, d) && further <= source < against
    requires |Shared(c.item, input.queryTerms)| == |Shared(d.item, input.queryTerms)|
    requires || (c.freshness == Historical(source, against) && d.freshness == Historical(further, against))
             || (c.freshness == Stale(source, against) && d.freshness == Stale(further, against))
    ensures against - further <= 20 ==> c.score == d.score + (source - further)
    ensures against - source >= 20 ==> c.score == d.score
  {
  }

  /** Current before historical; historical before what belongs to no action, and that before stale beyond reach. */
  lemma FreshnessLadder(input: Input, c: Candidate, d: Candidate)
    requires Describes(input, c) && Describes(input, d)
    requires |Shared(c.item, input.queryTerms)| == |Shared(d.item, input.queryTerms)|
    ensures c.freshness.Current? && d.freshness.Historical? ==> c.score >= d.score + 16
    ensures c.freshness.Historical? && d.freshness.Unbound? ==> c.score >= d.score + 10
    ensures c.freshness.Historical? && d.freshness.Stale? && c.freshness.source >= d.freshness.source ==>
              c.score >= d.score + 25
    ensures c.freshness.Unbound? && d.freshness.Stale? && d.freshness.against - d.freshness.source >= 20 ==>
              c.score == d.score + 15
  {
  }

  /** An optional item is not left out for the budget while a lower one of at least its size is taken. */
  lemma BetterIsTaken(input: Input, c: Candidate, d: Candidate)
    requires Select(input).Ok? && c in Select(input).value.selected && c.item.retention == Optional
    requires d.item in input.catalog.items && d.item.retention == Optional && Describes(input, d)
    requires Omission(d.item.id, BudgetExceeded) in Select(input).value.omitted
    requires d.item.tokenEstimate <= c.item.tokenEstimate
    ensures Outranks(c, d)
  {
    var s := Select(input).value;
    SelectionFollowsRules(input);
    SuccessIsSatisfiable(input);
    OmittedIsNotSelected(s, Omission(d.item.id, BudgetExceeded));
    AbsentOvershoots(input, s, d);
    var i :| 0 <= i < |s.selected| && s.selected[i] == c;
    var n :|
      && Belongs(s.selected, d, n)
      && input.fixedEnvelopeTokens + Sum(s.selected[..n]) + d.item.tokenEstimate > input.maxInputTokens;
    if n <= i {
      SumOfPrefix(s.selected, i);
      SumGrows(s.selected, n, i);
    }
    BelongsAt(s.selected, d, n, i);
  }

  lemma {:induction false} SumGrows(cs: seq<Candidate>, m: nat, n: nat)
    requires m <= n <= |cs|
    ensures Sum(cs[..m]) <= Sum(cs[..n])
  {
    if m > 0 {
      assert cs[..m][1..] == cs[1..][..m - 1] && cs[..n][1..] == cs[1..][..n - 1];
      SumGrows(cs[1..], m - 1, n - 1);
    }
  }

  /**
   Of two optional items of one size and freshness, the one that shares more terms with the query
   is never left out for the budget while the other is taken.
   */
  lemma QueryDecides(input: Input, c: Candidate, d: Item)
    requires Select(input).Ok? && c in Select(input).value.selected && c.item.retention == Optional
    requires d in input.catalog.items && d.retention == Optional && d.tokenEstimate == c.item.tokenEstimate
    requires Usable(input, d) && FreshAs(d, input.current, c.freshness)
    requires |Shared(d, input.queryTerms)| > |Shared(c.item, input.queryTerms)|
    ensures Omission(d.id, BudgetExceeded) !in Select(input).value.omitted
  {
    if Omission(d.id, BudgetExceeded) in Select(input).value.omitted {
      SelectionFollowsRules(input);
      SuccessIsSatisfiable(input);
      var w := OmittedCandidate(input, Select(input).value, d);
      FreshnessIsUnique(d, input.current, w.freshness, c.freshness);
      BetterIsTaken(input, c, w);
      ThirtyPerTerm(input, c, w);
      MoreForTheSame(c, w);
    }
  }

  lemma FreshnessIsUnique(item: Item, current: ActionBinding, f: Assessment, g: Assessment)
    requires FreshAs(item, current, f) && FreshAs(item, current, g)
    ensures f == g
  {
  }

  lemma OmittedCandidate(input: Input, s: Selection, d: Item) returns (w: Candidate)
    requires Proper(input, s) && UniqueItems(input.catalog.items) && d in input.catalog.items && Usable(input, d)
    requires Omission(d.id, BudgetExceeded) in s.omitted
    ensures Describes(input, w) && w.item == d
  {
    var item :| item in input.catalog.items && LeftOut(input, s, Omission(d.id, BudgetExceeded), item);
    SameIdSameItem(input.catalog.items, item, d);
    UsableIsNotRefused(input, d, BudgetExceeded);
    w :| Describes(input, w) && w.item == item && Overshoots(input, s.selected, w);
  }

  lemma MoreForTheSame(c: Candidate, w: Candidate)
    requires Outranks(c, w) && c.item.tokenEstimate == w.item.tokenEstimate
    ensures w.score <= c.score
  {
    if c.score < w.score { ProductGrows(c.score, w.score, Size(c)); }
  }
}
