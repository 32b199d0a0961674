/**
 What a context selection guarantees
 (packages/web-buddy/src/agents/context-selector.ts:66-161, 216-239, 398-412).
 */
module SelectionLaws {
  import opened Wrappers
  import opened Contracts
  import opened Sorting
  import opened ContextSelector

  // ---------------------------------------------------------------- the comparators

  lemma {:induction false} ProductGrows(x: nat, y: nat, m: nat)
    requires 0 < m && x < y
    ensures x * m < y * m
  {
    if m > 1 {
      ProductGrows(x, y, m - 1);
      assert x * m == x * (m - 1) + x && y * m == y * (m - 1) + y;
    }
  }

  lemma ProductOrder(x: nat, y: nat, m: nat)
    requires 0 < m
    ensures x * m < y * m <==> x < y
    ensures x * m == y * m <==> x == y
  {
    if x < y { ProductGrows(x, y, m); }
    if y < x { ProductGrows(y, x, m); }
  }

  lemma Swap3(x: nat, y: nat, z: nat)
    ensures x * y * z == x * z * y
  {
  }

  /** Cross-multiplied comparison of ratios is transitive; strictly so when either step is strict. */
  lemma RatiosChain(s1: nat, d1: nat, s2: nat, d2: nat, s3: nat, d3: nat)
    requires 0 < d1 && 0 < d2 && 0 < d3
    requires s2 * d1 <= s1 * d2 && s3 * d2 <= s2 * d3
    ensures s3 * d1 <= s1 * d3
    ensures s2 * d1 < s1 * d2 || s3 * d2 < s2 * d3 ==> s3 * d1 < s1 * d3
  {
    ProductOrder(s1 * d2, s2 * d1, d3);
    ProductOrder(s2 * d3, s3 * d2, d1);
    ProductOrder(s1 * d3, s3 * d1, d2);
    Swap3(s1, d2, d3);
    Swap3(s2, d1, d3);
    Swap3(s3, d2, d1);
  }

  lemma RatiosTie(s1: nat, d1: nat, s2: nat, d2: nat, s3: nat, d3: nat)
    requires 0 < d1 && 0 < d2 && 0 < d3
    requires s2 * d1 == s1 * d2 && s3 * d2 == s2 * d3
    ensures s3 * d1 == s1 * d3
  {
    RatiosChain(s1, d1, s2, d2, s3, d3);
    RatiosChain(s3, d3, s2, d2, s1, d1);
  }

  lemma RelevantTransitive(a: Candidate, b: Candidate, c: Candidate)
    requires RelevantBefore(a, b) && RelevantBefore(b, c)
    ensures RelevantBefore(a, c)
  {
    var wa, wb, wc := Weight(a), Weight(b), Weight(c);
    RatiosChain(a.score, wa, b.score, wb, c.score, wc);
    if b.score * wa == a.score * wb && c.score * wb == b.score * wc {
      RatiosTie(a.score, wa, b.score, wb, c.score, wc);
    }
  }

  ghost predicate DistinctIds(s: set<Candidate>) {
    forall a, b | a in s && b in s && a != b :: a.item.id != b.item.id
  }

  /** The relevance comparator is a strict total order on candidates with distinct identifiers. */
  lemma RelevantIsTotal(s: set<Candidate>)
    requires DistinctIds(s)
    ensures StrictTotalOn(RelevantBefore, s)
  {
    forall a, b, c | a in s && b in s && c in s && RelevantBefore(a, b) && RelevantBefore(b, c)
      ensures RelevantBefore(a, c)
    {
      RelevantTransitive(a, b, c);
    }
  }

  lemma MandatoryIsTotal(s: set<Candidate>)
    requires DistinctIds(s)
    ensures StrictTotalOn(MandatoryBefore, s)
  {
  }

  // ---------------------------------------------------------------- items in identifier order

  ghost predicate UniqueItems(items: seq<Item>) {
    forall i, j | 0 <= i < j < |items| :: items[i].id != items[j].id
  }

  lemma {:induction false} CatalogErrorFree(items: seq<Item>, seen: set<Id>, runId: Id, sessionId: Id)
    requires CatalogError(items, seen, runId, sessionId).None?
    ensures UniqueItems(items) && forall i | 0 <= i < |items| ::
              items[i].id !in seen && OwnedRefs(ItemRefs(items[i]), runId, sessionId)
  {
    if items != [] {
      CatalogErrorFree(items[1..], seen + {items[0].id}, runId, sessionId);
      forall i | 0 < i < |items|
        ensures items[i].id !in seen && items[i].id != items[0].id && OwnedRefs(ItemRefs(items[i]), runId, sessionId)
      {
        assert items[i] == items[1..][i - 1];
      }
      forall i, j | 0 < i < j < |items|
        ensures items[i].id != items[j].id
      {
        assert items[i] == items[1..][i - 1] && items[j] == items[1..][j - 1];
      }
    }
  }

  lemma ItemsAreTotal(items: seq<Item>)
    requires UniqueItems(items)
    ensures StrictTotalOn(ById, Elements(items)) && Distinct(items)
  {
    forall a, b | a in Elements(items) && b in Elements(items) && a != b
      ensures a.id != b.id
    {
      var i :| 0 <= i < |items| && items[i] == a;
      var j :| 0 <= j < |items| && items[j] == b;
    }
  }

  /** The order in which the catalog lists its items does not matter at all. */
  lemma SelectionIgnoresCatalogOrder(input: Input, items: seq<Item>)
    requires UniqueItems(input.catalog.items) && multiset(items) == multiset(input.catalog.items)
    ensures Select(input.(catalog := input.catalog.(items := items))) == Select(input)
  {
    ItemsAreTotal(input.catalog.items);
    SortIgnoresInputOrder(ById, input.catalog.items, items);
    assert forall item :: item in items <==> item in multiset(items);
    assert forall item :: item in input.catalog.items <==> item in multiset(input.catalog.items);
    SortedCatalogDecides(input, input.(catalog := input.catalog.(items := items)));
  }

  lemma SortedCatalogDecides(a: Input, b: Input)
    requires CatalogItems(a.catalog) == CatalogItems(b.catalog)
    requires a.catalog.parentSessionId == b.catalog.parentSessionId
    requires b.(catalog := a.catalog) == a
    ensures Judge(a) == Judge(b)
  {
    if CatalogItems(a.catalog).Ok? {
      var sorted := CatalogItems(a.catalog).value;
      var grants := NormalGrants(a.grants, a.taskId, a.catalog.parentSessionId, a.createdAt);
      if grants.Ok? {
        if a.fixedEnvelopeTokens <= a.maxInputTokens { SameDecision(a, b, grants.value, sorted); }
      }
    }
  }

  lemma SameDecision(a: Input, b: Input, grants: seq<Grant>, items: seq<Item>)
    requires a.fixedEnvelopeTokens <= a.maxInputTokens && b.(catalog := a.catalog) == a
    ensures Decide(a, grants, items) == Decide(b, grants, items)
  {
    assert a.maxInputTokens == b.maxInputTokens && a.fixedEnvelopeTokens == b.fixedEnvelopeTokens
      && ProfileOf(a) == ProfileOf(b);
  }

  // ---------------------------------------------------------------- lists of candidates

  ghost predicate DistinctCandidates(cs: seq<Candidate>) {
    forall i, j | 0 <= i < j < |cs| :: cs[i].item.id != cs[j].item.id
  }

  lemma DistinctElements(cs: seq<Candidate>)
    requires DistinctCandidates(cs)
    ensures DistinctIds(Elements(cs)) && Distinct(cs)
  {
    forall a, b | a in Elements(cs) && b in Elements(cs) && a != b
      ensures a.item.id != b.item.id
    {
      var i :| 0 <= i < |cs| && cs[i] == a;
      var j :| 0 <= j < |cs| && cs[j] == b;
    }
  }

  lemma SortKeepsCandidates(less: Order<Candidate>, cs: seq<Candidate>)
    requires DistinctCandidates(cs)
    ensures DistinctCandidates(SortBy(less, cs)) && multiset(SortBy(less, cs)) == multiset(cs)
    ensures forall c :: c in SortBy(less, cs) <==> c in cs
  {
    SortRearranges(less, cs);
    DistinctElements(cs);
    DistinctFollowsMultiset(cs, SortBy(less, cs));
    var r := SortBy(less, cs);
    forall i, j | 0 <= i < j < |r|
      ensures r[i].item.id != r[j].item.id
    {
      assert r[i] in cs && r[j] in cs && r[i] != r[j];
      assert r[i] in Elements(cs) && r[j] in Elements(cs);
    }
  }

  /** Verdicts belong to their items. */
  ghost predicate Judged(p: Profile, grants: seq<Grant>, items: seq<Item>, verdicts: seq<Verdict>) {
    |verdicts| == |items| && forall i | 0 <= i < |items| :: Review(p, grants, items[i]) == Ok(verdicts[i])
  }

  lemma {:induction false} ReviewsJudge(input: Input, grants: seq<Grant>, items: seq<Item>)
    requires Reviews(ProfileOf(input), grants, items).Ok?
    ensures Judged(ProfileOf(input), grants, items, Reviews(ProfileOf(input), grants, items).value)
  {
    if items != [] {
      ReviewsJudge(input, grants, items[..|items| - 1]);
    }
  }

  lemma {:induction false} JudgedIsReviewed(input: Input, grants: seq<Grant>, items: seq<Item>, verdicts: seq<Verdict>)
    requires Judged(ProfileOf(input), grants, items, verdicts)
    ensures Reviews(ProfileOf(input), grants, items) == Ok(verdicts)
  {
    if items != [] {
      var last := |items| - 1;
      JudgedIsReviewed(input, grants, items[..last], verdicts[..last]);
      assert verdicts == verdicts[..last] + [verdicts[last]];
    }
  }

  ghost predicate FromItems(items: seq<Item>, verdicts: seq<Verdict>) {
    |verdicts| == |items| && forall i | 0 <= i < |items| && verdicts[i].Eligible? ::
      verdicts[i].candidate.item == items[i]
  }

  lemma {:induction false} MandatoryMember(items: seq<Item>, verdicts: seq<Verdict>, c: Candidate)
    requires FromItems(items, verdicts)
    ensures c in Mandatory(verdicts) <==>
              exists i :: 0 <= i < |items| && verdicts[i] == Eligible(c) && items[i].retention != Optional
  {
    if items != [] {
      var n := |items| - 1;
      MandatoryMember(items[..n], verdicts[..n], c);
      assert forall i | 0 <= i < n :: verdicts[..n][i] == verdicts[i] && items[..n][i] == items[i];
    }
  }

  lemma {:induction false} OptionalMember(items: seq<Item>, verdicts: seq<Verdict>, c: Candidate)
    requires FromItems(items, verdicts)
    ensures c in OptionalOnes(verdicts) <==>
              exists i :: 0 <= i < |items| && verdicts[i] == Eligible(c) && items[i].retention == Optional
  {
    if items != [] {
      var n := |items| - 1;
      OptionalMember(items[..n], verdicts[..n], c);
      assert forall i | 0 <= i < n :: verdicts[..n][i] == verdicts[i] && items[..n][i] == items[i];
    }
  }

  lemma {:induction false} MandatoryDistinct(items: seq<Item>, verdicts: seq<Verdict>)
    requires FromItems(items, verdicts) && UniqueItems(items)
    ensures DistinctCandidates(Mandatory(verdicts))
  {
    if items != [] {
      var n := |items| - 1;
      MandatoryDistinct(items[..n], verdicts[..n]);
      forall c | c in Mandatory(verdicts[..n])
        ensures c.item.id != items[n].id
      {
        MandatoryMember(items[..n], verdicts[..n], c);
        var i :| 0 <= i < n && verdicts[..n][i] == Eligible(c);
        assert c.item == items[i];
      }
    }
  }

  lemma {:induction false} OptionalDistinct(items: seq<Item>, verdicts: seq<Verdict>)
    requires FromItems(items, verdicts) && UniqueItems(items)
    ensures DistinctCandidates(OptionalOnes(verdicts))
  {
    if items != [] {
      var n := |items| - 1;
      OptionalDistinct(items[..n], verdicts[..n]);
      forall c | c in OptionalOnes(verdicts[..n])
        ensures c.item.id != items[n].id
      {
        OptionalMember(items[..n], verdicts[..n], c);
        var i :| 0 <= i < n && verdicts[..n][i] == Eligible(c);
        assert c.item == items[i];
      }
    }
  }

  lemma MandatoryExactly(items: seq<Item>, verdicts: seq<Verdict>)
    requires FromItems(items, verdicts) && UniqueItems(items)
    ensures DistinctCandidates(Mandatory(verdicts))
    ensures forall c :: c in Mandatory(verdicts) <==>
              exists i :: 0 <= i < |items| && verdicts[i] == Eligible(c) && items[i].retention != Optional
  {
    MandatoryDistinct(items, verdicts);
    forall c
      ensures c in Mandatory(verdicts) <==>
                exists i :: 0 <= i < |items| && verdicts[i] == Eligible(c) && items[i].retention != Optional
    {
      MandatoryMember(items, verdicts, c);
    }
  }

  lemma OptionalExactly(items: seq<Item>, verdicts: seq<Verdict>)
    requires FromItems(items, verdicts) && UniqueItems(items)
    ensures DistinctCandidates(OptionalOnes(verdicts))
    ensures forall c :: c in OptionalOnes(verdicts) <==>
              exists i :: 0 <= i < |items| && verdicts[i] == Eligible(c) && items[i].retention == Optional
  {
    OptionalDistinct(items, verdicts);
    forall c
      ensures c in OptionalOnes(verdicts) <==>
                exists i :: 0 <= i < |items| && verdicts[i] == Eligible(c) && items[i].retention == Optional
    {
      OptionalMember(items, verdicts, c);
    }
  }

  // ---------------------------------------------------------------- the greedy pass

  lemma {:induction false} TokensAppend(a: seq<Candidate>, b: seq<Candidate>)
    ensures Tokens(a + b) == Tokens(a) + Tokens(b)
  {
    if b == [] {
      assert a + b == a;
    } else {
      assert (a + b)[..|a + b| - 1] == a + b[..|b| - 1];
      TokensAppend(a, b[..|b| - 1]);
    }
  }

  lemma {:induction false} PackingSplits(cs: seq<Candidate>, used: nat, available: nat)
    requires DistinctCandidates(cs)
    ensures
      var p := Pack(cs, used, available);
      && (forall c :: c in p.taken || c in p.left <==> c in cs)
      && (forall c | c in p.taken :: c !in p.left)
      && DistinctCandidates(p.taken) && DistinctCandidates(p.left)
  {
    if cs != [] {
      var n := |cs| - 1;
      PackingSplits(cs[..n], used, available);
      assert cs == cs[..n] + [cs[n]];
      forall c | c in cs[..n]
        ensures c.item.id != cs[n].item.id
      {
        var i :| 0 <= i < n && cs[..n][i] == c;
      }
    }
  }

  /** Greedy packing keeps within the budget and leaves out only what would overshoot the final selection too. */
  lemma {:induction false} PackingIsMaximal(cs: seq<Candidate>, used: nat, available: nat)
    requires used <= available
    ensures
      var p := Pack(cs, used, available);
      && p.tokens == used + Tokens(p.taken) && p.tokens <= available
      && forall c | c in p.left :: p.tokens + c.item.tokenEstimate > available
  {
    if cs != [] {
      var n := |cs| - 1;
      PackingIsMaximal(cs[..n], used, available);
      var p := Pack(cs[..n], used, available);
      assert Tokens(p.taken + [cs[n]]) == Tokens(p.taken) + cs[n].item.tokenEstimate by {
        assert (p.taken + [cs[n]])[..|p.taken|] == p.taken;
      }
    }
  }

  // ---------------------------------------------------------------- the audit

  ghost predicate OmittedAt(items: seq<Item>, verdicts: seq<Verdict>, chosen: set<Id>, o: Omission, i: nat)
    requires |verdicts| == |items|
  {
    && i < |items| && items[i].id == o.id && o.id !in chosen
    && o.reason == (if verdicts[i].Omitted? then verdicts[i].reason else BudgetExceeded)
  }

  lemma {:induction false} OmissionsMember(items: seq<Item>, verdicts: seq<Verdict>, chosen: set<Id>, o: Omission)
    requires |verdicts| == |items|
    ensures o in Omissions(items, verdicts, chosen) <==> exists i: nat :: OmittedAt(items, verdicts, chosen, o, i)
  {
    if items != [] {
      var n := |items| - 1;
      OmissionsMember(items[..n], verdicts[..n], chosen, o);
      assert o in Omissions(items, verdicts, chosen)
        <==> o in Omissions(items[..n], verdicts[..n], chosen) || OmittedAt(items, verdicts, chosen, o, n);
      forall i: nat | i < n
        ensures OmittedAt(items[..n], verdicts[..n], chosen, o, i) <==> OmittedAt(items, verdicts, chosen, o, i)
      {
        assert verdicts[..n][i] == verdicts[i] && items[..n][i] == items[i];
      }
    }
  }

  lemma {:induction false} OmissionsDistinct(items: seq<Item>, verdicts: seq<Verdict>, chosen: set<Id>)
    requires |verdicts| == |items| && UniqueItems(items)
    ensures Distinct(OmittedIds(Omissions(items, verdicts, chosen)))
  {
    if items != [] {
      var n := |items| - 1;
      OmissionsDistinct(items[..n], verdicts[..n], chosen);
      var front := Omissions(items[..n], verdicts[..n], chosen);
      forall k | 0 <= k < |front|
        ensures front[k].id != items[n].id
      {
        OmissionsMember(items[..n], verdicts[..n], chosen, front[k]);
        var i: nat :| OmittedAt(items[..n], verdicts[..n], chosen, front[k], i);
        assert items[..n][i] == items[i];
      }
    }
  }

  lemma OmissionsExactly(items: seq<Item>, verdicts: seq<Verdict>, chosen: set<Id>)
    requires |verdicts| == |items| && UniqueItems(items)
    ensures forall o :: o in Omissions(items, verdicts, chosen) <==> exists i: nat ::
              OmittedAt(items, verdicts, chosen, o, i)
    ensures Distinct(OmittedIds(Omissions(items, verdicts, chosen)))
  {
    forall o
      ensures o in Omissions(items, verdicts, chosen) <==> exists i: nat :: OmittedAt(items, verdicts, chosen, o, i)
    {
      OmissionsMember(items, verdicts, chosen, o);
    }
    OmissionsDistinct(items, verdicts, chosen);
  }

  lemma SameElementsSameMultiset(xs: seq<Id>, ys: seq<Id>)
    requires Distinct(xs) && Distinct(ys) && forall x :: x in xs <==> x in ys
    ensures multiset(xs) == multiset(ys)
  {
    forall x
      ensures multiset(xs)[x] == multiset(ys)[x]
    {
      OneOccurrence(xs, x);
      OneOccurrence(ys, x);
      assert x in xs <==> x in multiset(xs);
      assert x in ys <==> x in multiset(ys);
    }
  }

  lemma IdsAreTotal(s: set<Id>)
    ensures StrictTotalOn(IdBefore, s)
  {
  }

  /** Chosen and omitted identifiers together are the catalog's, each exactly once. */
  lemma AuditIsPartition(items: seq<Item>, verdicts: seq<Verdict>, selected: seq<Candidate>)
    requires |verdicts| == |items| && UniqueItems(items) && DistinctCandidates(selected)
    requires forall c | c in selected :: exists i :: 0 <= i < |items| && items[i].id == c.item.id
    ensures
      var omitted := Omissions(items, verdicts, Elements(CandidateIds(selected)));
      && CompletePartition(items, selected, omitted)
      && multiset(CandidateIds(selected) + OmittedIds(omitted)) == multiset(ItemIds(items))
  {
    var chosen := Elements(CandidateIds(selected));
    var omitted := Omissions(items, verdicts, chosen);
    OmissionsExactly(items, verdicts, chosen);
    var audit := CandidateIds(selected) + OmittedIds(omitted);
    AuditElements(items, verdicts, selected, omitted);
    assert Distinct(ItemIds(items));
    SameElementsSameMultiset(audit, ItemIds(items));
    SameMultiset(audit, ItemIds(items));
    IdsAreTotal(Elements(ItemIds(items)));
    SortIgnoresInputOrder(IdBefore, ItemIds(items), audit);
  }

  lemma SelectedAreListed(items: seq<Item>, selected: seq<Candidate>)
    requires forall c | c in selected :: exists i :: 0 <= i < |items| && items[i].id == c.item.id
    ensures forall x | x in CandidateIds(selected) :: x in ItemIds(items)
  {
    forall k | 0 <= k < |selected|
      ensures CandidateIds(selected)[k] in ItemIds(items)
    {
      assert selected[k] in selected;
      var i :| 0 <= i < |items| && items[i].id == selected[k].item.id;
      assert ItemIds(items)[i] == selected[k].item.id;
    }
  }

  lemma OmittedAreListed(items: seq<Item>, verdicts: seq<Verdict>, chosen: set<Id>)
    requires |verdicts| == |items| && UniqueItems(items)
    ensures forall x :: x in OmittedIds(Omissions(items, verdicts, chosen)) <==> x in ItemIds(items) && x !in chosen
  {
    var omitted := Omissions(items, verdicts, chosen);
    OmissionsExactly(items, verdicts, chosen);
    forall k | 0 <= k < |omitted|
      ensures OmittedIds(omitted)[k] in ItemIds(items) && OmittedIds(omitted)[k] !in chosen
    {
      assert omitted[k] in omitted;
      var i: nat :| OmittedAt(items, verdicts, chosen, omitted[k], i);
      assert ItemIds(items)[i] == omitted[k].id;
    }
    forall x | x in ItemIds(items) && x !in chosen
      ensures x in OmittedIds(omitted)
    {
      var i :| 0 <= i < |items| && ItemIds(items)[i] == x;
      var o := Omission(x, if verdicts[i].Omitted? then verdicts[i].reason else BudgetExceeded);
      assert OmittedAt(items, verdicts, chosen, o, i);
      assert o in omitted;
      var k :| 0 <= k < |omitted| && omitted[k] == o;
      assert OmittedIds(omitted)[k] == x;
    }
  }

  lemma DistinctIdLists(a: seq<Id>, b: seq<Id>)
    requires Distinct(a) && Distinct(b) && forall x | x in b :: x !in a
    ensures Distinct(a + b)
  {
    var both := a + b;
    forall i, j | 0 <= i < j < |both|
      ensures both[i] != both[j]
    {
      if i < |a| && |a| <= j {
        assert both[j] == b[j - |a|] && both[j] in b && both[i] in a;
      }
    }
  }

  lemma AuditElements(items: seq<Item>, verdicts: seq<Verdict>, selected: seq<Candidate>, omitted: seq<Omission>)
    requires |verdicts| == |items| && UniqueItems(items) && DistinctCandidates(selected)
    requires forall c | c in selected :: exists i :: 0 <= i < |items| && items[i].id == c.item.id
    requires omitted == Omissions(items, verdicts, Elements(CandidateIds(selected)))
    ensures
      var audit := CandidateIds(selected) + OmittedIds(omitted);
      Distinct(audit) && forall x :: x in audit <==> x in ItemIds(items)
  {
    var chosen := Elements(CandidateIds(selected));
    OmissionsExactly(items, verdicts, chosen);
    SelectedAreListed(items, selected);
    OmittedAreListed(items, verdicts, chosen);
    DistinctIdLists(CandidateIds(selected), OmittedIds(omitted));
  }

  // ---------------------------------------------------------------- the selection as a whole

  /** What a successful selection was computed from. */
  ghost predicate SelectedFrom(input: Input, grants: seq<Grant>, items: seq<Item>, verdicts: seq<Verdict>) {
    && CatalogItems(input.catalog) == Ok(items)
    && NormalGrants(input.grants, input.taskId, input.catalog.parentSessionId, input.createdAt) == Ok(grants)
    && Judged(ProfileOf(input), grants, items, verdicts)
  }

  lemma SelectionInputs(input: Input, grants: seq<Grant>, items: seq<Item>, verdicts: seq<Verdict>)
    requires SelectedFrom(input, grants, items, verdicts)
    ensures UniqueItems(items) && Judged(ProfileOf(input), grants, items, verdicts) && FromItems(items, verdicts)
    ensures multiset(items) == multiset(input.catalog.items)
  {
    CatalogErrorFree(items, {}, input.catalog.parentRunId, input.catalog.parentSessionId);
    SortRearranges(ById, input.catalog.items);
    JudgedFromItems(input, grants, items, verdicts);
  }

  lemma JudgedFromItems(input: Input, grants: seq<Grant>, items: seq<Item>, verdicts: seq<Verdict>)
    requires Judged(ProfileOf(input), grants, items, verdicts)
    ensures FromItems(items, verdicts)
  {
    forall i | 0 <= i < |items| && verdicts[i].Eligible?
      ensures verdicts[i].candidate.item == items[i]
    {
      assert Review(ProfileOf(input), grants, items[i]) == Ok(verdicts[i]);
    }
  }

  /** The chosen candidates in their final order. */
  function Chosen(verdicts: seq<Verdict>, available: nat): seq<Candidate> {
    var mandatory := SortBy(MandatoryBefore, Mandatory(verdicts));
    mandatory + Pack(SortBy(RelevantBefore, OptionalOnes(verdicts)), Tokens(mandatory), available).taken
  }

  /** Chosen candidates are distinct and eligible, and include every eligible mandatory one. */
  lemma ChosenAreEligible(items: seq<Item>, verdicts: seq<Verdict>, available: nat)
    requires FromItems(items, verdicts) && UniqueItems(items)
    ensures DistinctCandidates(Chosen(verdicts, available))
    ensures forall c | c in Chosen(verdicts, available) :: exists i :: 0 <= i < |items| && verdicts[i] == Eligible(c)
    ensures forall i | 0 <= i < |items| && verdicts[i].Eligible? && items[i].retention != Optional ::
              verdicts[i].candidate in Chosen(verdicts, available)
  {
    MandatoryExactly(items, verdicts);
    OptionalExactly(items, verdicts);
    SortKeepsCandidates(MandatoryBefore, Mandatory(verdicts));
    SortKeepsCandidates(RelevantBefore, OptionalOnes(verdicts));
    var mandatory := SortBy(MandatoryBefore, Mandatory(verdicts));
    var optional := SortBy(RelevantBefore, OptionalOnes(verdicts));
    PackingSplits(optional, Tokens(mandatory), available);
    var taken := Pack(optional, Tokens(mandatory), available).taken;
    forall a, b | a in mandatory && b in taken
      ensures a.item.id != b.item.id
    {
      assert b in optional;
      var i :| 0 <= i < |items| && verdicts[i] == Eligible(a) && items[i].retention != Optional;
      var j :| 0 <= j < |items| && verdicts[j] == Eligible(b) && items[j].retention == Optional;
      assert i != j;
    }
    JoinDistinct(mandatory, taken);
  }

  lemma JoinDistinct(xs: seq<Candidate>, ys: seq<Candidate>)
    requires DistinctCandidates(xs) && DistinctCandidates(ys)
    requires forall a, b | a in xs && b in ys :: a.item.id != b.item.id
    ensures DistinctCandidates(xs + ys)
  {
  }

  lemma ChosenComeFromCatalog(items: seq<Item>, verdicts: seq<Verdict>, available: nat)
    requires FromItems(items, verdicts) && UniqueItems(items)
    ensures DistinctCandidates(Chosen(verdicts, available))
    ensures forall c | c in Chosen(verdicts, available) :: exists i :: 0 <= i < |items| && items[i].id == c.item.id
  {
    ChosenAreEligible(items, verdicts, available);
    forall c | c in Chosen(verdicts, available)
      ensures exists i :: 0 <= i < |items| && items[i].id == c.item.id
    {
      var i :| 0 <= i < |items| && verdicts[i] == Eligible(c);
      assert items[i].id == c.item.id;
    }
  }

  // ---------------------------------------------------------------- grants

  lemma {:induction false} CoveringIsListed(grants: seq<Grant>, id: Id)
    ensures CoveringGrant(grants, id).Some? ==>
              exists k :: 0 <= k < |grants| && grants[k].grantId == CoveringGrant(grants, id).value
                && id in grants[k].allowedItemIds
  {
    if grants != [] {
      CoveringIsListed(grants[1..], id);
      if id in grants[0].allowedItemIds {
        assert grants[0].grantId == CoveringGrant(grants, id).value;
      } else if CoveringGrant(grants, id).Some? {
        var k :| 0 <= k < |grants[1..]| && grants[1..][k].grantId == CoveringGrant(grants, id).value
          && id in grants[1..][k].allowedItemIds;
        assert grants[k + 1] == grants[1..][k];
      }
    }
  }

  ghost predicate DistinctGrants(grants: seq<Grant>) {
    forall i, j | 0 <= i < j < |grants| :: grants[i].grantId != grants[j].grantId
  }

  function GrantIds(grants: seq<Grant>): set<Id> {
    set i | 0 <= i < |grants| :: grants[i].grantId
  }

  /** Keeping the used grants keeps exactly one per used identifier. */
  lemma {:induction false} KeptGrantsCount(grants: seq<Grant>, used: set<Id>)
    requires DistinctGrants(grants)
    ensures |KeepGrants(grants, used)| == |used * GrantIds(grants)|
    ensures forall g :: g in KeepGrants(grants, used) <==> g in grants && g.grantId in used
  {
    if grants == [] {
      assert used * GrantIds(grants) == {};
    } else {
      var n := |grants| - 1;
      KeptGrantsCount(grants[..n], used);
      assert grants == grants[..n] + [grants[n]];
      GrantIdsGrow(grants);
      OneMoreId(used, GrantIds(grants[..n]), grants[n].grantId);
    }
  }

  lemma OneMoreId(used: set<Id>, ids: set<Id>, id: Id)
    requires id !in ids
    ensures |used * (ids + {id})| == |used * ids| + if id in used then 1 else 0
  {
    assert used * (ids + {id}) == used * ids + if id in used then {id} else {};
  }

  lemma GrantIdsGrow(grants: seq<Grant>)
    requires grants != [] && DistinctGrants(grants)
    ensures
      var n := |grants| - 1;
      GrantIds(grants) == GrantIds(grants[..n]) + {grants[n].grantId} && grants[n].grantId !in GrantIds(grants[..n])
  {
    assert forall k | 0 <= k < |grants| - 1 :: grants[..|grants| - 1][k] == grants[k];
  }

  lemma NormalGrantsDistinct(grants: seq<Grant>, taskId: Id, sessionId: Id, at: Time)
    requires NormalGrants(grants, taskId, sessionId, at).Ok?
    ensures DistinctGrants(NormalGrants(grants, taskId, sessionId, at).value)
  {
    var sorted := SortBy(GrantBefore, grants);
    SortRearranges(GrantBefore, grants);
    assert Distinct(grants);
    DistinctFollowsMultiset(grants, sorted);
    forall i, j | 0 <= i < j < |sorted|
      ensures sorted[i].grantId != sorted[j].grantId
    {
      assert sorted[i] in grants && sorted[j] in grants && sorted[i] != sorted[j];
      var a :| 0 <= a < |grants| && grants[a] == sorted[i];
      var b :| 0 <= b < |grants| && grants[b] == sorted[j];
    }
  }

  /** Every selected sensitive candidate carries the identifier of a grant that covers it. */
  lemma SensitiveIsCovered(input: Input, grants: seq<Grant>, item: Item, c: Candidate)
    requires Review(ProfileOf(input), grants, item) == Ok(Eligible(c)) && c.item.sensitivity == Sensitive
    ensures c.grant.Some? && exists k ::
              0 <= k < |grants| && grants[k].grantId == c.grant.value && item.id in grants[k].allowedItemIds
  {
    CoveringIsListed(grants, item.id);
  }

  lemma UsedGrantsExist(input: Input, grants: seq<Grant>, items: seq<Item>, verdicts: seq<Verdict>, available: nat)
    requires Judged(ProfileOf(input), grants, items, verdicts) && FromItems(items, verdicts) && UniqueItems(items)
    ensures UsedGrantIds(Chosen(verdicts, available)) <= GrantIds(grants)
  {
    ChosenAreEligible(items, verdicts, available);
    var selected := Chosen(verdicts, available);
    forall id | id in UsedGrantIds(selected)
      ensures id in GrantIds(grants)
    {
      var k :| 0 <= k < |selected| && selected[k].item.sensitivity == Sensitive && selected[k].grant == Some(id);
      assert selected[k] in selected;
      var i :| 0 <= i < |items| && verdicts[i] == Eligible(selected[k]);
      SensitiveIsCovered(input, grants, items[i], selected[k]);
    }
  }

  // ---------------------------------------------------------------- the selection as a whole

  lemma MandatorySum(verdicts: seq<Verdict>, available: nat)
    requires Tokens(SortBy(MandatoryBefore, Mandatory(verdicts))) <= available
    ensures
      var mandatory := SortBy(MandatoryBefore, Mandatory(verdicts));
      var p := Pack(SortBy(RelevantBefore, OptionalOnes(verdicts)), Tokens(mandatory), available);
      p.tokens == Tokens(Chosen(verdicts, available)) && p.tokens <= available
  {
    var mandatory := SortBy(MandatoryBefore, Mandatory(verdicts));
    var optional := SortBy(RelevantBefore, OptionalOnes(verdicts));
    PackingIsMaximal(optional, Tokens(mandatory), available);
    TokensAppend(mandatory, Pack(optional, Tokens(mandatory), available).taken);
  }

  lemma ChoiceIsChosen(verdicts: seq<Verdict>, available: nat)
    ensures Choose(verdicts, available) ==
        if Tokens(SortBy(MandatoryBefore, Mandatory(verdicts))) > available then Err(OverBudget)
        else Ok(Choice(Chosen(verdicts, available), Tokens(Chosen(verdicts, available))))
  {
    if Tokens(SortBy(MandatoryBefore, Mandatory(verdicts))) <= available {
      MandatorySum(verdicts, available);
    }
  }

  lemma AuditSucceeds(grants: seq<Grant>, items: seq<Item>, verdicts: seq<Verdict>, selected: seq<Candidate>,
                      tokens: nat)
    requires |items| == |verdicts| && DistinctGrants(grants) && UsedGrantIds(selected) <= GrantIds(grants)
    requires CompletePartition(items, selected, Omissions(items, verdicts, Elements(CandidateIds(selected))))
    ensures Audit(grants, items, verdicts, selected, tokens)
         == Ok(Selection(selected, Omissions(items, verdicts, Elements(CandidateIds(selected))),
                         KeepGrants(grants, UsedGrantIds(selected)), tokens))
  {
    KeptGrantsCount(grants, UsedGrantIds(selected));
    assert UsedGrantIds(selected) * GrantIds(grants) == UsedGrantIds(selected);
  }

  /** What the envelope leaves for the selected context. */
  predicate Leaves(input: Input, available: nat) {
    available + input.fixedEnvelopeTokens == input.maxInputTokens
  }

  lemma JudgeDecides(input: Input, grants: seq<Grant>, items: seq<Item>, available: nat)
    requires CatalogItems(input.catalog) == Ok(items) && Leaves(input, available)
    requires NormalGrants(input.grants, input.taskId, input.catalog.parentSessionId, input.createdAt) == Ok(grants)
    ensures Judge(input) == DecideOn(grants, items, Reviews(ProfileOf(input), grants, items), available)
  {
    assert available == input.maxInputTokens - input.fixedEnvelopeTokens;
  }

  lemma JudgementOf(input: Input, grants: seq<Grant>, items: seq<Item>, verdicts: seq<Verdict>, available: nat)
    requires SelectedFrom(input, grants, items, verdicts) && Leaves(input, available)
    requires !DeniedMandatory(items, verdicts)
    ensures
      var choice := Choose(verdicts, available);
      Judge(input) == if choice.Err? then Err(choice.error) else Ok(Judgement(grants, items, verdicts, choice.value))
  {
    JudgedIsReviewed(input, grants, items, verdicts);
    JudgeDecides(input, grants, items, available);
  }

  lemma ReadyToAudit(input: Input, grants: seq<Grant>, items: seq<Item>, verdicts: seq<Verdict>, available: nat)
    requires SelectedFrom(input, grants, items, verdicts)
    ensures
      var selected := Chosen(verdicts, available);
      && DistinctGrants(grants) && UsedGrantIds(selected) <= GrantIds(grants)
      && CompletePartition(items, selected, Omissions(items, verdicts, Elements(CandidateIds(selected))))
  {
    SelectionInputs(input, grants, items, verdicts);
    NormalGrantsDistinct(input.grants, input.taskId, input.catalog.parentSessionId, input.createdAt);
    ChosenComeFromCatalog(items, verdicts, available);
    AuditIsPartition(items, verdicts, Chosen(verdicts, available));
    UsedGrantsExist(input, grants, items, verdicts, available);
  }

  /** The selection that the verdicts determine. */
  function Outcome(grants: seq<Grant>, items: seq<Item>, verdicts: seq<Verdict>, available: nat): Selection
    requires |items| == |verdicts|
  {
    var selected := Chosen(verdicts, available);
    Selection(selected, Omissions(items, verdicts, Elements(CandidateIds(selected))),
              KeepGrants(grants, UsedGrantIds(selected)), Tokens(selected))
  }

  /**
   The partition check and the grant check of `selectContext` can never fail: once the catalog,
   the grants, the action sequence and the mandatory context are in order, the selection succeeds
   exactly when the mandatory tokens fit the budget, and this is what it returns.
   */
  lemma SelectionSucceedsExactly(input: Input, grants: seq<Grant>, items: seq<Item>, verdicts: seq<Verdict>,
                                 available: nat)
    requires SelectedFrom(input, grants, items, verdicts) && Leaves(input, available)
    requires !DeniedMandatory(items, verdicts)
    ensures Select(input) ==
              if Tokens(SortBy(MandatoryBefore, Mandatory(verdicts))) > available then Err(OverBudget)
              else Ok(Outcome(grants, items, verdicts, available))
  {
    if Tokens(SortBy(MandatoryBefore, Mandatory(verdicts))) > available {
      MandatoryDoesNotFit(input, grants, items, verdicts, available);
    } else {
      MandatoryFits(input, grants, items, verdicts, available);
    }
  }

  lemma MandatoryDoesNotFit(input: Input, grants: seq<Grant>, items: seq<Item>, verdicts: seq<Verdict>, available: nat)
    requires SelectedFrom(input, grants, items, verdicts) && Leaves(input, available)
    requires !DeniedMandatory(items, verdicts)
    requires Tokens(SortBy(MandatoryBefore, Mandatory(verdicts))) > available
    ensures Select(input) == Err(OverBudget)
  {
    JudgementOf(input, grants, items, verdicts, available);
    ChoiceIsChosen(verdicts, available);
    SelectAfter(input, Judge(input));
  }

  lemma MandatoryFits(input: Input, grants: seq<Grant>, items: seq<Item>, verdicts: seq<Verdict>, available: nat)
    requires SelectedFrom(input, grants, items, verdicts) && Leaves(input, available)
    requires !DeniedMandatory(items, verdicts)
    requires Tokens(SortBy(MandatoryBefore, Mandatory(verdicts))) <= available
    ensures Select(input) == Ok(Outcome(grants, items, verdicts, available))
  {
    JudgedToFit(input, grants, items, verdicts, available);
    AuditedOutcome(input, grants, items, verdicts, available);
    SelectFollows(input, Judgement(grants, items, verdicts, ChoiceOf(verdicts, available)),
                  Outcome(grants, items, verdicts, available));
  }

  function ChoiceOf(verdicts: seq<Verdict>, available: nat): Choice {
    Choice(Chosen(verdicts, available), Tokens(Chosen(verdicts, available)))
  }

  lemma JudgedToFit(input: Input, grants: seq<Grant>, items: seq<Item>, verdicts: seq<Verdict>, available: nat)
    requires SelectedFrom(input, grants, items, verdicts) && Leaves(input, available)
    requires !DeniedMandatory(items, verdicts)
    requires Tokens(SortBy(MandatoryBefore, Mandatory(verdicts))) <= available
    ensures Judge(input) == Ok(Judgement(grants, items, verdicts, ChoiceOf(verdicts, available)))
  {
    JudgementOf(input, grants, items, verdicts, available);
    ChoiceIsChosen(verdicts, available);
  }

  lemma SelectFollows(input: Input, j: Judgement, s: Selection)
    requires |j.items| == |j.verdicts| && Judge(input) == Ok(j)
    requires Audit(j.grants, j.items, j.verdicts, j.choice.selected, j.choice.tokens) == Ok(s)
    ensures Select(input) == Ok(s)
  {
  }

  lemma AuditedOutcome(input: Input, grants: seq<Grant>, items: seq<Item>, verdicts: seq<Verdict>, available: nat)
    requires SelectedFrom(input, grants, items, verdicts)
    ensures Audit(grants, items, verdicts, Chosen(verdicts, available), Tokens(Chosen(verdicts, available)))
         == Ok(Outcome(grants, items, verdicts, available))
  {
    ReadyToAudit(input, grants, items, verdicts, available);
    AuditSucceeds(grants, items, verdicts, Chosen(verdicts, available), Tokens(Chosen(verdicts, available)));
  }

  lemma SelectAfter(input: Input, j: Result<Judgement, SelectError>)
    requires j == Judge(input)
    ensures Select(input) == if j.Err? then Err(j.error)
                             else Audit(j.value.grants, j.value.items, j.value.verdicts, j.value.choice.selected,
                                        j.value.choice.tokens)
  {
  }

  // ---------------------------------------------------------------- what a caller gets

  /** Selected and omitted identifiers are the catalog's, each exactly once. */
  ghost predicate ExactPartition(catalog: seq<Item>, s: Selection) {
    && multiset(CandidateIds(s.selected) + OmittedIds(s.omitted)) == multiset(ItemIds(catalog))
    && Distinct(CandidateIds(s.selected) + OmittedIds(s.omitted))
  }

  /** Each selected item passed permission and freshness; each mandatory item is selected. */
  ghost predicate SelectedProperly(input: Input, catalog: seq<Item>, grants: seq<Grant>, s: Selection) {
    && (forall c | c in s.selected :: c.item in catalog && Review(ProfileOf(input), grants, c.item) == Ok(Eligible(c)))
    && (forall item | item in catalog && item.retention != Optional :: item.id in CandidateIds(s.selected))
  }

  /** The budget is kept, and no item left out for it could be added to the final selection. */
  ghost predicate BudgetUsedUp(input: Input, catalog: seq<Item>, s: Selection) {
    && s.tokens == Tokens(s.selected)
    && s.tokens + input.fixedEnvelopeTokens <= input.maxInputTokens
    && (forall o, item | o in s.omitted && o.reason == BudgetExceeded && item in catalog && item.id == o.id ::
          s.tokens + item.tokenEstimate + input.fixedEnvelopeTokens > input.maxInputTokens)
  }

  /**
   Anything listed is selected from its own verdict, so it is permitted and fresh enough; nothing
   mandatory is missing.
   */
  lemma OutcomeIsProper(input: Input, grants: seq<Grant>, items: seq<Item>, verdicts: seq<Verdict>, available: nat)
    requires SelectedFrom(input, grants, items, verdicts) && !DeniedMandatory(items, verdicts)
    ensures SelectedProperly(input, items, grants, Outcome(grants, items, verdicts, available))
  {
    SelectionInputs(input, grants, items, verdicts);
    ChosenAreEligible(items, verdicts, available);
    var selected := Chosen(verdicts, available);
    forall c | c in selected
      ensures c.item in items && Review(ProfileOf(input), grants, c.item) == Ok(Eligible(c))
    {
      var i :| 0 <= i < |items| && verdicts[i] == Eligible(c);
      assert c.item == items[i];
    }
    forall item | item in items && item.retention != Optional
      ensures item.id in CandidateIds(selected)
    {
      var i :| 0 <= i < |items| && items[i] == item;
      assert verdicts[i].Eligible?;
      var k :| 0 <= k < |selected| && selected[k] == verdicts[i].candidate;
      assert CandidateIds(selected)[k] == item.id;
    }
  }

  lemma ListedById(selected: seq<Candidate>, c: Candidate)
    ensures c in selected ==> c.item.id in Elements(CandidateIds(selected))
  {
    if c in selected {
      var k :| 0 <= k < |selected| && selected[k] == c;
      assert CandidateIds(selected)[k] == c.item.id;
    }
  }

  lemma LeftOnlyForBudget(items: seq<Item>, verdicts: seq<Verdict>, available: nat, i: nat)
    requires FromItems(items, verdicts) && UniqueItems(items) && i < |items| && verdicts[i].Eligible?
    requires Tokens(SortBy(MandatoryBefore, Mandatory(verdicts))) <= available
    requires items[i].id !in Elements(CandidateIds(Chosen(verdicts, available)))
    ensures Tokens(Chosen(verdicts, available)) + items[i].tokenEstimate > available
  {
    var c := verdicts[i].candidate;
    var selected := Chosen(verdicts, available);
    ChosenAreEligible(items, verdicts, available);
    ListedById(selected, c);
    OptionalExactly(items, verdicts);
    assert c in OptionalOnes(verdicts);
    var mandatory := SortBy(MandatoryBefore, Mandatory(verdicts));
    var optional := SortBy(RelevantBefore, OptionalOnes(verdicts));
    SortKeepsCandidates(RelevantBefore, OptionalOnes(verdicts));
    PackingSplits(optional, Tokens(mandatory), available);
    PackingIsMaximal(optional, Tokens(mandatory), available);
    MandatorySum(verdicts, available);
  }

  /** A verdict of its own never says `budget_exceeded`. */
  lemma VerdictsAreNotBudget(input: Input, grants: seq<Grant>, item: Item, v: Verdict)
    requires Review(ProfileOf(input), grants, item) == Ok(v) && v.Omitted?
    ensures v.reason != BudgetExceeded
  {
  }

  /** The reported tokens are true and within the budget, and what is omitted for budget would not fit any more. */
  lemma OutcomeUsesBudget(input: Input, grants: seq<Grant>, items: seq<Item>, verdicts: seq<Verdict>, available: nat)
    requires Judged(ProfileOf(input), grants, items, verdicts) && FromItems(items, verdicts) && UniqueItems(items)
    requires Leaves(input, available)
    requires Tokens(SortBy(MandatoryBefore, Mandatory(verdicts))) <= available
    ensures BudgetUsedUp(input, items, Outcome(grants, items, verdicts, available))
  {
    BudgetOfOutcome(input, grants, items, verdicts, available, Outcome(grants, items, verdicts, available));
  }

  lemma BudgetOfOutcome(input: Input, grants: seq<Grant>, items: seq<Item>, verdicts: seq<Verdict>, available: nat,
                        s: Selection)
    requires Judged(ProfileOf(input), grants, items, verdicts) && FromItems(items, verdicts) && UniqueItems(items)
    requires Leaves(input, available)
    requires Tokens(SortBy(MandatoryBefore, Mandatory(verdicts))) <= available
    requires s.selected == Chosen(verdicts, available) && s.tokens == Tokens(s.selected)
    requires s.omitted == Omissions(items, verdicts, Elements(CandidateIds(s.selected)))
    ensures BudgetUsedUp(input, items, s)
  {
    MandatorySum(verdicts, available);
    forall o, item | o in s.omitted && o.reason == BudgetExceeded && item in items && item.id == o.id
      ensures s.tokens + item.tokenEstimate + input.fixedEnvelopeTokens > input.maxInputTokens
    {
      BudgetOmission(input, grants, items, verdicts, available, o, item);
    }
  }

  lemma BudgetOmission(input: Input, grants: seq<Grant>, items: seq<Item>, verdicts: seq<Verdict>, available: nat,
                       o: Omission, item: Item)
    requires Judged(ProfileOf(input), grants, items, verdicts) && FromItems(items, verdicts) && UniqueItems(items)
    requires Tokens(SortBy(MandatoryBefore, Mandatory(verdicts))) <= available
    requires o in Omissions(items, verdicts, Elements(CandidateIds(Chosen(verdicts, available))))
    requires o.reason == BudgetExceeded && item in items && item.id == o.id
    ensures Tokens(Chosen(verdicts, available)) + item.tokenEstimate > available
  {
    var chosen := Elements(CandidateIds(Chosen(verdicts, available)));
    var i := OmittedItem(items, verdicts, chosen, o);
    OmittedForBudget(input, grants, items, verdicts, i);
    LeftOnlyForBudget(items, verdicts, available, i);
    SameItem(items, i, item);
  }

  lemma OmittedItem(items: seq<Item>, verdicts: seq<Verdict>, chosen: set<Id>, o: Omission) returns (i: nat)
    requires |verdicts| == |items| && UniqueItems(items) && o in Omissions(items, verdicts, chosen)
    ensures i < |items| && items[i].id == o.id && o.id !in chosen
    ensures o.reason == (if verdicts[i].Omitted? then verdicts[i].reason else BudgetExceeded)
  {
    OmissionsExactly(items, verdicts, chosen);
    i :| OmittedAt(items, verdicts, chosen, o, i);
  }

  lemma SameItem(items: seq<Item>, i: nat, item: Item)
    requires UniqueItems(items) && i < |items| && item in items && item.id == items[i].id
    ensures item == items[i]
  {
  }

  /** What is omitted for budget was eligible. */
  lemma OmittedForBudget(input: Input, grants: seq<Grant>, items: seq<Item>, verdicts: seq<Verdict>, i: nat)
    requires Judged(ProfileOf(input), grants, items, verdicts) && i < |items|
    requires (if verdicts[i].Omitted? then verdicts[i].reason else BudgetExceeded) == BudgetExceeded
    ensures verdicts[i].Eligible?
  {
    assert Review(ProfileOf(input), grants, items[i]) == Ok(verdicts[i]);
    if verdicts[i].Omitted? { VerdictsAreNotBudget(input, grants, items[i], verdicts[i]); }
  }

  /** Selected and omitted items split the catalog, each item exactly once. */
  lemma OutcomeIsPartition(input: Input, grants: seq<Grant>, items: seq<Item>, verdicts: seq<Verdict>, available: nat)
    requires SelectedFrom(input, grants, items, verdicts)
    ensures ExactPartition(items, Outcome(grants, items, verdicts, available))
  {
    SelectionInputs(input, grants, items, verdicts);
    ChosenComeFromCatalog(items, verdicts, available);
    AuditIsPartition(items, verdicts, Chosen(verdicts, available));
    AuditElements(items, verdicts, Chosen(verdicts, available), Outcome(grants, items, verdicts, available).omitted);
  }

  /** A successful selection is the outcome of the verdicts on its catalog; the laws above describe that outcome. */
  lemma SelectedOutcome(input: Input) returns (j: Judgement, available: nat)
    requires Select(input).Ok?
    ensures SelectedFrom(input, j.grants, j.items, j.verdicts) && Leaves(input, available)
    ensures !DeniedMandatory(j.items, j.verdicts)
    ensures Tokens(SortBy(MandatoryBefore, Mandatory(j.verdicts))) <= available
    ensures Select(input).value == Outcome(j.grants, j.items, j.verdicts, available)
  {
    j := JudgementParts(input);
    available := input.maxInputTokens - input.fixedEnvelopeTokens;
    SelectionSucceedsExactly(input, j.grants, j.items, j.verdicts, available);
  }

  /** Every successful selection is an exact partition, properly chosen, and within its budget. */
  lemma SelectionIsSound(input: Input) returns (j: Judgement)
    requires Select(input).Ok?
    ensures SelectedFrom(input, j.grants, j.items, j.verdicts) && multiset(j.items) == multiset(input.catalog.items)
    ensures ExactPartition(j.items, Select(input).value)
    ensures InOrder(Select(input).value.selected)
    ensures SelectedProperly(input, j.items, j.grants, Select(input).value)
    ensures BudgetUsedUp(input, j.items, Select(input).value)
  {
    var available: nat;
    j, available := SelectedOutcome(input);
    SelectionInputs(input, j.grants, j.items, j.verdicts);
    OutcomeIsPartition(input, j.grants, j.items, j.verdicts, available);
    OutcomeIsProper(input, j.grants, j.items, j.verdicts, available);
    OutcomeUsesBudget(input, j.grants, j.items, j.verdicts, available);
    ChosenAreInOrder(j.items, j.verdicts, available);
  }

  /** Mandatory items first, by retention, score and identifier; then the packed ones, by score per token. */
  ghost predicate InOrder(selected: seq<Candidate>) {
    exists n: nat :: MandatoryFirst(selected, n)
  }

  ghost predicate MandatoryFirst(selected: seq<Candidate>, n: nat) {
    && n <= |selected|
    && (forall i | 0 <= i < |selected| :: i < n <==> selected[i].item.retention != Optional)
    && Ascending(MandatoryBefore, selected[..n]) && Ascending(RelevantBefore, selected[n..])
  }

  lemma {:induction false} TakenInOrder(cs: seq<Candidate>, used: nat, available: nat)
    requires Ascending(RelevantBefore, cs)
    ensures Ascending(RelevantBefore, Pack(cs, used, available).taken)
    ensures forall c | c in Pack(cs, used, available).taken :: c in cs
  {
    if cs != [] {
      var n := |cs| - 1;
      TakenInOrder(cs[..n], used, available);
      var front := Pack(cs[..n], used, available).taken;
      forall k | 0 <= k < |front|
        ensures RelevantBefore(front[k], cs[n])
      {
        assert front[k] in cs[..n];
        var i :| 0 <= i < n && cs[..n][i] == front[k];
        assert RelevantBefore(cs[i], cs[n]);
      }
    }
  }

  lemma MandatoryInOrder(items: seq<Item>, verdicts: seq<Verdict>)
    requires FromItems(items, verdicts) && UniqueItems(items)
    ensures Ascending(MandatoryBefore, SortBy(MandatoryBefore, Mandatory(verdicts)))
    ensures forall c | c in SortBy(MandatoryBefore, Mandatory(verdicts)) :: c.item.retention != Optional
  {
    MandatoryExactly(items, verdicts);
    DistinctElements(Mandatory(verdicts));
    MandatoryIsTotal(Elements(Mandatory(verdicts)));
    SortAscending(MandatoryBefore, Mandatory(verdicts));
    SortRearranges(MandatoryBefore, Mandatory(verdicts));
  }

  lemma OptionalInOrder(items: seq<Item>, verdicts: seq<Verdict>)
    requires FromItems(items, verdicts) && UniqueItems(items)
    ensures Ascending(RelevantBefore, SortBy(RelevantBefore, OptionalOnes(verdicts)))
    ensures forall c | c in SortBy(RelevantBefore, OptionalOnes(verdicts)) :: c.item.retention == Optional
  {
    OptionalExactly(items, verdicts);
    DistinctElements(OptionalOnes(verdicts));
    RelevantIsTotal(Elements(OptionalOnes(verdicts)));
    SortAscending(RelevantBefore, OptionalOnes(verdicts));
    SortRearranges(RelevantBefore, OptionalOnes(verdicts));
  }

  /** The selected sequence is in the order of the two comparators. */
  lemma ChosenAreInOrder(items: seq<Item>, verdicts: seq<Verdict>, available: nat)
    requires FromItems(items, verdicts) && UniqueItems(items)
    ensures InOrder(Chosen(verdicts, available))
  {
    var mandatory, optional := SortBy(MandatoryBefore, Mandatory(verdicts)),
      SortBy(RelevantBefore, OptionalOnes(verdicts));
    MandatoryInOrder(items, verdicts);
    OptionalInOrder(items, verdicts);
    TakenInOrder(optional, Tokens(mandatory), available);
    JoinedInOrder(mandatory, Pack(optional, Tokens(mandatory), available).taken);
  }

  lemma JoinedInOrder(a: seq<Candidate>, b: seq<Candidate>)
    requires (forall c | c in a :: c.item.retention != Optional) && (forall c | c in b :: c.item.retention == Optional)
    requires Ascending(MandatoryBefore, a) && Ascending(RelevantBefore, b)
    ensures InOrder(a + b)
  {
    var both := a + b;
    assert both[..|a|] == a && both[|a|..] == b;
    forall i | 0 <= i < |both|
      ensures i < |a| <==> both[i].item.retention != Optional
    {
      if i < |a| { assert both[i] in a; } else { assert both[i] in b; }
    }
    assert MandatoryFirst(both, |a|);
  }

  lemma JudgementParts(input: Input) returns (j: Judgement)
    requires Select(input).Ok?
    ensures SelectedFrom(input, j.grants, j.items, j.verdicts) && input.fixedEnvelopeTokens <= input.maxInputTokens
    ensures !DeniedMandatory(j.items, j.verdicts)
  {
    SelectAfter(input, Judge(input));
    j := Judge(input).value;
    JudgementSound(input, j);
  }

  lemma JudgementSound(input: Input, j: Judgement)
    requires Judge(input) == Ok(j)
    ensures SelectedFrom(input, j.grants, j.items, j.verdicts) && input.fixedEnvelopeTokens <= input.maxInputTokens
    ensures !DeniedMandatory(j.items, j.verdicts)
  {
    ReviewsJudge(input, j.grants, j.items);
  }

  // ---------------------------------------------------------------- deleting what was denied anyway

  /** The two inputs differ only in their catalog's items and manifest. */
  ghost predicate SameButItems(a: Input, b: Input) {
    b.(catalog := a.catalog) == a && b.catalog.parentRunId == a.catalog.parentRunId
      && b.catalog.parentSessionId == a.catalog.parentSessionId
  }

  lemma {:induction false} ReviewsSplit(input: Input, grants: seq<Grant>, xs: seq<Item>, ys: seq<Item>)
    ensures
      Reviews(ProfileOf(input), grants, xs + ys).Ok?
      <==> Reviews(ProfileOf(input), grants, xs).Ok? && Reviews(ProfileOf(input), grants, ys).Ok?
    ensures Reviews(ProfileOf(input), grants, xs + ys).Ok? ==>
              Reviews(ProfileOf(input), grants, xs + ys).value
                == Reviews(ProfileOf(input), grants, xs).value + Reviews(ProfileOf(input), grants, ys).value
  {
    if ys == [] {
      assert xs + ys == xs;
    } else {
      var n := |ys| - 1;
      assert (xs + ys)[..|xs + ys| - 1] == xs + ys[..n];
      ReviewsSplit(input, grants, xs, ys[..n]);
    }
  }

  lemma {:induction false} FiltersSplit(us: seq<Verdict>, vs: seq<Verdict>)
    ensures Mandatory(us + vs) == Mandatory(us) + Mandatory(vs)
    ensures OptionalOnes(us + vs) == OptionalOnes(us) + OptionalOnes(vs)
  {
    if vs == [] {
      assert us + vs == us;
    } else {
      var n := |vs| - 1;
      assert (us + vs)[..|us + vs| - 1] == us + vs[..n];
      FiltersSplit(us, vs[..n]);
    }
  }

  lemma OmittedVerdictIsInvisible(us: seq<Verdict>, v: Verdict, vs: seq<Verdict>)
    requires v.Omitted?
    ensures Mandatory(us + [v] + vs) == Mandatory(us + vs) && OptionalOnes(us + [v] + vs) == OptionalOnes(us + vs)
  {
    FiltersSplit(us + [v], vs);
    FiltersSplit(us, [v]);
    FiltersSplit(us, vs);
    assert [v][..0] == [];
  }

  lemma ReviewSingle(input: Input, grants: seq<Grant>, d: Item)
    requires Review(ProfileOf(input), grants, d).Ok?
    ensures Reviews(ProfileOf(input), grants, [d]) == Ok([Review(ProfileOf(input), grants, d).value])
  {
    assert [d][..0] == [];
    assert Reviews(ProfileOf(input), grants, [d][..0]) == Ok([]);
    assert [] + [Review(ProfileOf(input), grants, d).value] == [Review(ProfileOf(input), grants, d).value];
  }

  lemma WithoutDenied(input: Input, grants: seq<Grant>, pre: seq<Item>, d: Item, post: seq<Item>)
    requires PermissionReason(d, input.taskKind, grants).Some? && d.retention == Optional
    requires input.fixedEnvelopeTokens <= input.maxInputTokens && Decide(input, grants, pre + [d] + post).Ok?
    ensures Decide(input, grants, pre + post).Ok?
    ensures Decide(input, grants, pre + post).value.choice == Decide(input, grants, pre + [d] + post).value.choice
  {
    ReviewsSplit(input, grants, pre + [d], post);
    ReviewsSplit(input, grants, pre, [d]);
    ReviewsSplit(input, grants, pre, post);
    ReviewSingle(input, grants, d);
    var us, vs := Reviews(ProfileOf(input), grants, pre).value, Reviews(ProfileOf(input), grants, post).value;
    var v := Review(ProfileOf(input), grants, d).value;
    OmittedVerdictIsInvisible(us, v, vs);
    StillNotDenied(pre, d, post, us, v, vs);
  }

  lemma StillNotDenied(pre: seq<Item>, d: Item, post: seq<Item>, us: seq<Verdict>, v: Verdict, vs: seq<Verdict>)
    requires |us| == |pre| && |vs| == |post| && !DeniedMandatory(pre + [d] + post, us + [v] + vs)
    ensures !DeniedMandatory(pre + post, us + vs)
  {
    forall i | 0 <= i < |pre + post|
      ensures !((pre + post)[i].retention != Optional && (us + vs)[i].Omitted?)
    {
      var k := if i < |pre| then i else i + 1;
      assert (pre + [d] + post)[k] == (pre + post)[i] && (us + [v] + vs)[k] == (us + vs)[i];
    }
  }

  lemma SortedWithout(items: seq<Item>, fewer: seq<Item>, d: Item) returns (pre: seq<Item>, post: seq<Item>)
    requires UniqueItems(items) && multiset(items) == multiset(fewer) + multiset{d}
    ensures SortBy(ById, items) == pre + [d] + post && SortBy(ById, fewer) == pre + post
  {
    var sorted := SortBy(ById, items);
    SortRearranges(ById, items);
    ItemsAreTotal(items);
    SortAscending(ById, items);
    assert d in multiset(items);
    assert d in sorted;
    var k :| 0 <= k < |sorted| && sorted[k] == d;
    pre, post := sorted[..k], sorted[k + 1..];
    SplitAt(sorted, k);
    FewerAscending(items, sorted, fewer, k);
  }

  lemma SplitAt(sorted: seq<Item>, k: nat)
    requires k < |sorted|
    ensures sorted == sorted[..k] + [sorted[k]] + sorted[k + 1..]
  {
  }

  lemma RemoveAt(sorted: seq<Item>, k: nat)
    requires k < |sorted|
    ensures multiset(sorted) == multiset(sorted[..k] + sorted[k + 1..]) + multiset{sorted[k]}
  {
    assert sorted == sorted[..k] + [sorted[k]] + sorted[k + 1..];
  }

  lemma AscendingWithout(sorted: seq<Item>, k: nat)
    requires Ascending(ById, sorted) && k < |sorted|
    ensures Ascending(ById, sorted[..k] + sorted[k + 1..])
  {
    var rest := sorted[..k] + sorted[k + 1..];
    forall i, j | 0 <= i < j < |rest|
      ensures ById(rest[i], rest[j])
    {
      assert rest[i] == sorted[if i < k then i else i + 1] && rest[j] == sorted[if j < k then j else j + 1];
    }
  }

  lemma AscendingIsUniqueItems(rest: seq<Item>)
    requires Ascending(ById, rest)
    ensures UniqueItems(rest)
  {
    forall i, j | 0 <= i < j < |rest|
      ensures rest[i].id != rest[j].id
    {
      assert ById(rest[i], rest[j]);
    }
  }

  lemma Cancel(a: multiset<Item>, b: multiset<Item>, d: Item)
    requires a + multiset{d} == b + multiset{d}
    ensures a == b
  {
    assert a == (a + multiset{d}) - multiset{d} && b == (b + multiset{d}) - multiset{d};
  }

  lemma FewerAscending(items: seq<Item>, sorted: seq<Item>, fewer: seq<Item>, k: nat)
    requires Ascending(ById, sorted) && multiset(sorted) == multiset(items) && k < |sorted|
    requires multiset(items) == multiset(fewer) + multiset{sorted[k]}
    ensures SortBy(ById, fewer) == sorted[..k] + sorted[k + 1..]
  {
    var rest := sorted[..k] + sorted[k + 1..];
    RemoveAt(sorted, k);
    Cancel(multiset(rest), multiset(fewer), sorted[k]);
    AscendingWithout(sorted, k);
    AscendingIsUniqueItems(rest);
    ItemsAreTotal(rest);
    SortIgnoresInputOrder(ById, rest, fewer);
    SortOfAscending(rest);
  }

  lemma {:induction false} SortOfAscending(rest: seq<Item>)
    requires Ascending(ById, rest)
    ensures SortBy(ById, rest) == rest
  {
    if rest != [] {
      SortOfAscending(rest[1..]);
      assert rest == [rest[0]] + rest[1..];
    }
  }

  lemma DecisionWithoutDenied(a: Input, b: Input, grants: seq<Grant>, d: Item)
    requires SameButItems(a, b) && UniqueItems(a.catalog.items)
    requires multiset(a.catalog.items) == multiset(b.catalog.items) + multiset{d}
    requires NormalGrants(a.grants, a.taskId, a.catalog.parentSessionId, a.createdAt) == Ok(grants)
    requires d.retention == Optional && PermissionReason(d, a.taskKind, grants).Some?
    requires Judge(a).Ok? && CatalogItems(b.catalog).Ok?
    ensures Judge(b).Ok? && Judge(b).value.choice == Judge(a).value.choice
  {
    var pre, post := SortedWithout(a.catalog.items, b.catalog.items, d);
    assert CatalogItems(a.catalog) == Ok(pre + [d] + post) && CatalogItems(b.catalog) == Ok(pre + post);
    WithoutDenied(a, grants, pre, d, post);
    SameDecision(a, b, grants, pre + post);
  }

  /** What is selected is the choice of the judgement. */
  lemma SelectedIsChoice(input: Input)
    requires Select(input).Ok?
    ensures Judge(input).Ok? && Select(input).value.selected == Judge(input).value.choice.selected
    ensures Select(input).value.tokens == Judge(input).value.choice.tokens
  {
  }

  /** The checks after the choice never fail. */
  lemma JudgedIsSelected(input: Input)
    requires Judge(input).Ok?
    ensures Select(input).Ok?
  {
    var j := Judge(input).value;
    JudgementSound(input, j);
    FitsIfJudged(input, j.grants, j.items, j.verdicts, input.maxInputTokens - input.fixedEnvelopeTokens);
  }

  lemma FitsIfJudged(input: Input, grants: seq<Grant>, items: seq<Item>, verdicts: seq<Verdict>, available: nat)
    requires SelectedFrom(input, grants, items, verdicts) && Leaves(input, available)
    requires !DeniedMandatory(items, verdicts) && Judge(input).Ok?
    ensures Select(input).Ok?
  {
    JudgementOf(input, grants, items, verdicts, available);
    ChoiceIsChosen(verdicts, available);
    SelectionSucceedsExactly(input, grants, items, verdicts, available);
  }

  /**
   Deleting an optional item that was omitted on permission grounds, with the manifest rebuilt,
   changes nothing about what is selected.
   */
  lemma DeletingDeniedItemChangesNothing(a: Input, b: Input, grants: seq<Grant>, d: Item)
    requires SameButItems(a, b) && UniqueItems(a.catalog.items)
    requires multiset(a.catalog.items) == multiset(b.catalog.items) + multiset{d}
    requires NormalGrants(a.grants, a.taskId, a.catalog.parentSessionId, a.createdAt) == Ok(grants)
    requires d.retention == Optional && PermissionReason(d, a.taskKind, grants).Some?
    requires Select(a).Ok? && CatalogItems(b.catalog).Ok?
    ensures Select(b).Ok?
    ensures Select(b).value.selected == Select(a).value.selected && Select(b).value.tokens == Select(a).value.tokens
  {
    SelectedIsChoice(a);
    DecisionWithoutDenied(a, b, grants, d);
    JudgedIsSelected(b);
    SelectedIsChoice(b);
  }
}
