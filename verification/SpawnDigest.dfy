/**
 The idempotency digest of a spawn request
 (packages/web-buddy/src/agents/async-task-runtime.ts:939-965). SHA-256 is an injective
 function here; the digest then identifies the normalised request up to the key order of the
 caller's own input objects.
 */
module SpawnDigest {
  import opened Contracts
  import opened Json
  import opened Decimal
  import opened Sorting
  import opened CanonicalJson

  datatype SpawnRequest = SpawnRequest(
    kind: string, title: string, priority: int, blockedBy: seq<string>, blocks: seq<string>,
    inputs: Items, binding: ActionBinding, policy: TerminalPolicy)

  function StringList(xs: seq<string>): Items {
    if xs == [] then NoItems else Item(Str(xs[0]), StringList(xs[1..]))
  }

  function BindingJson(b: ActionBinding): Json {
    match b
    case NotActionBound => Object(Entry("kind", Str("not_action_bound"), NoMembers))
    case BrowserAction(n) =>
      Object(Entry("kind", Str("browser_action"), Entry("sourceActionSeq", NatNumber(n), NoMembers)))
  }

  function PolicyText(p: TerminalPolicy): string {
    match p
    case MustCompleteSuccessfully => "must_complete_successfully"
    case TerminalIsSufficient => "terminal_is_sufficient"
    case DoesNotBlock => "does_not_block"
  }

  function PolicyJson(p: TerminalPolicy): Json {
    Object(Entry("requiredForCompletion", Bool(p != DoesNotBlock),
                 Entry("terminalPolicy", Str(PolicyText(p)), NoMembers)))
  }

  // `digestInput`, in three groups of members.

  function LastEntries(inputs: Json, binding: Json, requirement: Json): Members {
    Entry("inputs", inputs, Entry("actionBinding", binding, Entry("completionRequirement", requirement, NoMembers)))
  }

  function LastMembers(r: SpawnRequest): Members {
    LastEntries(Array(r.inputs), BindingJson(r.binding), PolicyJson(r.policy))
  }

  function MiddleMembers(r: SpawnRequest): Members {
    Entry("priority", IntNumber(r.priority),
    Entry("blockedBy", Array(StringList(r.blockedBy)),
    Entry("blocks", Array(StringList(r.blocks)), LastMembers(r))))
  }

  function DigestMembers(r: SpawnRequest): Members {
    Entry("schemaVersion", Str("async-task-spawn-digest-input/v1"),
    Entry("kind", Str(r.kind),
    Entry("title", Str(r.title), MiddleMembers(r))))
  }

  function DigestInput(r: SpawnRequest): Json {
    Object(DigestMembers(r))
  }

  function Digest(less: Order<string>, sha256: string -> Id, r: SpawnRequest): Id {
    sha256(CanonicalText(less, DigestInput(r)))
  }

  // ---------------------------------------------------------------- members one by one

  ghost predicate SameMembers(ms: Members, ns: Members) {
    && Keys(ms) == Keys(ns)
    && forall k {:trigger SameButOrder(ValueAt(ms, k), ValueAt(ns, k))} | k in Keys(ms) ::
      SameButOrder(ValueAt(ms, k), ValueAt(ns, k))
  }

  lemma ValuesBehind(k: string, v: Json, ms: Members, x: string)
    requires k !in Keys(ms) && x in Keys(Entry(k, v, ms))
    ensures ValueAt(Entry(k, v, ms), x) == if x == k then v else ValueAt(ms, x)
  {
  }

  lemma PeelKeys(k: string, v: Json, w: Json, ms: Members, ns: Members)
    requires k !in Keys(ms) && k !in Keys(ns)
    ensures Keys(Entry(k, v, ms)) == Keys(Entry(k, w, ns)) <==> Keys(ms) == Keys(ns)
  {
    assert Keys(ms) == Keys(Entry(k, v, ms)) - {k} && Keys(ns) == Keys(Entry(k, w, ns)) - {k};
  }

  lemma Peel(k: string, v: Json, w: Json, ms: Members, ns: Members)
    requires k !in Keys(ms) && k !in Keys(ns)
    ensures SameMembers(Entry(k, v, ms), Entry(k, w, ns)) <==> SameButOrder(v, w) && SameMembers(ms, ns)
  {
    PeelKeys(k, v, w, ms, ns);
    if Keys(ms) == Keys(ns) {
      var mine, theirs := Entry(k, v, ms), Entry(k, w, ns);
      ValuesBehind(k, v, ms, k);
      ValuesBehind(k, w, ns, k);
      forall x | x in Keys(ms)
        ensures ValueAt(mine, x) == ValueAt(ms, x) && ValueAt(theirs, x) == ValueAt(ns, x)
      {
        ValuesBehind(k, v, ms, x);
        ValuesBehind(k, w, ns, x);
      }
      PeelValues(k, v, w, ms, ns);
    }
  }

  lemma PeelValues(k: string, v: Json, w: Json, ms: Members, ns: Members)
    requires Keys(ms) == Keys(ns) && k !in Keys(ms)
    requires ValueAt(Entry(k, v, ms), k) == v && ValueAt(Entry(k, w, ns), k) == w
    requires forall x | x in Keys(ms) ::
               ValueAt(Entry(k, v, ms), x) == ValueAt(ms, x) && ValueAt(Entry(k, w, ns), x) == ValueAt(ns, x)
    ensures SameMembers(Entry(k, v, ms), Entry(k, w, ns)) <==> SameButOrder(v, w) && SameMembers(ms, ns)
  {
    var mine, theirs := Entry(k, v, ms), Entry(k, w, ns);
    if SameMembers(mine, theirs) {
      forall x | x in Keys(ms)
        ensures SameButOrder(ValueAt(ms, x), ValueAt(ns, x))
      {
        assert SameButOrder(ValueAt(mine, x), ValueAt(theirs, x));
      }
    }
  }

  lemma Peel2(l: string, x: Json, y: Json, m: string, p: Json, q: Json, ms: Members, ns: Members)
    requires l != m && l !in Keys(ms) && m !in Keys(ms) && Keys(ms) == Keys(ns)
    ensures SameMembers(Entry(l, x, Entry(m, p, ms)), Entry(l, y, Entry(m, q, ns)))
            <==> SameButOrder(x, y) && SameButOrder(p, q) && SameMembers(ms, ns)
  {
    Peel(m, p, q, ms, ns);
    Peel(l, x, y, Entry(m, p, ms), Entry(m, q, ns));
  }

  lemma Peel3(k: string, v: Json, w: Json, l: string, x: Json, y: Json, m: string, p: Json, q: Json, ms: Members,
              ns: Members)
    requires k != l && k != m && l != m
    requires k !in Keys(ms) && l !in Keys(ms) && m !in Keys(ms) && Keys(ms) == Keys(ns)
    ensures SameMembers(Entry(k, v, Entry(l, x, Entry(m, p, ms))), Entry(k, w, Entry(l, y, Entry(m, q, ns))))
            <==> SameButOrder(v, w) && SameButOrder(x, y) && SameButOrder(p, q) && SameMembers(ms, ns)
  {
    var mine, theirs := Entry(l, x, Entry(m, p, ms)), Entry(l, y, Entry(m, q, ns));
    KeysOfTwo(k, l, x, m, p, ms);
    KeysOfTwo(k, l, y, m, q, ns);
    Peel2(l, x, y, m, p, q, ms, ns);
    Peel(k, v, w, mine, theirs);
  }

  lemma KeysOfTwo(k: string, l: string, x: Json, m: string, p: Json, ms: Members)
    requires k != l && k != m && k !in Keys(ms)
    ensures k !in Keys(Entry(l, x, Entry(m, p, ms)))
  {
  }

  lemma Proper3(k: string, v: Json, l: string, x: Json, m: string, p: Json, ms: Members)
    requires k != l && k != m && l != m && k !in Keys(ms) && l !in Keys(ms) && m !in Keys(ms)
    requires Proper(v) && Proper(x) && Proper(p) && ProperMembers(ms)
    ensures ProperMembers(Entry(k, v, Entry(l, x, Entry(m, p, ms))))
    ensures Keys(Entry(k, v, Entry(l, x, Entry(m, p, ms)))) == {k, l, m} + Keys(ms)
  {
    assert ProperMembers(Entry(m, p, ms)) && Keys(Entry(m, p, ms)) == {m} + Keys(ms);
    assert ProperMembers(Entry(l, x, Entry(m, p, ms)));
  }

  lemma {:induction false} StringListProper(xs: seq<string>)
    ensures ProperItems(StringList(xs))
  {
    if xs != [] {
      StringListProper(xs[1..]);
    }
  }

  lemma {:induction false} SameStringLists(xs: seq<string>, ys: seq<string>)
    ensures SameItems(StringList(xs), StringList(ys)) <==> xs == ys
  {
    if xs != [] && ys != [] {
      SameStringLists(xs[1..], ys[1..]);
      assert xs == [xs[0]] + xs[1..] && ys == [ys[0]] + ys[1..];
    }
  }

  lemma PolicyTextInjective(p: TerminalPolicy, q: TerminalPolicy)
    requires PolicyText(p) == PolicyText(q)
    ensures p == q
  {
    assert |PolicyText(MustCompleteSuccessfully)| == 26 && |PolicyText(TerminalIsSufficient)| == 22;
    assert |PolicyText(DoesNotBlock)| == 14;
  }

  lemma PolicyKeysDiffer()
    ensures "requiredForCompletion" != "terminalPolicy"
  {
    assert |"terminalPolicy"| == 14;
  }

  lemma SamePolicyTexts(p: TerminalPolicy, q: TerminalPolicy)
    ensures SameButOrder(Str(PolicyText(p)), Str(PolicyText(q))) <==> p == q
  {
    if PolicyText(p) == PolicyText(q) { PolicyTextInjective(p, q); }
  }

  lemma SamePolicies(p: TerminalPolicy, q: TerminalPolicy)
    ensures SameButOrder(PolicyJson(p), PolicyJson(q)) <==> p == q
  {
    PolicyKeysDiffer();
    SamePolicyTexts(p, q);
    Peel2("requiredForCompletion", Bool(p != DoesNotBlock), Bool(q != DoesNotBlock),
          "terminalPolicy", Str(PolicyText(p)), Str(PolicyText(q)), NoMembers, NoMembers);
    assert SameMembers(NoMembers, NoMembers);
  }

  lemma SameBindings(a: ActionBinding, b: ActionBinding)
    ensures SameButOrder(BindingJson(a), BindingJson(b)) <==> a == b
  {
    assert "kind" != "sourceActionSeq" by { assert |"kind"| == 4; }
    assert "not_action_bound" != "browser_action" by { assert |"browser_action"| == 14; }
    var ms := if a.BrowserAction? then Entry("sourceActionSeq", NatNumber(a.sourceActionSeq), NoMembers) else NoMembers;
    var ns := if b.BrowserAction? then Entry("sourceActionSeq", NatNumber(b.sourceActionSeq), NoMembers) else NoMembers;
    Peel("kind", Str(if a.BrowserAction? then "browser_action" else "not_action_bound"),
         Str(if b.BrowserAction? then "browser_action" else "not_action_bound"), ms, ns);
    assert SameMembers(NoMembers, NoMembers);
    if a.BrowserAction? && b.BrowserAction? {
      Peel("sourceActionSeq", NatNumber(a.sourceActionSeq), NatNumber(b.sourceActionSeq), NoMembers, NoMembers);
      if NatText(a.sourceActionSeq) == NatText(b.sourceActionSeq) {
        NatTextInjective(a.sourceActionSeq, b.sourceActionSeq);
      }
    }
  }

  lemma SamePriorities(a: int, b: int)
    ensures SameButOrder(IntNumber(a), IntNumber(b)) <==> a == b
  {
    if IntText(a) == IntText(b) { IntTextInjective(a, b); }
  }

  /** Everything the digest covers agrees; the inputs may differ in key order. */
  ghost predicate SameRequest(a: SpawnRequest, b: SpawnRequest) {
    a == b.(inputs := a.inputs) && SameItems(a.inputs, b.inputs)
  }

  lemma SameLists(a: SpawnRequest, b: SpawnRequest)
    ensures SameButOrder(Array(StringList(a.blockedBy)), Array(StringList(b.blockedBy))) <==> a.blockedBy == b.blockedBy
    ensures SameButOrder(Array(StringList(a.blocks)), Array(StringList(b.blocks))) <==> a.blocks == b.blocks
  {
    SameStringLists(a.blocks, b.blocks);
    SameStringLists(a.blockedBy, b.blockedBy);
  }

  lemma LastKeysDiffer()
    ensures "inputs" != "actionBinding" && "inputs" != "completionRequirement"
    ensures "actionBinding" != "completionRequirement"
  {
    assert |"inputs"| == 6 && |"actionBinding"| == 13 && |"completionRequirement"| == 21;
  }

  lemma KeysDiffer()
    ensures "inputs" != "actionBinding" && "inputs" != "completionRequirement"
    ensures "actionBinding" != "completionRequirement"
    ensures "priority" != "blockedBy" && "priority" != "blocks" && "blockedBy" != "blocks"
    ensures "schemaVersion" != "kind" && "schemaVersion" != "title" && "kind" != "title"
    ensures {"priority", "blockedBy", "blocks"} !! {"inputs", "actionBinding", "completionRequirement"}
    ensures {"schemaVersion", "kind", "title"}
            !! {"priority", "blockedBy", "blocks", "inputs", "actionBinding", "completionRequirement"}
  {
    assert |"inputs"| == 6 && |"actionBinding"| == 13 && |"completionRequirement"| == 21 && |"priority"| == 8;
    assert |"blockedBy"| == 9 && |"blocks"| == 6 && |"schemaVersion"| == 13 && |"kind"| == 4 && |"title"| == 5;
    assert "inputs"[0] == 'i' && "blocks"[0] == 'b' && "actionBinding"[0] == 'a' && "schemaVersion"[0] == 's';
  }

  lemma SameLastValues(v: Json, w: Json, x: Json, y: Json, p: Json, q: Json)
    ensures SameMembers(LastEntries(v, x, p), LastEntries(w, y, q)) <==>
              SameButOrder(v, w) && SameButOrder(x, y) && SameButOrder(p, q)
  {
    LastKeysDiffer();
    assert SameMembers(NoMembers, NoMembers);
    Peel3("inputs", v, w, "actionBinding", x, y, "completionRequirement", p, q, NoMembers, NoMembers);
  }

  lemma SameLastParts(a: SpawnRequest, b: SpawnRequest)
    ensures SameButOrder(Array(a.inputs), Array(b.inputs)) <==> SameItems(a.inputs, b.inputs)
    ensures SameButOrder(BindingJson(a.binding), BindingJson(b.binding)) <==> a.binding == b.binding
    ensures SameButOrder(PolicyJson(a.policy), PolicyJson(b.policy)) <==> a.policy == b.policy
  {
    SamePolicies(a.policy, b.policy);
    SameBindings(a.binding, b.binding);
  }

  lemma SameLast(a: SpawnRequest, b: SpawnRequest)
    requires ProperItems(a.inputs) && ProperItems(b.inputs)
    ensures SameMembers(LastMembers(a), LastMembers(b)) <==>
              SameItems(a.inputs, b.inputs) && a.binding == b.binding && a.policy == b.policy
  {
    SameLastParts(a, b);
    SameLastValues(Array(a.inputs), Array(b.inputs), BindingJson(a.binding), BindingJson(b.binding),
                   PolicyJson(a.policy), PolicyJson(b.policy));
  }

  lemma LastIsProper(r: SpawnRequest)
    requires ProperItems(r.inputs)
    ensures ProperMembers(LastMembers(r))
    ensures Keys(LastMembers(r)) == {"inputs", "actionBinding", "completionRequirement"}
  {
    LastKeysDiffer();
    PartsProper(r);
    Proper3("inputs", Array(r.inputs), "actionBinding", BindingJson(r.binding),
            "completionRequirement", PolicyJson(r.policy), NoMembers);
  }

  lemma SameMiddle(a: SpawnRequest, b: SpawnRequest)
    requires ProperItems(a.inputs) && ProperItems(b.inputs)
    ensures SameMembers(MiddleMembers(a), MiddleMembers(b)) <==>
              && a.priority == b.priority && a.blockedBy == b.blockedBy && a.blocks == b.blocks
              && SameMembers(LastMembers(a), LastMembers(b))
  {
    KeysDiffer();
    LastIsProper(a);
    LastIsProper(b);
    SamePriorities(a.priority, b.priority);
    SameLists(a, b);
    Peel3("priority", IntNumber(a.priority), IntNumber(b.priority),
          "blockedBy", Array(StringList(a.blockedBy)), Array(StringList(b.blockedBy)),
          "blocks", Array(StringList(a.blocks)), Array(StringList(b.blocks)), LastMembers(a), LastMembers(b));
  }

  lemma MiddleIsProper(r: SpawnRequest)
    requires ProperItems(r.inputs)
    ensures ProperMembers(MiddleMembers(r))
    ensures Keys(MiddleMembers(r))
              == {"priority", "blockedBy", "blocks", "inputs", "actionBinding", "completionRequirement"}
  {
    KeysDiffer();
    LastIsProper(r);
    StringListProper(r.blocks);
    StringListProper(r.blockedBy);
    Proper3("priority", IntNumber(r.priority), "blockedBy", Array(StringList(r.blockedBy)),
            "blocks", Array(StringList(r.blocks)), LastMembers(r));
  }

  lemma SameDigestMembers(a: SpawnRequest, b: SpawnRequest)
    requires ProperItems(a.inputs) && ProperItems(b.inputs)
    ensures SameMembers(DigestMembers(a), DigestMembers(b)) <==>
              a.kind == b.kind && a.title == b.title && SameMembers(MiddleMembers(a), MiddleMembers(b))
  {
    KeysDiffer();
    MiddleIsProper(a);
    MiddleIsProper(b);
    Peel3("schemaVersion", Str("async-task-spawn-digest-input/v1"), Str("async-task-spawn-digest-input/v1"),
          "kind", Str(a.kind), Str(b.kind), "title", Str(a.title), Str(b.title), MiddleMembers(a), MiddleMembers(b));
  }

  lemma RequestFields(a: SpawnRequest, b: SpawnRequest)
    ensures SameRequest(a, b) <==>
      && a.kind == b.kind && a.title == b.title && a.priority == b.priority && a.blockedBy == b.blockedBy
      && a.blocks == b.blocks && SameItems(a.inputs, b.inputs) && a.binding == b.binding && a.policy == b.policy
  {
  }

  lemma PairProper(k: string, v: Json, l: string, w: Json)
    requires k != l && Proper(v) && Proper(w)
    ensures Proper(Object(Entry(k, v, Entry(l, w, NoMembers)))) && Proper(Object(Entry(k, v, NoMembers)))
  {
    var rest := Entry(l, w, NoMembers);
    assert Keys(rest) == {l} && ProperMembers(rest);
    assert Keys(NoMembers) == {} && ProperMembers(NoMembers);
    assert ProperMembers(Entry(k, v, rest)) && ProperMembers(Entry(k, v, NoMembers));
  }

  lemma PartsProper(r: SpawnRequest)
    ensures Proper(BindingJson(r.binding)) && Proper(PolicyJson(r.policy))
  {
    assert "kind" != "sourceActionSeq" by { assert |"kind"| == 4; }
    assert "requiredForCompletion" != "terminalPolicy" by { assert |"terminalPolicy"| == 14; }
    PairProper("requiredForCompletion", Bool(r.policy != DoesNotBlock), "terminalPolicy", Str(PolicyText(r.policy)));
    if r.binding.BrowserAction? {
      PairProper("kind", Str("browser_action"), "sourceActionSeq", NatNumber(r.binding.sourceActionSeq));
    } else {
      PairProper("kind", Str("not_action_bound"), "sourceActionSeq", Null);
    }
  }

  lemma DigestIsProper(r: SpawnRequest)
    requires ProperItems(r.inputs)
    ensures Proper(DigestInput(r))
  {
    KeysDiffer();
    MiddleIsProper(r);
    Proper3("schemaVersion", Str("async-task-spawn-digest-input/v1"), "kind", Str(r.kind), "title", Str(r.title),
            MiddleMembers(r));
  }

  /** Two spawn requests have the same input digest exactly when they ask for the same work. */
  lemma DigestIdentifiesRequest(less: Order<string>, sha256: string -> Id, a: SpawnRequest, b: SpawnRequest)
    requires KeyOrder(less) && ProperItems(a.inputs) && ProperItems(b.inputs)
    requires forall s, t :: sha256(s) == sha256(t) ==> s == t
    ensures Digest(less, sha256, a) == Digest(less, sha256, b) <==> SameRequest(a, b)
  {
    DigestIsProper(a);
    DigestIsProper(b);
    CanonicalTextIsFaithful(less, DigestInput(a), DigestInput(b));
    SameDigestMembers(a, b);
    SameMiddle(a, b);
    SameLast(a, b);
    RequestFields(a, b);
    assert SameButOrder(DigestInput(a), DigestInput(b)) <==> SameMembers(DigestMembers(a), DigestMembers(b));
  }
}
