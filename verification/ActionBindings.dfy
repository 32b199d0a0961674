/**
 The action binding of a spawned task (packages/web-buddy/src/agents/async-task-runtime.ts:970-1003):
 what the caller supplies or the input artifacts imply, checked against the action clock.
 */
module ActionBindings {
  import opened Wrappers
  import opened Contracts
  import opened Reducers
  import opened Invariants
  import opened Runs
  import opened Guarantees
  import opened Readiness

  /** A binding before it is checked: its sequence may be any number. */
  datatype Claimed = NoAction | Action(seqNo: Number)

  datatype InputArtifact = InputArtifact(ref: EvidenceRef, binding: Claimed)

  const MAX_SAFE_INTEGER: nat := 9007199254740991

  /** `Number.isSafeInteger`, of a number that is not negative. */
  predicate SafeNatural(n: Number) {
    n.Finite? && n.value >= 0.0 && n.value == n.value.Floor as real && n.value.Floor <= MAX_SAFE_INTEGER
  }

  /** The action sequences that the input artifacts carry. */
  function Sources(inputs: seq<Option<InputArtifact>>): set<Number> {
    set i | 0 <= i < |inputs| && inputs[i].Some? && inputs[i].value.binding.Action? :: inputs[i].value.binding.seqNo
  }

  predicate InputsOwned(g: Graph, inputs: seq<Option<InputArtifact>>) {
    forall i | 0 <= i < |inputs| && inputs[i].Some? :: Owned(g, inputs[i].value.ref)
  }

  /** The supplied binding, or what the inputs imply; they imply at most one sequence. */
  ghost predicate Proposes(supplied: Option<Claimed>, sources: set<Number>, binding: Claimed) {
    if supplied.Some? then binding == supplied.value
    else if sources == {} then binding == NoAction
    else binding.Action? && binding.seqNo in sources
  }

  /** The binding names an action of the past, and the one that the inputs carry if they carry one. */
  predicate Holds(binding: Claimed, sources: set<Number>, clock: nat) {
    match binding
    case NoAction => sources == {}
    case Action(n) => SafeNatural(n) && n.value.Floor <= clock && sources <= {n}
  }

  function Checked(binding: Claimed): ActionBinding
    requires binding.Action? ==> SafeNatural(binding.seqNo)
  {
    if binding.NoAction? then NotActionBound else BrowserAction(binding.seqNo.value.Floor)
  }

  /** A binding to an action holds for the whole numbers from 0 to the clock that are exact in a double. */
  lemma PastActionsHold(n: Number, sources: set<Number>, clock: nat, k: nat)
    requires sources <= {n}
    ensures n == Finite(k as real) ==> (Holds(Action(n), sources, clock) <==> k <= clock && k <= 0x1f_ffff_ffff_ffff)
    ensures Holds(Action(n), sources, clock) && Checked(Action(n)) == BrowserAction(k) ==> n == Finite(k as real)
  {
  }

  lemma OneMoreSource(inputs: seq<Option<InputArtifact>>, i: nat)
    requires i < |inputs|
    ensures Sources(inputs[..i + 1])
         == Sources(inputs[..i])
            + (if inputs[i].Some? && inputs[i].value.binding.Action? then {inputs[i].value.binding.seqNo} else {})
  {
    assert forall k | 0 <= k < i :: inputs[..i + 1][k] == inputs[..i][k];
    assert inputs[..i + 1][i] == inputs[i];
  }

  lemma AtMostOne<T>(xs: set<T>, x: T)
    requires x in xs
    ensures |xs| <= 1 <==> xs == {x}
  {
    assert |xs - {x}| == |xs| - 1;
  }

  /**
   `resolveActionBinding`. It accepts exactly the bindings that hold, for inputs of this session and
   run that carry at most one action sequence.
   */
  method ResolveActionBinding(g: Graph, supplied: Option<Claimed>, inputs: seq<Option<InputArtifact>>)
    returns (r: Result<ActionBinding, ErrorCode>)
    ensures
      r.Ok? <==> && InputsOwned(g, inputs) && |Sources(inputs)| <= 1
                 && exists binding ::
                   Proposes(supplied, Sources(inputs), binding) && Holds(binding, Sources(inputs), g.actionSeq)
    ensures
      r.Ok? ==> exists binding :: && Proposes(supplied, Sources(inputs), binding)
                                  && Holds(binding, Sources(inputs), g.actionSeq) && r.value == Checked(binding)
    ensures r.Err? ==> r.error == ContextPolicyViolation
  {
    var actionSeqs: set<Number> := {};
    for i := 0 to |inputs|
      invariant actionSeqs == Sources(inputs[..i])
      invariant forall k | 0 <= k < i && inputs[k].Some? :: Owned(g, inputs[k].value.ref)
    {
      OneMoreSource(inputs, i);
      if inputs[i].Some? {
        if !Owned(g, inputs[i].value.ref) { return Err(ContextPolicyViolation); }
        if inputs[i].value.binding.Action? {
          actionSeqs := actionSeqs + {inputs[i].value.binding.seqNo};
        }
      }
    }
    assert inputs[..|inputs|] == inputs;
    if |actionSeqs| > 1 { return Err(ContextPolicyViolation); }
    r := CheckBinding(g.actionSeq, supplied, actionSeqs);
  }

  method CheckBinding(clock: nat, supplied: Option<Claimed>, sources: set<Number>)
    returns (r: Result<ActionBinding, ErrorCode>)
    requires |sources| <= 1
    ensures r.Ok? <==> exists binding :: Proposes(supplied, sources, binding) && Holds(binding, sources, clock)
    ensures r.Ok? ==> exists binding ::
              Proposes(supplied, sources, binding) && Holds(binding, sources, clock) && r.value == Checked(binding)
    ensures r.Err? ==> r.error == ContextPolicyViolation
  {
    var derived: Option<Number> := None;
    if sources != {} {
      var n :| n in sources;
      AtMostOne(sources, n);
      derived := Some(n);
    }
    var binding := if supplied.Some? then supplied.value else if derived.None? then NoAction else Action(derived.value);
    assert Proposes(supplied, sources, binding);
    match binding {
      case Action(n) =>
        if !SafeNatural(n) || n.value.Floor > clock { return Err(ContextPolicyViolation); }
        if derived.Some? && derived.value != n { return Err(ContextPolicyViolation); }
      case NoAction =>
        if derived.Some? { return Err(ContextPolicyViolation); }
    }
    r := Ok(Checked(binding));
  }

  // ---------------------------------------------------------------- admissible from then on

  /**
   Whatever was accepted against the clock of a reachable session names no action of the future,
   in that session and in every continuation of it: the spawn is admissible whenever it is tried,
   if its identifier is new.
   */
  lemma {:induction false} AcceptedStaysAdmissible(limits: Limits, identity: GraphIdentity, clock: nat, s: System,
                                                   more: seq<Op>, binding: Claimed, sources: set<Number>, op: Op)
    requires Reachable(limits, identity, clock, s) && Plausible(limits, s, more)
    requires Holds(binding, sources, s.graph.actionSeq)
    requires op.Spawn? && op.input.actionBinding == Checked(binding) && 1 <= op.input.maxAttempts
    requires op.eventId !in After(limits, s, more).used
    ensures Admissible(After(limits, s, more).graph, After(limits, s, more).used, op)
  {
    ClockGrows(limits, identity, clock, s, more);
    NamesThePast(After(limits, s, more).graph, After(limits, s, more).used, op);
  }

  lemma {:induction false} ClockGrows(limits: Limits, identity: GraphIdentity, clock: nat, s: System, more: seq<Op>)
    requires Reachable(limits, identity, clock, s) && Plausible(limits, s, more)
    ensures s.graph.actionSeq <= After(limits, s, more).graph.actionSeq
  {
    ReachableInv(limits, identity, clock, s);
    ContinuationKeeps(limits, StartView(identity, clock), s, more);
  }

  lemma NamesThePast(g: Graph, used: set<Id>, op: Op)
    requires op.Spawn? && 1 <= op.input.maxAttempts && op.eventId !in used
    requires op.input.actionBinding.BrowserAction? ==> op.input.actionBinding.sourceActionSeq <= g.actionSeq
    ensures Admissible(g, used, op)
  {
  }
}
