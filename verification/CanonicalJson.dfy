/**
 The canonical printer: objects print their members in key order
 (packages/web-buddy/src/agents/context-catalog.ts:625-635,
 packages/web-buddy/src/agents/task-graph.ts:960-967,
 packages/web-buddy/src/agents/async-task-runtime.ts:1245-1253).
 `localeCompare` is taken as an arbitrary strict total order on keys.
 */
module CanonicalJson {
  import opened Wrappers
  import opened Json
  import opened Sorting

  // ---------------------------------------------------------------- sizes

  function Size(v: Json): nat {
    match v
    case Array(items) => 1 + SizeOfItems(items)
    case Object(ms) => 1 + SizeOfMembers(ms)
    case _ => 1
  }

  function SizeOfItems(items: Items): nat {
    match items
    case NoItems => 0
    case Item(v, tail) => 1 + Size(v) + SizeOfItems(tail)
  }

  function SizeOfMembers(ms: Members): nat {
    match ms
    case NoMembers => 0
    case Entry(_, v, rest) => 1 + Size(v) + SizeOfMembers(rest)
  }

  lemma {:induction false} LookupIsSmaller(ms: Members, key: string)
    ensures Lookup(ms, key).Some? <==> key in Keys(ms)
    ensures key in Keys(ms) ==> Size(Lookup(ms, key).value) < SizeOfMembers(ms)
  {
    if ms.Entry? {
      LookupIsSmaller(ms.rest, key);
    }
  }

  function ValueAt(ms: Members, key: string): (v: Json)
    requires key in Keys(ms)
    ensures Size(v) < SizeOfMembers(ms) && Lookup(ms, key) == Some(v)
  {
    LookupIsSmaller(ms, key);
    Lookup(ms, key).value
  }

  // ---------------------------------------------------------------- sorting members

  function InsertMember(less: Order<string>, key: string, v: Json, sorted: Members): (r: Members)
    ensures SizeOfMembers(r) == 1 + Size(v) + SizeOfMembers(sorted)
  {
    match sorted
    case NoMembers => Entry(key, v, NoMembers)
    case Entry(k, w, rest) =>
      if less(key, k) then Entry(key, v, sorted) else Entry(k, w, InsertMember(less, key, v, rest))
  }

  /** `Object.entries(value).sort(byKey)`. */
  function SortMembers(less: Order<string>, ms: Members): (r: Members)
    ensures SizeOfMembers(r) == SizeOfMembers(ms)
  {
    match ms
    case NoMembers => NoMembers
    case Entry(k, v, rest) => InsertMember(less, k, v, SortMembers(less, rest))
  }

  // ---------------------------------------------------------------- the canonical printer

  function CanonicalText(less: Order<string>, v: Json): string
    decreases Size(v), 1
  {
    match v
    case Array(items) => "[" + CanonicalItems(less, items) + "]"
    case Object(ms) => "{" + CanonicalMembers(less, SortMembers(less, ms)) + "}"
    case _ => Print(v)
  }

  function CanonicalItems(less: Order<string>, items: Items): string
    decreases SizeOfItems(items), 2
  {
    match items
    case NoItems => ""
    case Item(v, tail) => CanonicalText(less, v) + if tail == NoItems then "" else "," + CanonicalItems(less, tail)
  }

  function CanonicalMembers(less: Order<string>, sorted: Members): string
    decreases SizeOfMembers(sorted), 2
  {
    match sorted
    case NoMembers => ""
    case Entry(k, v, rest) =>
      Quote(k) + ":" + CanonicalText(less, v) + if rest == NoMembers then "" else "," + CanonicalMembers(less, rest)
  }

  /** The same value with every object's members in key order. */
  function Canonical(less: Order<string>, v: Json): Json
    decreases Size(v), 1
  {
    match v
    case Array(items) => Array(CanonicalList(less, items))
    case Object(ms) => Object(CanonicalEntries(less, SortMembers(less, ms)))
    case _ => v
  }

  function CanonicalList(less: Order<string>, items: Items): Items
    decreases SizeOfItems(items), 2
  {
    match items
    case NoItems => NoItems
    case Item(v, tail) => Item(Canonical(less, v), CanonicalList(less, tail))
  }

  function CanonicalEntries(less: Order<string>, ms: Members): Members
    decreases SizeOfMembers(ms), 2
  {
    match ms
    case NoMembers => NoMembers
    case Entry(k, v, rest) => Entry(k, Canonical(less, v), CanonicalEntries(less, rest))
  }

  lemma {:induction false} TextIsPrintedCanonical(less: Order<string>, v: Json)
    ensures CanonicalText(less, v) == Print(Canonical(less, v))
    decreases Size(v), 1
  {
    match v
    case Array(items) => ItemsArePrinted(less, items);
    case Object(ms) => MembersArePrinted(less, SortMembers(less, ms));
    case _ =>
  }

  lemma {:induction false} ItemsArePrinted(less: Order<string>, items: Items)
    ensures CanonicalItems(less, items) == PrintItems(CanonicalList(less, items))
    decreases SizeOfItems(items), 2
  {
    if items.Item? {
      TextIsPrintedCanonical(less, items.head);
      ItemsArePrinted(less, items.tail);
    }
  }

  lemma {:induction false} MembersArePrinted(less: Order<string>, ms: Members)
    ensures CanonicalMembers(less, ms) == PrintMembers(CanonicalEntries(less, ms))
    decreases SizeOfMembers(ms), 2
  {
    if ms.Entry? {
      TextIsPrintedCanonical(less, ms.value);
      MembersArePrinted(less, ms.rest);
    }
  }

  // ---------------------------------------------------------------- what sorting keeps

  lemma {:induction false} InsertKeeps(less: Order<string>, key: string, v: Json, sorted: Members)
    requires key !in Keys(sorted)
    ensures Keys(InsertMember(less, key, v, sorted)) == Keys(sorted) + {key}
    ensures forall k :: Lookup(InsertMember(less, key, v, sorted), k) == if k == key then Some(v) else Lookup(sorted, k)
  {
    AbsentKey(sorted, key);
    if sorted.Entry? && !less(key, sorted.key) {
      InsertKeeps(less, key, v, sorted.rest);
    }
  }

  lemma {:induction false} SortKeeps(less: Order<string>, ms: Members)
    requires ProperMembers(ms)
    ensures Keys(SortMembers(less, ms)) == Keys(ms)
    ensures forall k :: Lookup(SortMembers(less, ms), k) == Lookup(ms, k)
  {
    if ms.Entry? {
      SortKeeps(less, ms.rest);
      InsertKeeps(less, ms.key, ms.value, SortMembers(less, ms.rest));
    }
  }

  /** Keys strictly ascend. */
  ghost predicate InOrder(less: Order<string>, ms: Members) {
    ms.Entry? ==> (forall k | k in Keys(ms.rest) :: less(ms.key, k)) && InOrder(less, ms.rest)
  }

  ghost predicate KeyOrder(less: Order<string>) {
    forall s: set<string> :: StrictTotalOn(less, s)
  }

  lemma OrderOnKeys(less: Order<string>, a: string, b: string, c: string)
    requires KeyOrder(less)
    ensures !less(a, a) && (a != b ==> less(a, b) || less(b, a)) && (less(a, b) && less(b, c) ==> less(a, c))
  {
    assert StrictTotalOn(less, {a, b, c});
    assert a in {a, b, c} && b in {a, b, c} && c in {a, b, c};
  }

  lemma {:induction false} InsertInOrder(less: Order<string>, key: string, v: Json, sorted: Members)
    requires KeyOrder(less) && key !in Keys(sorted) && InOrder(less, sorted)
    ensures InOrder(less, InsertMember(less, key, v, sorted))
  {
    if sorted.Entry? {
      if less(key, sorted.key) {
        forall k | k in Keys(sorted)
          ensures less(key, k)
        {
          OrderOnKeys(less, key, sorted.key, k);
        }
      } else {
        InsertInOrder(less, key, v, sorted.rest);
        InsertKeeps(less, key, v, sorted.rest);
        OrderOnKeys(less, key, sorted.key, key);
      }
    }
  }

  lemma {:induction false} SortInOrder(less: Order<string>, ms: Members)
    requires KeyOrder(less) && ProperMembers(ms)
    ensures InOrder(less, SortMembers(less, ms))
  {
    if ms.Entry? {
      SortInOrder(less, ms.rest);
      SortKeeps(less, ms.rest);
      InsertInOrder(less, ms.key, ms.value, SortMembers(less, ms.rest));
    }
  }

  lemma {:induction false} EntriesKeep(less: Order<string>, ms: Members)
    ensures Keys(CanonicalEntries(less, ms)) == Keys(ms)
    ensures forall k :: Lookup(CanonicalEntries(less, ms), k)
                        == if Lookup(ms, k).Some? then Some(Canonical(less, Lookup(ms, k).value)) else None
    ensures InOrder(less, ms) ==> InOrder(less, CanonicalEntries(less, ms))
  {
    if ms.Entry? {
      EntriesKeep(less, ms.rest);
    }
  }

  /** Members in order are determined by their keys and values. */
  lemma {:induction false} OrderedMembersAreUnique(less: Order<string>, ms: Members, ns: Members)
    requires KeyOrder(less) && InOrder(less, ms) && InOrder(less, ns) && Keys(ms) == Keys(ns)
    requires forall k | k in Keys(ms) :: Lookup(ms, k) == Lookup(ns, k)
    ensures ms == ns
  {
    if ms.Entry? {
      assert ms.key in Keys(ns);
      assert ns.Entry?;
      assert ns.key in Keys(ms);
      OrderOnKeys(less, ms.key, ns.key, ms.key);
      assert ms.key == ns.key;
      assert ms.key !in Keys(ms.rest) by { OrderOnKeys(less, ms.key, ms.key, ms.key); }
      assert ns.key !in Keys(ns.rest) by { OrderOnKeys(less, ns.key, ns.key, ns.key); }
      forall k
        ensures k in Keys(ms.rest) <==> k in Keys(ns.rest)
      {
        assert k in Keys(ms.rest) <==> k in Keys(ms) && k != ms.key;
        assert k in Keys(ns.rest) <==> k in Keys(ns) && k != ns.key;
      }
      forall k | k in Keys(ms.rest)
        ensures Lookup(ms.rest, k) == Lookup(ns.rest, k)
      {
        assert Lookup(ms, k) == Lookup(ns, k);
      }
      OrderedMembersAreUnique(less, ms.rest, ns.rest);
    }
  }

  // ---------------------------------------------------------------- proper values stay proper

  lemma {:induction false} InsertStaysProper(less: Order<string>, key: string, v: Json, sorted: Members)
    requires key !in Keys(sorted) && Proper(v) && ProperMembers(sorted)
    ensures ProperMembers(InsertMember(less, key, v, sorted))
  {
    if sorted.Entry? && !less(key, sorted.key) {
      InsertStaysProper(less, key, v, sorted.rest);
      InsertKeeps(less, key, v, sorted.rest);
    }
  }

  lemma {:induction false} SortStaysProper(less: Order<string>, ms: Members)
    requires ProperMembers(ms)
    ensures ProperMembers(SortMembers(less, ms))
  {
    if ms.Entry? {
      SortStaysProper(less, ms.rest);
      SortKeeps(less, ms.rest);
      InsertStaysProper(less, ms.key, ms.value, SortMembers(less, ms.rest));
    }
  }

  lemma {:induction false} CanonicalStaysProper(less: Order<string>, v: Json)
    requires Proper(v)
    ensures Proper(Canonical(less, v))
    decreases Size(v), 1
  {
    match v
    case Array(items) => ListStaysProper(less, items);
    case Object(ms) =>
      SortStaysProper(less, ms);
      EntriesStayProper(less, SortMembers(less, ms));
    case _ =>
  }

  lemma {:induction false} ListStaysProper(less: Order<string>, items: Items)
    requires ProperItems(items)
    ensures ProperItems(CanonicalList(less, items))
    decreases SizeOfItems(items), 2
  {
    if items.Item? {
      CanonicalStaysProper(less, items.head);
      ListStaysProper(less, items.tail);
    }
  }

  lemma {:induction false} EntriesStayProper(less: Order<string>, ms: Members)
    requires ProperMembers(ms)
    ensures ProperMembers(CanonicalEntries(less, ms))
    decreases SizeOfMembers(ms), 2
  {
    if ms.Entry? {
      CanonicalStaysProper(less, ms.value);
      EntriesStayProper(less, ms.rest);
      EntriesKeep(less, ms.rest);
    }
  }

  // ---------------------------------------------------------------- equal up to key order

  /** The two values differ at most in the order of object members. */
  ghost predicate SameButOrder(v: Json, w: Json)
    decreases Size(v), 1
  {
    match (v, w)
    case (Array(items), Array(others)) => SameItems(items, others)
    case (Object(ms), Object(ns)) =>
      Keys(ms) == Keys(ns) && forall k | k in Keys(ms) :: SameButOrder(ValueAt(ms, k), ValueAt(ns, k))
    case _ => v == w
  }

  ghost predicate SameItems(items: Items, others: Items)
    decreases SizeOfItems(items), 2
  {
    match (items, others)
    case (NoItems, NoItems) => true
    case (Item(v, tail), Item(w, more)) => SameButOrder(v, w) && SameItems(tail, more)
    case _ => false
  }

  lemma {:induction false} SameCanonicalIsSame(less: Order<string>, v: Json, w: Json)
    requires Proper(v) && Proper(w) && Canonical(less, v) == Canonical(less, w)
    ensures SameButOrder(v, w)
    decreases Size(v), 1
  {
    match (v, w)
    case (Array(items), Array(others)) => SameCanonicalItems(less, items, others);
    case (Object(ms), Object(ns)) =>
      SortKeeps(less, ms);
      SortKeeps(less, ns);
      EntriesKeep(less, SortMembers(less, ms));
      EntriesKeep(less, SortMembers(less, ns));
      forall k | k in Keys(ms)
        ensures SameButOrder(ValueAt(ms, k), ValueAt(ns, k))
      {
        var mine, theirs := ValueAt(ms, k), ValueAt(ns, k);
        assert Lookup(CanonicalEntries(less, SortMembers(less, ms)), k) == Some(Canonical(less, mine));
        assert Lookup(CanonicalEntries(less, SortMembers(less, ns)), k) == Some(Canonical(less, theirs));
        ProperAt(ms, k);
        ProperAt(ns, k);
        SameCanonicalIsSame(less, mine, theirs);
      }
    case _ =>
  }

  lemma {:induction false} SameCanonicalItems(less: Order<string>, items: Items, others: Items)
    requires ProperItems(items) && ProperItems(others) && CanonicalList(less, items) == CanonicalList(less, others)
    ensures SameItems(items, others)
    decreases SizeOfItems(items), 2
  {
    if items.Item? {
      SameCanonicalIsSame(less, items.head, others.head);
      SameCanonicalItems(less, items.tail, others.tail);
    }
  }

  lemma {:induction false} ProperAt(ms: Members, key: string)
    requires ProperMembers(ms) && key in Keys(ms)
    ensures Proper(ValueAt(ms, key))
  {
    if ms.key != key {
      ProperAt(ms.rest, key);
    }
  }

  lemma {:induction false} SameHasSameCanonical(less: Order<string>, v: Json, w: Json)
    requires KeyOrder(less) && Proper(v) && Proper(w) && SameButOrder(v, w)
    ensures Canonical(less, v) == Canonical(less, w)
    decreases Size(v), 1
  {
    match (v, w)
    case (Array(items), Array(others)) => SameItemsSameCanonical(less, items, others);
    case (Object(ms), Object(ns)) =>
      forall k | k in Keys(ms)
        ensures Canonical(less, ValueAt(ms, k)) == Canonical(less, ValueAt(ns, k))
      {
        ProperAt(ms, k);
        ProperAt(ns, k);
        SameHasSameCanonical(less, ValueAt(ms, k), ValueAt(ns, k));
      }
      SameEntries(less, ms, ns);
    case _ =>
  }

  lemma SameEntries(less: Order<string>, ms: Members, ns: Members)
    requires KeyOrder(less) && ProperMembers(ms) && ProperMembers(ns) && Keys(ms) == Keys(ns)
    requires forall k | k in Keys(ms) :: Canonical(less, ValueAt(ms, k)) == Canonical(less, ValueAt(ns, k))
    ensures CanonicalEntries(less, SortMembers(less, ms)) == CanonicalEntries(less, SortMembers(less, ns))
  {
    var mine, theirs := SortMembers(less, ms), SortMembers(less, ns);
    SortKeeps(less, ms);
    SortKeeps(less, ns);
    SortInOrder(less, ms);
    SortInOrder(less, ns);
    EntriesKeep(less, mine);
    EntriesKeep(less, theirs);
    forall k | k in Keys(ms)
      ensures Lookup(CanonicalEntries(less, mine), k) == Lookup(CanonicalEntries(less, theirs), k)
    {
      assert Lookup(ms, k) == Some(ValueAt(ms, k)) && Lookup(ns, k) == Some(ValueAt(ns, k));
    }
    OrderedMembersAreUnique(less, CanonicalEntries(less, mine), CanonicalEntries(less, theirs));
  }

  lemma {:induction false} SameItemsSameCanonical(less: Order<string>, items: Items, others: Items)
    requires KeyOrder(less) && ProperItems(items) && ProperItems(others) && SameItems(items, others)
    ensures CanonicalList(less, items) == CanonicalList(less, others)
    decreases SizeOfItems(items), 2
  {
    if items.Item? {
      SameHasSameCanonical(less, items.head, others.head);
      SameItemsSameCanonical(less, items.tail, others.tail);
    }
  }

  /** Two values have the same canonical text exactly when they differ at most in key order. */
  lemma CanonicalTextIsFaithful(less: Order<string>, v: Json, w: Json)
    requires KeyOrder(less) && Proper(v) && Proper(w)
    ensures CanonicalText(less, v) == CanonicalText(less, w) <==> SameButOrder(v, w)
  {
    TextIsPrintedCanonical(less, v);
    TextIsPrintedCanonical(less, w);
    CanonicalStaysProper(less, v);
    CanonicalStaysProper(less, w);
    if CanonicalText(less, v) == CanonicalText(less, w) {
      PrintInjective(Canonical(less, v), Canonical(less, w));
      SameCanonicalIsSame(less, v, w);
    }
    if SameButOrder(v, w) {
      SameHasSameCanonical(less, v, w);
    }
  }
}
