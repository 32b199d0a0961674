/**
 How `JSON.stringify` writes text: without blanks of its own, with the shortest escapes, and in the
 canonical form with every object in key order
 (packages/web-buddy/src/agents/context-catalog.ts:625-635,
 packages/web-buddy/src/agents/task-graph.ts:960-967).
 */
module JsonShape {
  import opened Sorting
  import opened Json
  import opened CanonicalJson

  // ---------------------------------------------------------------- blanks

  function Blanks(s: string): nat {
    if s == "" then 0 else (if s[0] == ' ' then 1 else 0) + Blanks(s[1..])
  }

  /** The blanks in the strings and keys of a value. */
  function BlanksIn(v: Json): nat {
    match v
    case Str(s) => Blanks(s)
    case Array(items) => BlanksInItems(items)
    case Object(ms) => BlanksInMembers(ms)
    case _ => 0
  }

  function BlanksInItems(items: Items): nat {
    match items
    case NoItems => 0
    case Item(v, tail) => BlanksIn(v) + BlanksInItems(tail)
  }

  function BlanksInMembers(ms: Members): nat {
    match ms
    case NoMembers => 0
    case Entry(k, v, rest) => Blanks(k) + BlanksIn(v) + BlanksInMembers(rest)
  }

  lemma {:induction false} BlanksAppend(a: string, b: string)
    ensures Blanks(a + b) == Blanks(a) + Blanks(b)
  {
    if a == "" {
      assert a + b == b;
    } else {
      assert (a + b)[1..] == a[1..] + b;
      BlanksAppend(a[1..], b);
    }
  }

  lemma {:induction false} NoBlanks(s: string)
    requires forall i | 0 <= i < |s| :: s[i] != ' '
    ensures Blanks(s) == 0
  {
    if s != "" { NoBlanks(s[1..]); }
  }

  lemma EscapeHasSameBlanks(c: char)
    ensures Blanks(EscapeChar(c)) == if c == ' ' then 1 else 0
  {
    if c == ' ' {
      assert EscapeChar(c) == " ";
      assert " "[1..] == "";
    } else {
      NoBlanks(EscapeChar(c));
    }
  }

  lemma {:induction false} QuoteHasSameBlanks(s: string)
    ensures Blanks(EscapeAll(s)) == Blanks(s)
  {
    if s != "" {
      EscapeHasSameBlanks(s[0]);
      BlanksAppend(EscapeChar(s[0]), EscapeAll(s[1..]));
      QuoteHasSameBlanks(s[1..]);
    }
  }

  lemma QuotedBlanks(s: string)
    ensures Blanks(Quote(s)) == Blanks(s)
  {
    QuoteHasSameBlanks(s);
    BlanksAppend("\"", EscapeAll(s));
    BlanksAppend("\"" + EscapeAll(s), "\"");
    NoBlanks("\"");
  }

  lemma Between(open: string, inner: string, close: string)
    requires Blanks(open) == 0 && Blanks(close) == 0
    ensures Blanks(open + inner + close) == Blanks(inner)
  {
    BlanksAppend(open, inner);
    BlanksAppend(open + inner, close);
  }

  /** The only blanks in the printed text are those inside strings. */
  lemma {:induction false} PrintIsCompact(v: Json)
    ensures Blanks(Print(v)) == BlanksIn(v)
  {
    match v
    case Null => NoBlanks("null");
    case Bool(b) => NoBlanks(if b then "true" else "false");
    case Number(text) => NoBlanks(text);
    case Str(s) => QuotedBlanks(s);
    case Array(items) =>
      ItemsAreCompact(items);
      NoBlanks("[");
      NoBlanks("]");
      Between("[", PrintItems(items), "]");
    case Object(ms) =>
      MembersAreCompact(ms);
      NoBlanks("{");
      NoBlanks("}");
      Between("{", PrintMembers(ms), "}");
  }

  lemma {:induction false} ItemsAreCompact(items: Items)
    ensures Blanks(PrintItems(items)) == BlanksInItems(items)
  {
    match items
    case NoItems =>
    case Item(v, tail) =>
      PrintIsCompact(v);
      ItemsAreCompact(tail);
      NoBlanks(",");
      BlanksAppend(",", PrintItems(tail));
      BlanksAppend(Print(v), if tail == NoItems then "" else "," + PrintItems(tail));
  }

  lemma {:induction false} MembersAreCompact(ms: Members)
    ensures Blanks(PrintMembers(ms)) == BlanksInMembers(ms)
  {
    match ms
    case NoMembers =>
    case Entry(k, v, rest) =>
      PrintIsCompact(v);
      MembersAreCompact(rest);
      QuotedBlanks(k);
      NoBlanks(":");
      NoBlanks(",");
      BlanksAppend(",", PrintMembers(rest));
      BlanksAppend(Quote(k), ":");
      BlanksAppend(Quote(k) + ":", Print(v));
      BlanksAppend(Quote(k) + ":" + Print(v), if rest == NoMembers then "" else "," + PrintMembers(rest));
  }

  // ---------------------------------------------------------------- escapes

  /** The seven characters with an escape of their own get it, other control characters four lower-case digits. */
  lemma EscapesAreShortest(c: char)
    ensures |EscapeChar(c)| ==
              if c in {'"', '\\', '\n', '\r', '\t', '\U{8}', '\U{c}'} then 2 else if c < ' ' then 6 else 1
    ensures |EscapeChar(c)| == 6 ==>
              forall i | 0 <= i < 6 :: EscapeChar(c)[i] in {'\\', 'u'} || '0' <= EscapeChar(c)[i] <= '9'
                                    || 'a' <= EscapeChar(c)[i] <= 'f'
    ensures |EscapeChar(c)| == 1 ==> EscapeChar(c) == [c]
  {
  }

  // ---------------------------------------------------------------- canonical text

  /** Every object in the value lists its keys in order. */
  ghost predicate Ordered(less: Order<string>, v: Json) {
    match v
    case Array(items) => OrderedItems(less, items)
    case Object(ms) => InOrder(less, ms) && OrderedMembers(less, ms)
    case _ => true
  }

  ghost predicate OrderedItems(less: Order<string>, items: Items) {
    match items
    case NoItems => true
    case Item(v, tail) => Ordered(less, v) && OrderedItems(less, tail)
  }

  ghost predicate OrderedMembers(less: Order<string>, ms: Members) {
    match ms
    case NoMembers => true
    case Entry(_, v, rest) => Ordered(less, v) && OrderedMembers(less, rest)
  }

  lemma {:induction false} CanonicalIsOrdered(less: Order<string>, v: Json)
    requires KeyOrder(less) && Proper(v)
    ensures Ordered(less, Canonical(less, v))
    decreases Size(v), 1
  {
    match v
    case Array(items) => ListIsOrdered(less, items);
    case Object(ms) =>
      SortInOrder(less, ms);
      SortStaysProper(less, ms);
      EntriesKeep(less, SortMembers(less, ms));
      EntriesAreOrdered(less, SortMembers(less, ms));
    case _ =>
  }

  lemma {:induction false} ListIsOrdered(less: Order<string>, items: Items)
    requires KeyOrder(less) && ProperItems(items)
    ensures OrderedItems(less, CanonicalList(less, items))
    decreases SizeOfItems(items), 2
  {
    if items.Item? {
      CanonicalIsOrdered(less, items.head);
      ListIsOrdered(less, items.tail);
    }
  }

  lemma {:induction false} EntriesAreOrdered(less: Order<string>, ms: Members)
    requires KeyOrder(less) && ProperMembers(ms)
    ensures OrderedMembers(less, CanonicalEntries(less, ms))
    decreases SizeOfMembers(ms), 2
  {
    if ms.Entry? {
      CanonicalIsOrdered(less, ms.value);
      EntriesAreOrdered(less, ms.rest);
    }
  }

  /** The canonical text is the compact print of a value in key order. */
  lemma CanonicalTextIsOrdered(less: Order<string>, v: Json) returns (w: Json)
    requires KeyOrder(less) && Proper(v)
    ensures CanonicalText(less, v) == Print(w) && Ordered(less, w) && Blanks(CanonicalText(less, v)) == BlanksIn(w)
  {
    w := Canonical(less, v);
    TextIsPrintedCanonical(less, v);
    CanonicalIsOrdered(less, v);
    PrintIsCompact(w);
  }
}
