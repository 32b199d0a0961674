/**
 JSON text as the stores write and read it: `JSON.stringify` without indentation,
 `JSON.parse`, and the canonical printer with sorted keys
 (packages/web-buddy/src/agents/context-catalog.ts:625-635,
 packages/web-buddy/src/agents/task-graph.ts:960-967,
 packages/web-buddy/src/agents/async-task-runtime.ts:1245-1253).
 A number is represented by its text.
 */
module Json {
  import opened Wrappers

  // ---------------------------------------------------------------- values

  predicate IsDigit(c: char) {
    '0' <= c <= '9'
  }

  predicate NumberChar(c: char) {
    IsDigit(c) || c in "-+.eE"
  }

  predicate AllDigits(s: string) {
    forall i | 0 <= i < |s| :: IsDigit(s[i])
  }

  function DropDigits(s: string): (r: string)
    ensures |r| <= |s|
    ensures r != "" ==> !IsDigit(r[0])
  {
    if s == "" || !IsDigit(s[0]) then s else DropDigits(s[1..])
  }

  predicate IsExponent(s: string) {
    s == "" ||
    (&& s[0] in "eE"
     && var t := if |s| > 1 && s[1] in "+-" then s[2..] else s[1..];
        t != "" && DropDigits(t) == "")
  }

  predicate IsFraction(s: string) {
    if s == "" || s[0] != '.' then IsExponent(s)
    else DropDigits(s[1..]) != s[1..] && IsExponent(DropDigits(s[1..]))
  }

  /** The number grammar of section 6 of RFC 8259. */
  predicate IsNumber(s: string) {
    && (forall i | 0 <= i < |s| :: NumberChar(s[i]))
    && var t := if s != "" && s[0] == '-' then s[1..] else s;
       && t != "" && IsDigit(t[0])
       && IsFraction(if t[0] == '0' then t[1..] else DropDigits(t))
  }

  type NumberText = s: string | IsNumber(s) witness "0"

  datatype Json =
    | Null
    | Bool(b: bool)
    | Number(text: NumberText)
    | Str(s: string)
    | Array(items: Items)
    | Object(members: Members)
  datatype Items = NoItems | Item(head: Json, tail: Items)
  datatype Members = NoMembers | Entry(key: string, value: Json, rest: Members)

  function Keys(ms: Members): set<string> {
    match ms
    case NoMembers => {}
    case Entry(k, _, rest) => {k} + Keys(rest)
  }

  /** Objects have distinct keys. */
  predicate Proper(v: Json) {
    match v
    case Array(items) => ProperItems(items)
    case Object(ms) => ProperMembers(ms)
    case _ => true
  }

  predicate ProperItems(items: Items) {
    match items
    case NoItems => true
    case Item(v, tail) => Proper(v) && ProperItems(tail)
  }

  predicate ProperMembers(ms: Members) {
    match ms
    case NoMembers => true
    case Entry(k, v, rest) => k !in Keys(rest) && Proper(v) && ProperMembers(rest)
  }

  // ---------------------------------------------------------------- printing

  function HexDigit(n: nat): (c: char)
    requires n < 16
    ensures c !in ['\n', '"', '\\'] && c >= ' '
  {
    "0123456789abcdef"[n]
  }

  function EscapeChar(c: char): (r: string)
    ensures r != "" && forall i | 0 <= i < |r| :: r[i] >= ' '
  {
    if c == '"' then "\\\""
    else if c == '\\' then "\\\\"
    else if c == '\U{8}' then "\\b"
    else if c == '\U{c}' then "\\f"
    else if c == '\n' then "\\n"
    else if c == '\r' then "\\r"
    else if c == '\t' then "\\t"
    else if c < ' ' then "\\u00" + [HexDigit(c as nat / 16), HexDigit(c as nat % 16)]
    else [c]
  }

  function EscapeAll(s: string): (r: string)
    ensures forall i | 0 <= i < |r| :: r[i] >= ' '
  {
    if s == "" then "" else EscapeChar(s[0]) + EscapeAll(s[1..])
  }

  function Quote(s: string): (r: string)
    ensures r != "" && r[0] == '"' && forall i | 0 <= i < |r| :: r[i] >= ' '
  {
    "\"" + EscapeAll(s) + "\""
  }

  /** `JSON.stringify(value)`: one line, nothing below the blank. */
  function Print(v: Json): (r: string)
    ensures r != "" && forall i | 0 <= i < |r| :: r[i] >= ' '
  {
    match v
    case Null => "null"
    case Bool(b) => if b then "true" else "false"
    case Number(text) => text
    case Str(s) => Quote(s)
    case Array(items) => "[" + PrintItems(items) + "]"
    case Object(ms) => "{" + PrintMembers(ms) + "}"
  }

  function PrintItems(items: Items): (r: string)
    ensures forall i | 0 <= i < |r| :: r[i] >= ' '
  {
    match items
    case NoItems => ""
    case Item(v, tail) => Print(v) + if tail == NoItems then "" else "," + PrintItems(tail)
  }

  function PrintMembers(ms: Members): (r: string)
    ensures forall i | 0 <= i < |r| :: r[i] >= ' '
  {
    match ms
    case NoMembers => ""
    case Entry(k, v, rest) =>
      Quote(k) + ":" + Print(v) + if rest == NoMembers then "" else "," + PrintMembers(rest)
  }

  // ---------------------------------------------------------------- parsing

  datatype Parse<T> = Parsed(value: T, rest: string) | Fail

  predicate IsSpace(c: char) {
    c == ' ' || c == '\t' || c == '\n' || c == '\r'
  }

  function SkipSpace(s: string): (r: string)
    ensures |r| <= |s| && (r != "" ==> !IsSpace(r[0]))
  {
    if s == "" || !IsSpace(s[0]) then s else SkipSpace(s[1..])
  }

  function HexValue(c: char): (r: Option<nat>)
    ensures r.Some? ==> r.value < 16
  {
    if '0' <= c <= '9' then Some(c as nat - '0' as nat)
    else if 'a' <= c <= 'f' then Some(c as nat - 'a' as nat + 10)
    else if 'A' <= c <= 'F' then Some(c as nat - 'A' as nat + 10)
    else None
  }

  /** The character of `\uXXXX`, if the digits are well formed and name a scalar value. */
  function HexChar(s: string): Option<char>
    requires |s| == 4
  {
    var a, b, c, d := HexValue(s[0]), HexValue(s[1]), HexValue(s[2]), HexValue(s[3]);
    if a.None? || b.None? || c.None? || d.None? then None
    else
      var n := a.value * 4096 + b.value * 256 + c.value * 16 + d.value;
      if n < 0xD800 || n >= 0xE000 then Some(n as char) else None
  }

  /** One possibly escaped character of a string literal. */
  function ParseChar(s: string): (r: Parse<char>)
    requires s != ""
    ensures r.Parsed? ==> |r.rest| < |s|
  {
    if s[0] != '\\' then (if s[0] < ' ' then Fail else Parsed(s[0], s[1..]))
    else if |s| < 2 then Fail
    else if s[1] == '"' || s[1] == '\\' || s[1] == '/' then Parsed(s[1], s[2..])
    else if s[1] == 'b' then Parsed('\U{8}', s[2..])
    else if s[1] == 'f' then Parsed('\U{c}', s[2..])
    else if s[1] == 'n' then Parsed('\n', s[2..])
    else if s[1] == 'r' then Parsed('\r', s[2..])
    else if s[1] == 't' then Parsed('\t', s[2..])
    else if s[1] == 'u' && |s| >= 6 && HexChar(s[2..6]).Some? then Parsed(HexChar(s[2..6]).value, s[6..])
    else Fail
  }

  /** The characters of a string literal up to and including its closing quote. */
  function ParseChars(s: string): (r: Parse<string>)
    ensures r.Parsed? ==> |r.rest| < |s|
    decreases |s|
  {
    if s == "" then Fail
    else if s[0] == '"' then Parsed("", s[1..])
    else
      match ParseChar(s)
      case Fail => Fail
      case Parsed(c, rest) =>
        match ParseChars(rest)
        case Fail => Fail
        case Parsed(cs, r) => Parsed([c] + cs, r)
  }

  function NumberRun(s: string): (n: nat)
    ensures n <= |s| && (forall i | 0 <= i < n :: NumberChar(s[i])) && (n < |s| ==> !NumberChar(s[n]))
  {
    if s == "" || !NumberChar(s[0]) then 0 else 1 + NumberRun(s[1..])
  }

  function ParseNumber(s: string): (r: Parse<Json>)
    ensures r.Parsed? ==> |r.rest| < |s| && r.value.Number?
  {
    var n := NumberRun(s);
    if IsNumber(s[..n]) then Parsed(Number(s[..n]), s[n..]) else Fail
  }

  function Literal(s: string, word: string, v: Json): (r: Parse<Json>)
    requires word != ""
    ensures r.Parsed? ==> |r.rest| < |s| && r.value == v
  {
    if word <= s then Parsed(v, s[|word|..]) else Fail
  }

  function ParseScalar(t: string): (r: Parse<Json>)
    requires t != ""
    ensures r.Parsed? ==> |r.rest| < |t| && !r.value.Object? && !r.value.Array?
  {
    if t[0] == '"' then
      (match ParseChars(t[1..])
       case Fail => Fail
       case Parsed(cs, rest) => Parsed(Str(cs), rest))
    else if t[0] == 't' then Literal(t, "true", Bool(true))
    else if t[0] == 'f' then Literal(t, "false", Bool(false))
    else if t[0] == 'n' then Literal(t, "null", Null)
    else ParseNumber(t)
  }

  function ParseValue(s: string): (r: Parse<Json>)
    ensures r.Parsed? ==> |r.rest| < |s|
    decreases |s|, 1
  {
    var t := SkipSpace(s);
    if t == "" then Fail
    else if t[0] == '{' then
      var u := SkipSpace(t[1..]);
      if u != "" && u[0] == '}' then Parsed(Object(NoMembers), u[1..])
      else
        (match ParseMembers(u)
         case Fail => Fail
         case Parsed(ms, rest) => Parsed(Object(ms), rest))
    else if t[0] == '[' then
      var u := SkipSpace(t[1..]);
      if u != "" && u[0] == ']' then Parsed(Array(NoItems), u[1..])
      else
        (match ParseItems(u)
         case Fail => Fail
         case Parsed(items, rest) => Parsed(Array(items), rest))
    else ParseScalar(t)
  }

  /** One or more elements and the closing bracket. */
  function ParseItems(s: string): (r: Parse<Items>)
    ensures r.Parsed? ==> |r.rest| < |s|
    decreases |s|, 2
  {
    match ParseValue(s)
    case Fail => Fail
    case Parsed(v, rest) =>
      var t := SkipSpace(rest);
      if t == "" then Fail
      else if t[0] == ']' then Parsed(Item(v, NoItems), t[1..])
      else if t[0] == ',' then
        (match ParseItems(t[1..])
         case Fail => Fail
         case Parsed(items, r) => Parsed(Item(v, items), r))
      else Fail
  }

  function Lookup(ms: Members, key: string): Option<Json> {
    match ms
    case NoMembers => None
    case Entry(k, v, rest) => if k == key then Some(v) else Lookup(rest, key)
  }

  function Without(ms: Members, key: string): Members {
    match ms
    case NoMembers => NoMembers
    case Entry(k, v, rest) => if k == key then rest else Entry(k, v, Without(rest, key))
  }

  /** A repeated key keeps its first position and takes its last value. */
  function Prepend(key: string, v: Json, ms: Members): Members {
    match Lookup(ms, key)
    case None => Entry(key, v, ms)
    case Some(later) => Entry(key, later, Without(ms, key))
  }

  /** A key, the colon and what follows it. */
  function ParseKey(s: string): (r: Parse<string>)
    ensures r.Parsed? ==> |r.rest| < |s|
  {
    var t := SkipSpace(s);
    if t == "" || t[0] != '"' then Fail
    else
      match ParseChars(t[1..])
      case Fail => Fail
      case Parsed(key, rest) =>
        var u := SkipSpace(rest);
        if u == "" || u[0] != ':' then Fail else Parsed(key, u[1..])
  }

  /** One or more members and the closing brace. */
  function ParseMembers(s: string): (r: Parse<Members>)
    ensures r.Parsed? ==> |r.rest| < |s|
    decreases |s|, 2
  {
    match ParseKey(s)
    case Fail => Fail
    case Parsed(key, rest) =>
      match ParseValue(rest)
      case Fail => Fail
      case Parsed(v, after) =>
        var t := SkipSpace(after);
        if t == "" then Fail
        else if t[0] == '}' then Parsed(Entry(key, v, NoMembers), t[1..])
        else if t[0] == ',' then
          (match ParseMembers(t[1..])
           case Fail => Fail
           case Parsed(ms, r) => Parsed(Prepend(key, v, ms), r))
        else Fail
  }

  /** `JSON.parse(text)`, None when it throws. */
  function ParseText(s: string): Option<Json> {
    match ParseValue(s)
    case Fail => None
    case Parsed(v, rest) => if SkipSpace(rest) == "" then Some(v) else None
  }

  // ---------------------------------------------------------------- parsing what was printed

  lemma SkipNothing(s: string)
    requires s != "" && !IsSpace(s[0])
    ensures SkipSpace(s) == s
  {
  }

  lemma EscapedCharParses(c: char, tail: string)
    ensures EscapeChar(c) + tail != ""
    ensures (EscapeChar(c) + tail)[0] != '"'
    ensures ParseChar(EscapeChar(c) + tail) == Parsed(c, tail)
  {
    var s := EscapeChar(c) + tail;
    if c < ' ' && c !in ['\U{8}', '\U{c}', '\n', '\r', '\t'] {
      HexRoundTrip(c as nat / 16);
      HexRoundTrip(c as nat % 16);
      assert s[2..6] == "00" + [HexDigit(c as nat / 16), HexDigit(c as nat % 16)];
      assert HexChar(s[2..6]) == Some(c);
      assert s[6..] == tail;
    } else {
      assert s[|EscapeChar(c)|..] == tail;
    }
  }

  lemma HexRoundTrip(n: nat)
    requires n < 16
    ensures HexValue(HexDigit(n)) == Some(n)
  {
  }

  lemma {:induction false} CharsRoundTrip(s: string, tail: string)
    ensures ParseChars(EscapeAll(s) + "\"" + tail) == Parsed(s, tail)
  {
    if s == "" {
      assert EscapeAll(s) + "\"" + tail == "\"" + tail;
      assert ("\"" + tail)[1..] == tail;
    } else {
      var more := EscapeAll(s[1..]) + "\"" + tail;
      assert EscapeAll(s) + "\"" + tail == EscapeChar(s[0]) + more;
      EscapedCharParses(s[0], more);
      CharsRoundTrip(s[1..], tail);
      assert s == [s[0]] + s[1..];
    }
  }

  lemma QuoteRoundTrip(s: string, tail: string)
    ensures ParseChars((Quote(s) + tail)[1..]) == Parsed(s, tail)
  {
    assert (Quote(s) + tail)[1..] == EscapeAll(s) + "\"" + tail;
    CharsRoundTrip(s, tail);
  }

  /** What may follow a value without being taken for a part of it. */
  predicate Follows(v: Json, tail: string) {
    v.Number? && tail != "" ==> !NumberChar(tail[0])
  }

  lemma {:induction false} RunOfNumber(text: string, tail: string)
    requires forall i | 0 <= i < |text| :: NumberChar(text[i])
    requires tail != "" ==> !NumberChar(tail[0])
    ensures NumberRun(text + tail) == |text|
  {
    if text != "" {
      assert (text + tail)[1..] == text[1..] + tail;
      RunOfNumber(text[1..], tail);
    } else {
      assert text + tail == tail;
    }
  }

  lemma FirstOfNumber(text: NumberText)
    ensures text != "" && (text[0] == '-' || IsDigit(text[0]))
  {
  }

  lemma ParseNumberBack(text: NumberText, tail: string)
    requires tail != "" ==> !NumberChar(tail[0])
    ensures ParseNumber(text + tail) == Parsed(Number(text), tail)
  {
    var s := text + tail;
    assert forall i | 0 <= i < |text| :: NumberChar(text[i]);
    RunOfNumber(text, tail);
    assert s[..|text|] == text && s[|text|..] == tail;
  }

  lemma ScalarDispatch(s: string)
    requires s != "" && s[0] != '{' && s[0] != '[' && !IsSpace(s[0])
    ensures ParseValue(s) == ParseScalar(s)
  {
    SkipNothing(s);
  }

  lemma NumberRoundTrip(text: NumberText, tail: string)
    requires tail != "" ==> !NumberChar(tail[0])
    ensures ParseValue(text + tail) == Parsed(Number(text), tail)
  {
    FirstOfNumber(text);
    ScalarDispatch(text + tail);
    ParseNumberBack(text, tail);
  }

  lemma WordRoundTrip(v: Json, tail: string)
    requires v.Null? || v.Bool?
    ensures ParseValue(Print(v) + tail) == Parsed(v, tail)
  {
    var s := Print(v) + tail;
    ScalarDispatch(s);
    assert Print(v) <= s && s[|Print(v)|..] == tail;
  }

  lemma StringRoundTrip(cs: string, tail: string)
    ensures ParseValue(Quote(cs) + tail) == Parsed(Str(cs), tail)
  {
    ScalarDispatch(Quote(cs) + tail);
    QuoteRoundTrip(cs, tail);
  }

  lemma ArrayDispatch(u: string, items: Items, tail: string)
    requires u != "" && !IsSpace(u[0]) && u[0] != ']' && ParseItems(u) == Parsed(items, tail)
    ensures ParseValue("[" + u) == Parsed(Array(items), tail)
  {
    SkipNothing("[" + u);
    assert ("[" + u)[1..] == u;
    SkipNothing(u);
  }

  lemma ObjectDispatch(u: string, ms: Members, tail: string)
    requires u != "" && !IsSpace(u[0]) && u[0] != '}' && ParseMembers(u) == Parsed(ms, tail)
    ensures ParseValue("{" + u) == Parsed(Object(ms), tail)
  {
    SkipNothing("{" + u);
    assert ("{" + u)[1..] == u;
    SkipNothing(u);
  }

  lemma EmptyRoundTrip(tail: string)
    ensures ParseValue(Print(Array(NoItems)) + tail) == Parsed(Array(NoItems), tail)
    ensures ParseValue(Print(Object(NoMembers)) + tail) == Parsed(Object(NoMembers), tail)
  {
    assert Print(Array(NoItems)) == "[]" && Print(Object(NoMembers)) == "{}";
    SkipNothing("[]" + tail);
    SkipNothing("{}" + tail);
    assert ("[]" + tail)[1..] == "]" + tail && ("{}" + tail)[1..] == "}" + tail;
    SkipNothing("]" + tail);
    SkipNothing("}" + tail);
    assert ("]" + tail)[1..] == tail && ("}" + tail)[1..] == tail;
  }

  lemma Surround(a: string, m: string, b: string, tail: string)
    ensures (a + m + b) + tail == a + (m + b + tail)
  {
  }

  /** Reading back the text of a value yields the value and exactly the text after it. */
  lemma {:induction false} RoundTrip(v: Json, tail: string)
    requires Proper(v) && Follows(v, tail)
    ensures ParseValue(Print(v) + tail) == Parsed(v, tail)
    decreases v
  {
    match v
    case Null => WordRoundTrip(v, tail);
    case Bool(_) => WordRoundTrip(v, tail);
    case Number(text) => NumberRoundTrip(text, tail);
    case Str(cs) => StringRoundTrip(cs, tail);
    case Array(items) =>
      if items == NoItems {
        EmptyRoundTrip(tail);
      } else {
        ItemsRoundTrip(items, tail);
        FirstOfValue(items.head);
        ArrayDispatch(PrintItems(items) + "]" + tail, items, tail);
        Surround("[", PrintItems(items), "]", tail);
      }
    case Object(ms) =>
      if ms == NoMembers {
        EmptyRoundTrip(tail);
      } else {
        MembersRoundTrip(ms, tail);
        ObjectDispatch(PrintMembers(ms) + "}" + tail, ms, tail);
        Surround("{", PrintMembers(ms), "}", tail);
      }
  }

  lemma FirstOfValue(v: Json)
    ensures !IsSpace(Print(v)[0]) && Print(v)[0] != ']'
  {
  }

  /** The text after an element: the closing bracket, or a comma and the other elements. */
  function AfterItem(items: Items, tail: string): (r: string)
    ensures r != "" && r[1..] == if items == NoItems then tail else PrintItems(items) + "]" + tail
  {
    if items == NoItems then "]" + tail else "," + (PrintItems(items) + "]" + tail)
  }

  lemma ItemThenMore(items: Items, tail: string)
    requires items != NoItems
    ensures PrintItems(items) + "]" + tail == Print(items.head) + AfterItem(items.tail, tail)
  {
  }

  function AfterMember(ms: Members, tail: string): (r: string)
    ensures r != "" && r[1..] == if ms == NoMembers then tail else PrintMembers(ms) + "}" + tail
  {
    if ms == NoMembers then "}" + tail else "," + (PrintMembers(ms) + "}" + tail)
  }

  lemma Regroup(q: string, p: string, m: string, tail: string)
    ensures (q + p + ("," + m)) + "}" + tail == q + (p + ("," + (m + "}" + tail)))
  {
  }

  lemma RegroupLast(q: string, p: string, tail: string)
    ensures (q + p + "") + "}" + tail == q + (p + ("}" + tail))
  {
  }

  lemma MemberThenMore(ms: Members, tail: string)
    requires ms != NoMembers
    ensures PrintMembers(ms) + "}" + tail == Quote(ms.key) + ":" + (Print(ms.value) + AfterMember(ms.rest, tail))
  {
    if ms.rest == NoMembers {
      RegroupLast(Quote(ms.key) + ":", Print(ms.value), tail);
    } else {
      Regroup(Quote(ms.key) + ":", Print(ms.value), PrintMembers(ms.rest), tail);
    }
  }

  lemma {:induction false} ItemsRoundTrip(items: Items, tail: string)
    requires items != NoItems && ProperItems(items)
    ensures ParseItems(PrintItems(items) + "]" + tail) == Parsed(items, tail)
    decreases items
  {
    var more := AfterItem(items.tail, tail);
    ItemThenMore(items, tail);
    RoundTrip(items.head, more);
    SkipNothing(more);
    if items.tail != NoItems {
      ItemsRoundTrip(items.tail, tail);
    }
  }

  lemma KeyRoundTrip(key: string, tail: string)
    ensures ParseKey(Quote(key) + ":" + tail) == Parsed(key, tail)
  {
    var s := Quote(key) + ":" + tail;
    assert s == Quote(key) + (":" + tail);
    SkipNothing(s);
    QuoteRoundTrip(key, ":" + tail);
    SkipNothing(":" + tail);
    assert (":" + tail)[1..] == tail;
  }

  /** How a list of members is parsed once its first key and value are. */
  lemma ParseMembersAfter(s: string, key: string, rest: string, v: Json, t: string)
    requires ParseKey(s) == Parsed(key, rest) && ParseValue(rest) == Parsed(v, t) && t != "" && SkipSpace(t) == t
    ensures t[0] == '}' ==> ParseMembers(s) == Parsed(Entry(key, v, NoMembers), t[1..])
    ensures t[0] == ',' && ParseMembers(t[1..]).Parsed? ==>
              ParseMembers(s) == Parsed(Prepend(key, v, ParseMembers(t[1..]).value), ParseMembers(t[1..]).rest)
  {
  }

  lemma {:induction false} MembersRoundTrip(ms: Members, tail: string)
    requires ms != NoMembers && ProperMembers(ms)
    ensures ParseMembers(PrintMembers(ms) + "}" + tail) == Parsed(ms, tail)
    decreases ms
  {
    var more := AfterMember(ms.rest, tail);
    MemberThenMore(ms, tail);
    KeyRoundTrip(ms.key, Print(ms.value) + more);
    RoundTrip(ms.value, more);
    SkipNothing(more);
    ParseMembersAfter(PrintMembers(ms) + "}" + tail, ms.key, Print(ms.value) + more, ms.value, more);
    if ms.rest != NoMembers {
      MembersRoundTrip(ms.rest, tail);
      AbsentKey(ms.rest, ms.key);
    }
  }

  lemma {:induction false} AbsentKey(ms: Members, key: string)
    ensures key in Keys(ms) <==> Lookup(ms, key).Some?
  {
    if ms.Entry? {
      AbsentKey(ms.rest, key);
    }
  }

  /** `JSON.parse(JSON.stringify(v))` is `v`. */
  lemma ParsePrinted(v: Json)
    requires Proper(v)
    ensures ParseText(Print(v)) == Some(v)
  {
    assert Print(v) + "" == Print(v);
    RoundTrip(v, "");
  }

  /** Equal texts come from equal values. */
  lemma PrintInjective(v: Json, w: Json)
    requires Proper(v) && Proper(w) && Print(v) == Print(w)
    ensures v == w
  {
    ParsePrinted(v);
    ParsePrinted(w);
  }
}
