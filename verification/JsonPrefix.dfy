/**
 Torn JSON. What a parser accepts it still accepts, with the same value, when more text
 follows; therefore no strict prefix of a printed object is valid JSON. The tail repair of
 the event log depends on this (packages/web-buddy/src/agents/task-graph-store.ts:264-280).
 */
module JsonPrefix {
  import opened Json

  // ---------------------------------------------------------------- more text after a success

  /** The parse goes on to the same value when `t` is appended to the input. */
  predicate Extends<T(==)>(before: Parse<T>, after: Parse<T>, t: string) {
    before.Parsed? ==> after == Parsed(before.value, before.rest + t)
  }

  lemma {:induction false} SkipMore(s: string, t: string)
    requires SkipSpace(s) != ""
    ensures SkipSpace(s + t) == SkipSpace(s) + t
  {
    if s != "" && IsSpace(s[0]) {
      assert (s + t)[1..] == s[1..] + t;
      SkipMore(s[1..], t);
    }
  }

  lemma DropMore(s: string, t: string, n: nat)
    requires n <= |s|
    ensures (s + t)[n..] == s[n..] + t
  {
  }

  lemma CharMore(s: string, t: string)
    requires s != ""
    ensures Extends(ParseChar(s), ParseChar(s + t), t)
  {
    DropMore(s, t, 1);
    if |s| >= 2 { DropMore(s, t, 2); }
    if |s| >= 6 {
      DropMore(s, t, 6);
      assert (s + t)[2..6] == s[2..6];
    }
  }

  lemma {:induction false} CharsMore(s: string, t: string)
    ensures Extends(ParseChars(s), ParseChars(s + t), t)
    decreases |s|
  {
    if s != "" {
      DropMore(s, t, 1);
      if s[0] != '"' && ParseChar(s).Parsed? {
        CharMore(s, t);
        CharsMore(ParseChar(s).rest, t);
      }
    }
  }

  lemma {:induction false} RunMore(s: string, t: string)
    requires NumberRun(s) < |s|
    ensures NumberRun(s + t) == NumberRun(s)
  {
    if NumberChar(s[0]) {
      assert (s + t)[1..] == s[1..] + t;
      RunMore(s[1..], t);
    }
  }

  /** A number at the very end of the input could still grow; anything else is complete. */
  predicate Complete(r: Parse<Json>) {
    r.Parsed? && (r.rest != "" || !r.value.Number?)
  }

  lemma NumberMore(s: string, t: string)
    requires Complete(ParseNumber(s))
    ensures Extends(ParseNumber(s), ParseNumber(s + t), t)
  {
    var n := NumberRun(s);
    assert n < |s|;
    RunMore(s, t);
    DropMore(s, t, n);
    assert (s + t)[..n] == s[..n];
  }

  lemma LiteralMore(s: string, t: string, word: string, v: Json)
    requires word != "" && Literal(s, word, v).Parsed?
    ensures Extends(Literal(s, word, v), Literal(s + t, word, v), t)
  {
    DropMore(s, t, |word|);
    assert word <= s + t;
  }

  lemma ScalarMore(s: string, t: string)
    requires s != "" && Complete(ParseScalar(s))
    ensures Extends(ParseScalar(s), ParseScalar(s + t), t)
  {
    DropMore(s, t, 1);
    if s[0] == '"' { CharsMore(s[1..], t); }
    else if s[0] == 't' { LiteralMore(s, t, "true", Bool(true)); }
    else if s[0] == 'f' { LiteralMore(s, t, "false", Bool(false)); }
    else if s[0] == 'n' { LiteralMore(s, t, "null", Null); }
    else { NumberMore(s, t); }
  }

  lemma {:induction false} ValueMore(s: string, t: string)
    requires Complete(ParseValue(s))
    ensures Extends(ParseValue(s), ParseValue(s + t), t)
    decreases |s|, 1
  {
    var u := SkipSpace(s);
    SkipMore(s, t);
    DropMore(u, t, 1);
    if u[0] == '{' {
      ObjectMore(u, t);
    } else if u[0] == '[' {
      ArrayMore(u, t);
    } else {
      ScalarMore(u, t);
    }
  }

  lemma {:induction false} ArrayMore(u: string, t: string)
    requires u != "" && u[0] == '[' && ParseValue(u).Parsed?
    ensures Extends(ParseValue(u), ParseValue(u + t), t)
    decreases |u|, 0
  {
    DropMore(u, t, 1);
    var w := SkipSpace(u[1..]);
    SkipMore(u[1..], t);
    DropMore(w, t, 1);
    if w[0] != ']' { ItemsMore(w, t); }
  }

  lemma {:induction false} ObjectMore(u: string, t: string)
    requires u != "" && u[0] == '{' && ParseValue(u).Parsed?
    ensures Extends(ParseValue(u), ParseValue(u + t), t)
    decreases |u|, 0
  {
    DropMore(u, t, 1);
    var w := SkipSpace(u[1..]);
    SkipMore(u[1..], t);
    DropMore(w, t, 1);
    if w[0] != '}' { MembersMore(w, t); }
  }

  lemma {:induction false} ItemsMore(s: string, t: string)
    requires ParseItems(s).Parsed?
    ensures Extends(ParseItems(s), ParseItems(s + t), t)
    decreases |s|, 2
  {
    ValueMore(s, t);
    var rest := ParseValue(s).rest;
    SkipMore(rest, t);
    var u := SkipSpace(rest);
    DropMore(u, t, 1);
    if u[0] == ',' { ItemsMore(u[1..], t); }
  }

  lemma KeyMore(s: string, t: string)
    requires ParseKey(s).Parsed?
    ensures Extends(ParseKey(s), ParseKey(s + t), t)
  {
    var u := SkipSpace(s);
    SkipMore(s, t);
    DropMore(u, t, 1);
    CharsMore(u[1..], t);
    var rest := ParseChars(u[1..]).rest;
    SkipMore(rest, t);
    DropMore(SkipSpace(rest), t, 1);
  }

  lemma {:induction false} MembersMore(s: string, t: string)
    requires ParseMembers(s).Parsed?
    ensures Extends(ParseMembers(s), ParseMembers(s + t), t)
    decreases |s|, 2
  {
    KeyMore(s, t);
    var rest := ParseKey(s).rest;
    ValueMore(rest, t);
    var after := ParseValue(rest).rest;
    SkipMore(after, t);
    var u := SkipSpace(after);
    DropMore(u, t, 1);
    if u[0] == ',' { MembersMore(u[1..], t); }
  }

  // ---------------------------------------------------------------- torn objects

  lemma ObjectText(ms: Members)
    ensures Print(Object(ms))[0] == '{'
  {
  }

  lemma OpenBraceParsesToObject(s: string)
    requires s != "" && s[0] == '{' && ParseValue(s).Parsed?
    ensures ParseValue(s).value.Object?
  {
    SkipNothing(s);
  }

  /** A torn line never decodes: no strict prefix of a printed object is valid JSON. */
  lemma NoPrefixParses(ms: Members, n: nat)
    requires ProperMembers(ms) && n < |Print(Object(ms))|
    ensures ParseText(Print(Object(ms))[..n]).None?
  {
    var text := Print(Object(ms));
    var p := text[..n];
    if ParseText(p).Some? && n > 0 {
      ObjectText(ms);
      OpenBraceParsesToObject(p);
      ValueMore(p, text[n..]);
      assert p + text[n..] == text;
      assert text + "" == text;
      RoundTrip(Object(ms), "");
    }
  }
}
