/**
 What reading, repairing and extending the event log does to any text, well formed or not
 (packages/web-buddy/src/agents/task-graph-store.ts:246-299).
 */
module LogText {
  import opened Wrappers
  import opened Contracts
  import opened Json
  import opened Texts
  import opened EventLines
  import opened Decimal

  // ---------------------------------------------------------------- reading

  /** The lines joined by newlines. */
  function Joined(lines: seq<string>): string
    requires lines != []
  {
    if |lines| == 1 then lines[0] else lines[0] + "\n" + Joined(lines[1..])
  }

  /** `text.split('\n')`. */
  ghost predicate SplitInto(text: string, lines: seq<string>) {
    && lines != [] && Joined(lines) == text
    && forall i | 0 <= i < |lines| :: '\n' !in lines[i]
  }

  predicate Blank(line: string) {
    forall i | 0 <= i < |line| :: TrimSpace(line[i])
  }

  /** The document on the line, if it can be read. */
  function DocumentOn(line: string): Option<Json> {
    ParseText(Trim(line))
  }

  /** The lines at the given places are those with a document on them. */
  ghost predicate ReadAt(lines: seq<string>, docs: seq<Json>, places: seq<nat>) {
    && |places| == |docs| && (forall j, k | 0 <= j < k < |places| :: places[j] < places[k])
    && (forall k | 0 <= k < |places| ::
          && places[k] < |lines| && !Blank(lines[places[k]])
          && DocumentOn(lines[places[k]]) == Some(docs[k]))
    && (forall i | 0 <= i < |lines| && !Blank(lines[i]) && DocumentOn(lines[i]).Some? :: i in places)
  }

  /** A line that ends in a newline is neither blank nor readable. */
  ghost predicate Damaged(lines: seq<string>) {
    exists i :: 0 <= i < |lines| - 1 && !Blank(lines[i]) && DocumentOn(lines[i]).None?
  }

  lemma {:induction false} TrimStartOfBlank(s: string)
    ensures TrimStart(s) == "" <==> Blank(s)
    ensures TrimStart(s) != "" ==> !TrimSpace(TrimStart(s)[0])
  {
    if s != "" && TrimSpace(s[0]) {
      TrimStartOfBlank(s[1..]);
      assert forall i | 0 < i < |s| :: s[i] == s[1..][i - 1];
    }
  }

  lemma TrimOfBlank(s: string)
    ensures Trim(s) == "" <==> Blank(s)
  {
    TrimStartOfBlank(s);
    if TrimStart(s) != "" { TrimEndKeepsFirst(TrimStart(s)); }
  }

  lemma FirstOfLines(text: string, lines: seq<string>)
    requires SplitInto(text, lines)
    ensures text[..FirstLine(text)] == lines[0]
    ensures FirstLine(text) == |text| <==> |lines| == 1
    ensures |lines| > 1 ==> FirstLine(text) < |text| && SplitInto(text[FirstLine(text) + 1..], lines[1..])
  {
    if |lines| == 1 {
      FirstLineOf(lines[0], "");
      assert text[..|text|] == text;
    } else {
      FirstLineOf(lines[0], Joined(lines[1..]));
      assert text[|lines[0]| + 1..] == Joined(lines[1..]);
      assert forall i | 0 <= i < |lines[1..]| :: lines[1..][i] == lines[i + 1];
    }
  }

  function Shifted(places: seq<nat>): (r: seq<nat>)
    ensures |r| == |places| && forall k | 0 <= k < |places| :: r[k] == places[k] + 1
  {
    seq(|places|, k requires 0 <= k < |places| => places[k] + 1)
  }

  /** The places of the documents behind the first line. */
  ghost predicate ReadBehind(lines: seq<string>, docs: seq<Json>, places: seq<nat>) {
    && |places| == |docs| && (forall j, k | 0 <= j < k < |places| :: places[j] < places[k])
    && (forall k | 0 <= k < |places| ::
          0 < places[k] < |lines| && !Blank(lines[places[k]]) && DocumentOn(lines[places[k]]) == Some(docs[k]))
    && (forall i | 0 < i < |lines| && !Blank(lines[i]) && DocumentOn(lines[i]).Some? :: i in places)
  }

  lemma PlaceBehind(lines: seq<string>, place: nat)
    requires place + 1 < |lines|
    ensures lines[1..][place] == lines[place + 1]
  {
  }

  lemma PlacesBehind(lines: seq<string>, docs: seq<Json>, places: seq<nat>)
    requires lines != [] && ReadAt(lines[1..], docs, places)
    ensures ReadBehind(lines, docs, Shifted(places))
  {
    var shifted := Shifted(places);
    forall k | 0 <= k < |shifted|
      ensures 0 < shifted[k] < |lines| && !Blank(lines[shifted[k]]) && DocumentOn(lines[shifted[k]]) == Some(docs[k])
    {
      PlaceBehind(lines, places[k]);
    }
    forall i | 0 < i < |lines| && !Blank(lines[i]) && DocumentOn(lines[i]).Some?
      ensures i in shifted
    {
      PlaceBehind(lines, i - 1);
      var k :| 0 <= k < |places| && places[k] == i - 1;
      assert shifted[k] == i;
    }
  }

  lemma DamageBehind(lines: seq<string>)
    requires |lines| > 1
    ensures Damaged(lines) <==> Damaged(lines[1..]) || (!Blank(lines[0]) && DocumentOn(lines[0]).None?)
  {
    assert forall i | 0 <= i < |lines[1..]| :: lines[1..][i] == lines[i + 1];
    if Damaged(lines) {
      var i :| 0 <= i < |lines| - 1 && !Blank(lines[i]) && DocumentOn(lines[i]).None?;
      if i > 0 { assert lines[1..][i - 1] == lines[i]; }
    }
  }

  lemma FirstRead(lines: seq<string>, docs: seq<Json>, shifted: seq<nat>, v: Json)
    requires lines != [] && !Blank(lines[0]) && DocumentOn(lines[0]) == Some(v)
    requires ReadBehind(lines, docs, shifted)
    ensures ReadAt(lines, [v] + docs, [0] + shifted)
  {
    forall i | 0 <= i < |lines| && !Blank(lines[i]) && DocumentOn(lines[i]).Some?
      ensures i in [0] + shifted
    {
      if i > 0 { assert i in shifted; }
    }
  }

  /**
   The documents of all lines that have one, in order. Reading throws exactly when a line that ends
   in a newline cannot be read; a last line without one is passed over.
   */
  lemma {:induction false} ReadsEveryLine(text: string, lines: seq<string>) returns (places: seq<nat>)
    requires SplitInto(text, lines)
    ensures ReadLog(text).None? <==> Damaged(lines)
    ensures ReadLog(text).Some? ==> ReadAt(lines, ReadLog(text).value, places)
    decreases |lines|
  {
    places := [];
    FirstOfLines(text, lines);
    TrimOfBlank(lines[0]);
    if |lines| == 1 {
      places := if ReadLog(text).value == [] then [] else [0];
    } else {
      var rest := text[FirstLine(text) + 1..];
      var behind := ReadsEveryLine(rest, lines[1..]);
      DamageBehind(lines);
      if ReadLog(rest).Some? {
        PlacesBehind(lines, ReadLog(rest).value, behind);
        places := Shifted(behind);
        if !Blank(lines[0]) && DocumentOn(lines[0]).Some? {
          FirstRead(lines, ReadLog(rest).value, places, DocumentOn(lines[0]).value);
          places := [0] + places;
        }
      }
    }
  }

  // ---------------------------------------------------------------- repairing

  /**
   The repair leaves whole lines alone. Of an unfinished last line it leaves blanks alone, ends a
   document with a newline, and drops everything else.
   */
  lemma RepairExactly(front: string, last: string)
    requires WholeLines(front) && '\n' !in last
    ensures RepairTail(front + last) ==
              if last == "" || Blank(last) then front + last
              else if DocumentOn(last).Some? then front + last + "\n"
              else front
  {
    if last == "" {
      assert front + last == front;
      RepairKeepsLines(front);
    } else {
      var text := front + last;
      LastLineOf(front, last);
      TrimOfBlank(last);
      assert text[|front|..] == last && text[..|front|] == front && text[|text| - 1] == last[|last| - 1];
    }
  }

  // ---------------------------------------------------------------- extending

  ghost predicate SameField(a: Json, b: Json, key: string) {
    Field(a, key) == Field(b, key)
  }

  lemma {:induction false} FoundIsFirst(events: seq<Json>, key: string, v: Option<Json>)
    ensures FindField(events, key, v).Some? ==>
              exists k :: 0 <= k < |events| && events[k] == FindField(events, key, v).value
                && forall j | 0 <= j < k :: Field(events[j], key) != v
  {
    if events != [] && Field(events[0], key) != v {
      var rest := events[1..];
      FoundIsFirst(rest, key, v);
      if FindField(rest, key, v).Some? {
        var k :| 0 <= k < |rest| && rest[k] == FindField(rest, key, v).value
          && forall j | 0 <= j < k :: Field(rest[j], key) != v;
        assert events[k + 1] == rest[k];
        assert forall j | 0 < j < k + 1 :: events[j] == rest[j - 1];
      }
    }
  }

  /**
   A document is appended exactly when no document has its identifier or its number. The first
   document with its identifier, if there is one, has to be the same to the letter.
   */
  lemma PlanTells(docs: seq<Json>, doc: Json)
    ensures PlanAmong(docs, doc) == AppendLine
       <==> forall d | d in docs :: !SameField(d, doc, "eventId") && !SameField(d, doc, "eventSeq")
    ensures PlanAmong(docs, doc) == AlreadyThere
       <==> exists k :: && 0 <= k < |docs| && SameField(docs[k], doc, "eventId") && Print(docs[k]) == Print(doc)
                        && forall j | 0 <= j < k :: !SameField(docs[j], doc, "eventId")
    ensures PlanAmong(docs, doc) in {AppendLine, AlreadyThere, Refuse(EventSequenceConflict)}
  {
    FoundIsFirst(docs, "eventId", Field(doc, "eventId"));
  }

  // ---------------------------------------------------------------- the document of an event

  lemma {:induction false} LookupBehind(k: string, v: Json, rest: Members, key: string)
    ensures Lookup(Entry(k, v, rest), key) == if k == key then Some(v) else Lookup(rest, key)
  {
  }

  lemma TailIsDocumented(e: Event)
    ensures Lookup(TailMembers(e), "sessionId") == Some(NatNumber(e.sessionId))
    ensures Lookup(TailMembers(e), "graphId") == Some(NatNumber(e.graphId))
    ensures Lookup(TailMembers(e), "occurredAt") == Some(NatNumber(e.occurredAt))
    ensures Lookup(TailMembers(e), "revisionBefore") == Some(NatNumber(e.revisionBefore))
    ensures Lookup(TailMembers(e), "revisionAfter") == Some(NatNumber(e.revisionAfter))
  {
    TailKeysDiffer();
    var tail := TailMembers(e);
    assert |"revisionAfter"| == 13 && |"revisionBefore"| == 14;
    LookupBehind("graphId", tail.rest.value, tail.rest.rest, "occurredAt");
    LookupBehind("graphId", tail.rest.value, tail.rest.rest, "revisionBefore");
    LookupBehind("graphId", tail.rest.value, tail.rest.rest, "revisionAfter");
    var revisions := RevisionMembers(e);
    LookupBehind("revisionBefore", revisions.value, revisions.rest, "revisionAfter");
    LookupBehind("occurredAt", NatNumber(e.occurredAt), revisions, "revisionAfter");
  }

  /** The line of an event tells its number, session, graph, time and revisions, and its payload. */
  lemma EventIsDocumented(c: PayloadCodec, e: Event)
    ensures
      var doc := EventJson(c, e);
      && Field(doc, "eventId") == Some(Str("event_" + NatText(e.eventId)))
      && Field(doc, "eventSeq") == Some(NatNumber(e.eventSeq)) && Field(doc, "payload") == Some(c(e.body))
      && Field(doc, "sessionId") == Some(NatNumber(e.sessionId)) && Field(doc, "graphId") == Some(NatNumber(e.graphId))
      && Field(doc, "occurredAt") == Some(NatNumber(e.occurredAt))
      && Field(doc, "revisionBefore") == Some(NatNumber(e.revisionBefore))
      && Field(doc, "revisionAfter") == Some(NatNumber(e.revisionAfter))
  {
    EventFields(c, e);
    HeadKeysDiffer();
    TailIsDocumented(e);
    HeadPasses(c, e, "payload");
    HeadPasses(c, e, "sessionId");
    HeadPasses(c, e, "graphId");
    HeadPasses(c, e, "occurredAt");
    HeadPasses(c, e, "revisionBefore");
    HeadPasses(c, e, "revisionAfter");
  }

  lemma HeadPasses(c: PayloadCodec, e: Event, key: string)
    requires key != "schemaVersion" && key != "eventId" && key != "eventSeq"
    ensures Field(EventJson(c, e), key) == if key == "payload" then Some(c(e.body)) else Lookup(TailMembers(e), key)
  {
    var ms := EventMembers(c, e);
    LookupBehind(ms.key, ms.value, ms.rest, key);
    LookupBehind(ms.rest.key, ms.rest.value, ms.rest.rest, key);
    LookupBehind(ms.rest.rest.key, ms.rest.rest.value, ms.rest.rest.rest, key);
    LookupBehind("payload", c(e.body), TailMembers(e), key);
  }
}
