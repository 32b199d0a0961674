/**
 The text of the event log: one printed event per line, the repair of a torn last line, and
 the idempotent append (packages/web-buddy/src/agents/task-graph-store.ts:246-299).
 */
module EventLines {
  import opened Wrappers
  import opened Contracts
  import opened Json
  import opened JsonPrefix
  import opened Decimal
  import opened Texts

  /** How event payloads become JSON; the log only needs that they become JSON objects. */
  type PayloadCodec = EventBody -> Json

  ghost predicate ProperCodec(c: PayloadCodec) {
    forall b :: Proper(c(b))
  }

  // ---------------------------------------------------------------- one line

  function IdText(id: Id): string {
    "event_" + NatText(id)
  }

  function EventMembers(c: PayloadCodec, e: Event): Members {
    Entry("schemaVersion", Str("agent-task-event/v1"),
    Entry("eventId", Str(IdText(e.eventId)),
    Entry("eventSeq", NatNumber(e.eventSeq),
    Entry("payload", c(e.body), TailMembers(e)))))
  }

  function EventJson(c: PayloadCodec, e: Event): Json {
    Object(EventMembers(c, e))
  }

  function LineOf(c: PayloadCodec, e: Event): string {
    Print(EventJson(c, e)) + "\n"
  }

  function Concat(texts: seq<string>): string {
    if texts == [] then "" else Concat(texts[..|texts| - 1]) + texts[|texts| - 1]
  }

  function LineTexts(c: PayloadCodec, log: seq<Event>): (r: seq<string>)
    ensures |r| == |log| && forall i | 0 <= i < |log| :: r[i] == LineOf(c, log[i])
  {
    seq(|log|, i requires 0 <= i < |log| => LineOf(c, log[i]))
  }

  /** The text of a whole log. */
  function Lines(c: PayloadCodec, log: seq<Event>): string {
    Concat(LineTexts(c, log))
  }

  function Documents(c: PayloadCodec, log: seq<Event>): (r: seq<Json>)
    ensures |r| == |log| && forall i | 0 <= i < |log| :: r[i] == EventJson(c, log[i])
  {
    seq(|log|, i requires 0 <= i < |log| => EventJson(c, log[i]))
  }

  function Field(v: Json, key: string): Option<Json> {
    if v.Object? then Lookup(v.members, key) else None
  }

  // ---------------------------------------------------------------- reading

  /** Length of the first line of the text, without its newline. */
  function FirstLine(text: string): (n: nat)
    ensures n <= |text| && (forall i | 0 <= i < n :: text[i] != '\n') && (n < |text| ==> text[n] == '\n')
  {
    if text == "" || text[0] == '\n' then 0 else 1 + FirstLine(text[1..])
  }

  /** `readEventLog`: None when it throws. Only an unterminated last line may be unreadable. */
  function ReadLog(text: string): Option<seq<Json>>
    decreases |text|
  {
    var n := FirstLine(text);
    var line := Trim(text[..n]);
    if n == |text| then
      match if line == "" then None else ParseText(line)
      case None => Some([])
      case Some(v) => Some([v])
    else
      match ReadLog(text[n + 1..])
      case None => None
      case Some(events) =>
        if line == "" then Some(events)
        else
          match ParseText(line)
          case None => None
          case Some(v) => Some([v] + events)
  }

  /** Position after the last newline, 0 if there is none. */
  function LastLineStart(text: string): (n: nat)
    ensures n <= |text| && (forall i | n <= i < |text| :: text[i] != '\n') && (n > 0 ==> text[n - 1] == '\n')
  {
    if text == "" || text[|text| - 1] == '\n' then |text| else LastLineStart(text[..|text| - 1])
  }

  type Parser = string -> Option<Json>

  /** `truncateInvalidJsonlTail`, for any parser of a document. */
  function RepairWith(parse: Parser, text: string): string {
    if text == "" || text[|text| - 1] == '\n' then text
    else
      var start := LastLineStart(text);
      var tail := Trim(text[start..]);
      if tail == "" then text
      else if parse(tail).Some? then text + "\n"
      else text[..start]
  }

  function RepairTail(text: string): string {
    RepairWith(ParseText, text)
  }

  function FindField(events: seq<Json>, key: string, v: Option<Json>): (r: Option<Json>)
    ensures r.Some? ==> r.value in events && Field(r.value, key) == v
    ensures r.None? ==> forall e | e in events :: Field(e, key) != v
  {
    if events == [] then None
    else if Field(events[0], key) == v then Some(events[0])
    else FindField(events[1..], key, v)
  }

  /** What `appendEventIdempotently` does after the repair: nothing, append the line, or throw. */
  datatype AppendPlan = AlreadyThere | AppendLine | Refuse(code: ErrorCode)

  function PlanAmong(events: seq<Json>, doc: Json): AppendPlan {
    match FindField(events, "eventId", Field(doc, "eventId"))
    case Some(same) => if Print(same) != Print(doc) then Refuse(EventSequenceConflict) else AlreadyThere
    case None =>
      if FindField(events, "eventSeq", Field(doc, "eventSeq")).Some? then Refuse(EventSequenceConflict) else AppendLine
  }

  function PlanAppend(c: PayloadCodec, text: string, e: Event): AppendPlan {
    match ReadLog(text)
    case None => Refuse(EventSequenceConflict)
    case Some(events) => PlanAmong(events, EventJson(c, e))
  }

  // ---------------------------------------------------------------- event documents

  lemma EventKeysDiffer()
    ensures "schemaVersion" != "eventId" && "schemaVersion" != "eventSeq" && "eventId" != "eventSeq"
  {
    assert |"schemaVersion"| == 13 && |"eventId"| == 7 && |"eventSeq"| == 8;
  }

  lemma EventFields(c: PayloadCodec, e: Event)
    ensures Field(EventJson(c, e), "eventId") == Some(Str(IdText(e.eventId)))
    ensures Field(EventJson(c, e), "eventSeq") == Some(NatNumber(e.eventSeq))
  {
    EventKeysDiffer();
    var ms := EventMembers(c, e);
    assert Lookup(ms, "eventId") == Lookup(ms.rest, "eventId");
    assert Lookup(ms, "eventSeq") == Lookup(ms.rest, "eventSeq") == Lookup(ms.rest.rest, "eventSeq");
  }

  lemma FieldsIdentify(c: PayloadCodec, a: Event, b: Event)
    ensures Field(EventJson(c, a), "eventId") == Field(EventJson(c, b), "eventId") <==> a.eventId == b.eventId
    ensures Field(EventJson(c, a), "eventSeq") == Field(EventJson(c, b), "eventSeq") <==> a.eventSeq == b.eventSeq
  {
    EventFields(c, a);
    EventFields(c, b);
    if IdText(a.eventId) == IdText(b.eventId) {
      assert IdText(a.eventId)[6..] == NatText(a.eventId) && IdText(b.eventId)[6..] == NatText(b.eventId);
      NatTextInjective(a.eventId, b.eventId);
    }
    if NatText(a.eventSeq) == NatText(b.eventSeq) {
      NatTextInjective(a.eventSeq, b.eventSeq);
    }
  }

  lemma ProperEntry(k: string, v: Json, rest: Members)
    requires k !in Keys(rest) && Proper(v) && ProperMembers(rest)
    ensures ProperMembers(Entry(k, v, rest)) && Keys(Entry(k, v, rest)) == {k} + Keys(rest)
  {
  }

  function RevisionMembers(e: Event): Members {
    Entry("revisionBefore", NatNumber(e.revisionBefore), Entry("revisionAfter", NatNumber(e.revisionAfter), NoMembers))
  }

  function TailMembers(e: Event): Members {
    Entry("sessionId", NatNumber(e.sessionId),
    Entry("graphId", NatNumber(e.graphId),
    Entry("occurredAt", NatNumber(e.occurredAt), RevisionMembers(e))))
  }

  lemma RevisionsAreProper(e: Event)
    ensures ProperMembers(RevisionMembers(e)) && Keys(RevisionMembers(e)) == {"revisionBefore", "revisionAfter"}
  {
    assert |"revisionAfter"| == 13 && |"revisionBefore"| == 14;
    ProperEntry("revisionAfter", NatNumber(e.revisionAfter), NoMembers);
    ProperEntry("revisionBefore", NatNumber(e.revisionBefore), RevisionMembers(e).rest);
  }

  lemma TailKeysDiffer()
    ensures "occurredAt" !in {"revisionBefore", "revisionAfter"}
    ensures "graphId" !in {"occurredAt", "revisionBefore", "revisionAfter"}
    ensures "sessionId" !in {"graphId", "occurredAt", "revisionBefore", "revisionAfter"}
  {
    assert |"revisionAfter"| == 13 && |"revisionBefore"| == 14 && |"occurredAt"| == 10 && |"graphId"| == 7
      && |"sessionId"| == 9;
  }

  lemma TailIsProper(e: Event)
    ensures ProperMembers(TailMembers(e))
    ensures Keys(TailMembers(e)) == {"sessionId", "graphId", "occurredAt", "revisionBefore", "revisionAfter"}
  {
    RevisionsAreProper(e);
    TailOver(e, RevisionMembers(e));
  }

  lemma TailOver(e: Event, ms: Members)
    requires ProperMembers(ms) && Keys(ms) == {"revisionBefore", "revisionAfter"}
    ensures
      var tail := Entry("sessionId", NatNumber(e.sessionId),
                        Entry("graphId", NatNumber(e.graphId), Entry("occurredAt", NatNumber(e.occurredAt), ms)));
      ProperMembers(tail) && Keys(tail) == {"sessionId", "graphId", "occurredAt", "revisionBefore", "revisionAfter"}
  {
    TailKeysDiffer();
    var m7 := Entry("occurredAt", NatNumber(e.occurredAt), ms);
    ProperEntry("occurredAt", NatNumber(e.occurredAt), ms);
    var m6 := Entry("graphId", NatNumber(e.graphId), m7);
    ProperEntry("graphId", NatNumber(e.graphId), m7);
    ProperEntry("sessionId", NatNumber(e.sessionId), m6);
  }

  lemma EventIsProper(c: PayloadCodec, e: Event)
    requires ProperCodec(c)
    ensures ProperMembers(EventMembers(c, e)) && Proper(EventJson(c, e))
  {
    TailIsProper(e);
    HeadIsProper(c, e, TailMembers(e));
  }

  lemma HeadKeysDiffer()
    ensures "payload" !in {"sessionId", "graphId", "occurredAt", "revisionBefore", "revisionAfter"}
    ensures "eventSeq" !in {"payload", "sessionId", "graphId", "occurredAt", "revisionBefore", "revisionAfter"}
    ensures "eventId" !in {"eventSeq", "payload", "sessionId", "graphId", "occurredAt", "revisionBefore",
                           "revisionAfter"}
    ensures "schemaVersion" !in {"eventId", "eventSeq", "payload", "sessionId", "graphId", "occurredAt",
                                 "revisionBefore", "revisionAfter"}
  {
    assert |"revisionAfter"| == 13 && |"revisionBefore"| == 14 && |"occurredAt"| == 10 && |"graphId"| == 7
      && |"sessionId"| == 9;
    assert |"payload"| == 7 && |"eventSeq"| == 8 && |"eventId"| == 7 && |"schemaVersion"| == 13;
    assert "graphId"[0] == 'g' && "payload"[0] == 'p' && "eventId"[0] == 'e' && "schemaVersion"[0] == 's'
      && "revisionAfter"[0] == 'r';
  }

  lemma FourInFront(k: string, v: Json, l: string, w: Json, m: string, x: Json, n: string, y: Json, tail: Members)
    requires ProperMembers(tail) && Proper(v) && Proper(w) && Proper(x) && Proper(y)
    requires n !in Keys(tail) && m !in {n} + Keys(tail) && l !in {m, n} + Keys(tail) && k !in {l, m, n} + Keys(tail)
    ensures ProperMembers(Entry(k, v, Entry(l, w, Entry(m, x, Entry(n, y, tail)))))
  {
    ProperEntry(n, y, tail);
    ProperEntry(m, x, Entry(n, y, tail));
    ProperEntry(l, w, Entry(m, x, Entry(n, y, tail)));
    ProperEntry(k, v, Entry(l, w, Entry(m, x, Entry(n, y, tail))));
  }

  lemma HeadIsProper(c: PayloadCodec, e: Event, tail: Members)
    requires ProperCodec(c) && ProperMembers(tail)
    requires Keys(tail) == {"sessionId", "graphId", "occurredAt", "revisionBefore", "revisionAfter"}
    ensures ProperMembers(
      Entry("schemaVersion", Str("agent-task-event/v1"),
      Entry("eventId", Str(IdText(e.eventId)),
      Entry("eventSeq", NatNumber(e.eventSeq),
      Entry("payload", c(e.body), tail)))))
  {
    HeadKeysDiffer();
    FourInFront("schemaVersion", Str("agent-task-event/v1"), "eventId", Str(IdText(e.eventId)), "eventSeq",
                NatNumber(e.eventSeq),
                "payload", c(e.body), tail);
  }

  // ---------------------------------------------------------------- reading back what was written

  lemma {:induction false} FirstLineOf(s: string, rest: string)
    requires forall i | 0 <= i < |s| :: s[i] != '\n'
    ensures FirstLine(s + "\n" + rest) == |s|
    ensures FirstLine(s) == |s|
  {
    if s != "" {
      assert (s + "\n" + rest)[1..] == s[1..] + "\n" + rest;
      FirstLineOf(s[1..], rest);
    }
  }

  /** A printed object is not touched by `trim`. */
  lemma PrintedObjectIsTrim(ms: Members)
    ensures Trim(Print(Object(ms))) == Print(Object(ms))
  {
    ObjectEnds(ms);
    TrimKeeps(Print(Object(ms)));
  }

  lemma ObjectEnds(ms: Members)
    ensures Print(Object(ms))[0] == '{' && Print(Object(ms))[|Print(Object(ms))| - 1] == '}'
  {
  }

  lemma NoNewlineInside(v: Json)
    ensures forall i | 0 <= i < |Print(v)| :: Print(v)[i] != '\n'
  {
  }

  lemma ReadOneDocument(doc: string, v: Json, rest: string)
    requires doc != "" && Trim(doc) == doc && ParseText(doc) == Some(v) && forall i | 0 <= i < |doc| :: doc[i] != '\n'
    ensures ReadLog((doc + "\n") + rest) == if ReadLog(rest).None? then None else Some([v] + ReadLog(rest).value)
  {
    var text := (doc + "\n") + rest;
    assert text == doc + "\n" + rest;
    FirstLineOf(doc, rest);
    assert text[..|doc|] == doc && text[|doc| + 1..] == rest;
  }

  lemma ReadOneLine(c: PayloadCodec, e: Event, rest: string)
    requires ProperCodec(c)
    ensures ReadLog(LineOf(c, e) + rest)
         == if ReadLog(rest).None? then None else Some([EventJson(c, e)] + ReadLog(rest).value)
  {
    NoNewlineInside(EventJson(c, e));
    PrintedObjectIsTrim(EventMembers(c, e));
    EventIsProper(c, e);
    ParsePrinted(EventJson(c, e));
    ReadOneDocument(Print(EventJson(c, e)), EventJson(c, e), rest);
  }

  lemma {:induction false} ConcatSplit(texts: seq<string>)
    requires texts != []
    ensures Concat(texts) == texts[0] + Concat(texts[1..])
  {
    var n := |texts| - 1;
    if n > 0 {
      ConcatSplit(texts[..n]);
      assert texts[..n][1..] == texts[1..][..n - 1];
    } else {
      assert Concat(texts[..0]) == "" && Concat(texts[1..]) == "";
    }
  }

  lemma LinesSplit(c: PayloadCodec, log: seq<Event>)
    requires log != []
    ensures Lines(c, log) == LineOf(c, log[0]) + Lines(c, log[1..])
  {
    ConcatSplit(LineTexts(c, log));
    assert LineTexts(c, log)[1..] == LineTexts(c, log[1..]);
  }

  lemma DocumentsSplit(c: PayloadCodec, log: seq<Event>)
    requires log != []
    ensures Documents(c, log) == [EventJson(c, log[0])] + Documents(c, log[1..])
  {
  }

  /** Reading the log text gives back the documents of exactly the logged events, in order. */
  lemma {:induction false} LogReadsBack(c: PayloadCodec, log: seq<Event>)
    requires ProperCodec(c)
    ensures ReadLog(Lines(c, log)) == Some(Documents(c, log))
    decreases |log|
  {
    if log != [] {
      LinesSplit(c, log);
      LogReadsBack(c, log[1..]);
      ReadOneLine(c, log[0], Lines(c, log[1..]));
      DocumentsSplit(c, log);
    }
  }

  // ---------------------------------------------------------------- repairing a torn line

  lemma {:induction false} LastLineOf(front: string, p: string)
    requires WholeLines(front)
    requires forall i | 0 <= i < |p| :: p[i] != '\n'
    ensures LastLineStart(front + p) == |front|
  {
    if p == "" {
      assert front + p == front;
    } else {
      assert (front + p)[..|front + p| - 1] == front + p[..|p| - 1];
      LastLineOf(front, p[..|p| - 1]);
    }
  }

  predicate WholeLines(text: string) {
    text == "" || text[|text| - 1] == '\n'
  }

  lemma LinesAreWhole(c: PayloadCodec, log: seq<Event>)
    ensures WholeLines(Lines(c, log))
  {
    if log != [] {
      var n := |log| - 1;
      var last := LineOf(c, log[n]);
      assert LineTexts(c, log)[n] == last;
      assert last[|last| - 1] == '\n';
    }
  }

  /** A torn document is still unreadable after trimming. */
  lemma TornIsUnreadable(c: PayloadCodec, e: Event, n: nat)
    requires ProperCodec(c) && 0 < n < |Print(EventJson(c, e))|
    ensures
      var tail := Trim(Print(EventJson(c, e))[..n]);
      tail != "" && ParseText(tail).None?
  {
    EventIsProper(c, e);
    TornObjectIsUnreadable(EventMembers(c, e), n);
  }

  lemma TrimOfPrefix(doc: string, n: nat) returns (k: nat)
    requires 0 < n <= |doc| && !TrimSpace(doc[0])
    ensures 0 < k <= n && Trim(doc[..n]) == doc[..k]
  {
    var p := doc[..n];
    assert TrimStart(p) == p;
    TrimEndKeepsFirst(p);
    k := TrimEndIsPrefix(p);
    assert p[..k] == doc[..k];
  }

  lemma TornObjectIsUnreadable(ms: Members, n: nat)
    requires ProperMembers(ms) && 0 < n < |Print(Object(ms))|
    ensures
      var tail := Trim(Print(Object(ms))[..n]);
      tail != "" && ParseText(tail).None?
  {
    ObjectText(ms);
    var k := TrimOfPrefix(Print(Object(ms)), n);
    NoPrefixParses(ms, k);
  }

  /**
   The length of a torn line after the repair: a complete document gets its newline back, anything
   less is dropped.
   */
  function RepairedLength(doc: string, n: nat): (m: nat)
    ensures m == 0 || m == |doc| + 1
  {
    if n < |doc| then 0 else |doc| + 1
  }

  lemma RepairDropsTorn(parse: Parser, front: string, p: string)
    requires WholeLines(front) && p != "" && forall i | 0 <= i < |p| :: p[i] != '\n'
    requires TornPart(parse, p)
    ensures RepairWith(parse, front + p) == front + ""
  {
    assert front + "" == front;
    var text := front + p;
    LastLineOf(front, p);
    assert text[|front|..] == p && text[..|front|] == front;
    assert text[|text| - 1] == p[|p| - 1];
  }

  lemma RepairEndsLine(parse: Parser, front: string, doc: string)
    requires WholeLines(front) && Document(parse, doc) && forall i | 0 <= i < |doc| :: doc[i] != '\n'
    ensures RepairWith(parse, front + doc) == front + (doc + "\n")
  {
    var text := front + doc;
    LastLineOf(front, doc);
    assert text[|front|..] == doc;
    assert text[|text| - 1] == doc[|doc| - 1];
  }

  lemma RepairKeepsLines(front: string)
    requires WholeLines(front)
    ensures RepairTail(front) == front
  {
  }

  predicate Document(parse: Parser, doc: string) {
    doc != "" && Trim(doc) == doc && parse(doc).Some?
  }

  predicate TornPart(parse: Parser, p: string) {
    Trim(p) != "" && parse(Trim(p)).None?
  }

  lemma RepairWhole(parse: Parser, front: string, doc: string)
    requires WholeLines(front) && doc != ""
    ensures RepairWith(parse, front + (doc + "\n")[..|doc| + 1]) == front + (doc + "\n")
  {
    assert (doc + "\n")[..|doc| + 1] == doc + "\n";
  }

  lemma RepairNothing(parse: Parser, front: string, line: string)
    requires WholeLines(front)
    ensures RepairWith(parse, front + line[..0]) == front + ""
  {
    assert front + line[..0] == front && front + "" == front;
  }

  lemma LineStart(doc: string, n: nat)
    requires n <= |doc|
    ensures (doc + "\n")[..n] == doc[..n]
  {
  }

  lemma RepairAt(parse: Parser, front: string, doc: string, n: nat)
    requires WholeLines(front) && Document(parse, doc) && forall i | 0 <= i < |doc| :: doc[i] != '\n'
    requires n <= |doc| + 1 && (0 < n < |doc| ==> TornPart(parse, doc[..n]))
    ensures RepairWith(parse, front + (doc + "\n")[..n]) == front + if n < |doc| then "" else doc + "\n"
  {
    if n == |doc| + 1 {
      RepairWhole(parse, front, doc);
    } else if n == 0 {
      RepairNothing(parse, front, doc + "\n");
    } else {
      LineStart(doc, n);
      if n < |doc| {
        RepairDropsTorn(parse, front, doc[..n]);
      } else {
        assert doc[..n] == doc;
        RepairEndsLine(parse, front, doc);
      }
    }
  }

  lemma CutAt(front: string, doc: string, n: nat)
    requires n <= |doc| + 1
    ensures front + (doc + "\n")[..RepairedLength(doc, n)] == front + if n < |doc| then "" else doc + "\n"
  {
    assert (doc + "\n")[..|doc| + 1] == doc + "\n";
  }

  /** Repair cuts the log back to whole lines, whatever prefix of the last line reached the disk. */
  lemma RepairRestoresLines(c: PayloadCodec, front: string, e: Event, n: nat)
    requires ProperCodec(c) && WholeLines(front) && n <= |LineOf(c, e)|
    ensures RepairTail(front + LineOf(c, e)[..n])
         == front + LineOf(c, e)[..RepairedLength(Print(EventJson(c, e)), n)]
  {
    NoNewlineInside(EventJson(c, e));
    if 0 < n < |Print(EventJson(c, e))| { TornIsUnreadable(c, e, n); }
    PrintedObjectIsTrim(EventMembers(c, e));
    EventIsProper(c, e);
    ParsePrinted(EventJson(c, e));
    RepairAt(ParseText, front, Print(EventJson(c, e)), n);
    CutAt(front, Print(EventJson(c, e)), n);
  }

  // ---------------------------------------------------------------- the idempotent append

  lemma {:induction false} FindFieldSkips(events: seq<Json>, last: Json, key: string, v: Option<Json>)
    requires forall e | e in events :: Field(e, key) != v
    ensures FindField(events + [last], key, v) == if Field(last, key) == v then Some(last) else None
  {
    if events == [] {
      assert events + [last] == [last];
    } else {
      assert (events + [last])[1..] == events[1..] + [last];
      FindFieldSkips(events[1..], last, key, v);
    }
  }

  lemma FindNothing(events: seq<Json>, key: string, v: Option<Json>)
    requires forall e | e in events :: Field(e, key) != v
    ensures FindField(events, key, v).None?
  {
  }

  lemma OthersDiffer(c: PayloadCodec, log: seq<Event>, e: Event)
    requires forall i | 0 <= i < |log| :: log[i].eventId != e.eventId && log[i].eventSeq != e.eventSeq
    ensures forall d | d in Documents(c, log) ::
              Field(d, "eventId") != Field(EventJson(c, e), "eventId")
                && Field(d, "eventSeq") != Field(EventJson(c, e), "eventSeq")
  {
    forall d | d in Documents(c, log)
      ensures Field(d, "eventId") != Field(EventJson(c, e), "eventId")
      ensures Field(d, "eventSeq") != Field(EventJson(c, e), "eventSeq")
    {
      var i :| 0 <= i < |log| && Documents(c, log)[i] == d;
      FieldsIdentify(c, log[i], e);
    }
  }

  lemma PlanAmongOthers(docs: seq<Json>, doc: Json)
    requires forall d | d in docs ::
               Field(d, "eventId") != Field(doc, "eventId") && Field(d, "eventSeq") != Field(doc, "eventSeq")
    ensures PlanAmong(docs, doc) == AppendLine && PlanAmong(docs + [doc], doc) == AlreadyThere
  {
    FindFieldSkips(docs, doc, "eventId", Field(doc, "eventId"));
    FindNothing(docs, "eventId", Field(doc, "eventId"));
    FindNothing(docs, "eventSeq", Field(doc, "eventSeq"));
  }

  lemma DocumentsAppended(c: PayloadCodec, log: seq<Event>, e: Event)
    ensures Documents(c, log + [e]) == Documents(c, log) + [EventJson(c, e)]
  {
  }

  /** After the repair, a new event is appended and an event already logged is left alone; nothing is refused. */
  lemma PlanIsExact(c: PayloadCodec, log: seq<Event>, e: Event)
    requires ProperCodec(c)
    requires forall i | 0 <= i < |log| :: log[i].eventId != e.eventId && log[i].eventSeq != e.eventSeq
    ensures PlanAppend(c, Lines(c, log), e) == AppendLine
    ensures PlanAppend(c, Lines(c, log + [e]), e) == AlreadyThere
  {
    LogReadsBack(c, log);
    LogReadsBack(c, log + [e]);
    OthersDiffer(c, log, e);
    DocumentsAppended(c, log, e);
    PlanAmongOthers(Documents(c, log), EventJson(c, e));
  }

  lemma AppendedLine(c: PayloadCodec, log: seq<Event>, e: Event)
    ensures Lines(c, log + [e]) == Lines(c, log) + LineOf(c, e)
  {
    assert LineTexts(c, log + [e]) == LineTexts(c, log) + [LineOf(c, e)];
    ConcatOneMore(LineTexts(c, log), LineOf(c, e));
  }

  lemma ConcatOneMore(texts: seq<string>, last: string)
    ensures Concat(texts + [last]) == Concat(texts) + last
  {
    assert (texts + [last])[..|texts|] == texts;
  }

  lemma TornLineSplit(c: PayloadCodec, log: seq<Event>, e: Event)
    ensures Lines(c, log) + LineOf(c, e)[..0] == Lines(c, log)
    ensures Lines(c, log) + LineOf(c, e)[..|LineOf(c, e)|] == Lines(c, log + [e])
    ensures |LineOf(c, e)| == |Print(EventJson(c, e))| + 1
  {
    AppendedLine(c, log, e);
    assert LineOf(c, e)[..|LineOf(c, e)|] == LineOf(c, e);
  }

  /** After the repair the log text is that of the events before the torn line, or of all of them. */
  lemma RepairGivesWholeLog(c: PayloadCodec, log: seq<Event>, e: Event, n: nat)
    requires ProperCodec(c) && n <= |LineOf(c, e)|
    ensures RepairTail(Lines(c, log) + LineOf(c, e)[..n])
         == if RepairedLength(Print(EventJson(c, e)), n) == 0 then Lines(c, log) else Lines(c, log + [e])
  {
    LinesAreWhole(c, log);
    RepairRestoresLines(c, Lines(c, log), e, n);
    TornLineSplit(c, log, e);
  }

  /** One more character of the line reaches the disk. */
  lemma OneMoreChar(c: PayloadCodec, front: string, e: Event, n: nat)
    requires n < |LineOf(c, e)|
    ensures (front + LineOf(c, e)[..n]) + [LineOf(c, e)[n]] == front + LineOf(c, e)[..n + 1]
  {
    var line := LineOf(c, e);
    assert line[..n + 1] == line[..n] + [line[n]];
  }
}
