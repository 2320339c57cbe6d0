/** What the summary of a Responses stream, or of a whole response, says about it (`src/usage/openai_responses.rs:101-222`). */
module ResponsesLaws {
  import opened Wrappers
  import opened Json
  import opened Usage
  import opened Sse
  import opened Reports
  import opened Responses
  import opened Texts
  import Stream

  // ---------- what one event says ----------

  predicate IsTerminal(kind: string) {
    kind == "response.completed" || kind == "response.incomplete" || kind == "response.failed"
  }

  predicate IsUnderWay(kind: string) {
    kind == "response.created" || kind == "response.in_progress"
  }

  /** The finished response of an event, and the response, finished or not. */
  function FinishedIn(kind: string, value: Value): Option<Value> {
    if IsTerminal(kind) then value.Get("response") else None
  }

  function ResponseIn(kind: string, value: Value): Option<Value> {
    if IsTerminal(kind) || IsUnderWay(kind) then value.Get("response") else None
  }

  function UsageIn(kind: string, value: Value): Option<Value> {
    match FinishedIn(kind, value) case Some(response) => response.Get("usage") case None => None
  }

  /** The number under a key of a part, one level further down. */
  function DeepIn(part: Option<Value>, key: string, inner: string): Option<nat> {
    match part case Some(v) => Nested(v, key, inner) case None => None
  }

  function ReasonIn(kind: string, value: Value): Option<string> {
    match FinishedIn(kind, value)
    case Some(response) => NestedStr(response, "incomplete_details", "reason")
    case None => None
  }

  function DeltaIn(kind: string, value: Value): Option<string> {
    if kind == "response.output_text.delta" then value.GetStr("delta") else None
  }

  /** The output items an event brings: a finished one, or all of a finished response. */
  function ItemsIn(kind: string, value: Value): seq<Value> {
    if kind == "response.output_item.done" then (match value.Get("item") case Some(item) => [item] case None => [])
    else match FinishedIn(kind, value)
      case Some(response) => (match response.GetArray("output") case Some(items) => items case None => [])
      case None => []
  }

  /** An item the client must answer. */
  predicate IsCall(item: Value) {
    || item.GetStr("type") == Some("function_call") || item.GetStr("type") == Some("custom_tool_call")
    || item.GetStr("type") == Some("local_shell_call")
  }

  // ---------- the same as readings of events ----------

  function Status(json: JsonText): Event -> Option<string> {
    Said(json, (kind, value) => StrIn(ResponseIn(kind, value), "status"))
  }

  function Named(json: JsonText, key: string): Event -> Option<string> {
    Said(json, (kind, value) => StrIn(ResponseIn(kind, value), key))
  }

  function Reason(json: JsonText): Event -> Option<string> {
    Said(json, (kind, value) => ReasonIn(kind, value))
  }

  function Count(json: JsonText, key: string): Event -> Option<nat> {
    Said(json, (kind, value) => NatIn(UsageIn(kind, value), key))
  }

  function Deep(json: JsonText, key: string, inner: string): Event -> Option<nat> {
    Said(json, (kind, value) => DeepIn(UsageIn(kind, value), key, inner))
  }

  function Delta(json: JsonText): Event -> Option<string> {
    Said(json, (kind, value) => DeltaIn(kind, value))
  }

  function ItemsOf(json: JsonText, event: Event): seq<Value> {
    match ParseEventJson(json, event.data) case Some(value) => ItemsIn(KindOf(value, event), value) case None => []
  }

  /** All items a stream brings, as often as it brings them. */
  function AllItems(json: JsonText, events: seq<Event>): seq<Value> {
    if events == [] then [] else AllItems(json, events[..|events| - 1]) + ItemsOf(json, events[|events| - 1])
  }

  // ---------- one event ----------

  predicate CountsFollow(s: State, after: State, usage: Option<Value>) {
    && after.inputTokens == Or(NatIn(usage, "input_tokens"), s.inputTokens)
    && after.outputTokens == Or(NatIn(usage, "output_tokens"), s.outputTokens)
    && after.cacheRead == Or(DeepIn(usage, "input_tokens_details", "cached_tokens"), s.cacheRead)
    && after.reasoningExact == Or(DeepIn(usage, "output_tokens_details", "reasoning_tokens"), s.reasoningExact)
  }

  predicate NamesFollow(s: State, after: State, response: Option<Value>, reason: Option<string>) {
    && after.status == Or(StrIn(response, "status"), s.status)
    && after.model == Or(StrIn(response, "model"), s.model) && after.responseId == Or(StrIn(response, "id"), s.responseId)
    && after.incompleteReason == Or(reason, s.incompleteReason)
  }

  lemma ResponseReports(s: State, response: Value, harvest: bool)
    ensures var after := ConsumeResponse(s, response, harvest);
      && CountsFollow(s, after, response.Get("usage"))
      && NamesFollow(s, after, Some(response), NestedStr(response, "incomplete_details", "reason"))
      && after.toolCalls == AddCalls(s.toolCalls, CallsOf(Output(response)))
      && after.text == if harvest then s.text + HarvestedText(Output(response)) else s.text
  {
    ItemsCalls(ConsumeHead(s, response), Output(response), harvest);
  }

  /** The kinds of events are different words. */
  lemma KindsDiffer(kind: string)
    ensures IsTerminal(kind) || IsUnderWay(kind) ==> kind != "response.output_item.done" && kind != "response.output_text.delta"
    ensures !(IsTerminal(kind) && IsUnderWay(kind)) && "response.output_item.done" != "response.output_text.delta"
  {
    var item, delta, created, progress := "response.output_item.done", "response.output_text.delta", "response.created",
                                          "response.in_progress";
    var completed, incomplete, failed := "response.completed", "response.incomplete", "response.failed";
    assert item[9] == 'o' && delta[9] == 'o' && created[9] == 'c' && progress[9] == 'i';
    assert completed[9] == 'c' && incomplete[9] == 'i' && failed[9] == 'f';
    assert item[16] != delta[16] && created[10] != completed[10] && progress[11] != incomplete[11];
  }

  lemma TerminalConsumes(s: State, kind: string, value: Value)
    requires IsTerminal(kind)
    ensures OnValue(s, kind, value).(error := None)
         == (match value.Get("response") case Some(response) => ConsumeResponse(s, response, false) case None => s).(error := None)
  {
    KindsDiffer(kind);
  }

  lemma TerminalReports(s: State, kind: string, value: Value)
    requires IsTerminal(kind)
    ensures Follows(s, OnValue(s, kind, value), kind, value)
  {
    KindsDiffer(kind);
    TerminalConsumes(s, kind, value);
    TerminalFollows(s, OnValue(s, kind, value), kind, value);
  }

  lemma TerminalFollows(s: State, after: State, kind: string, value: Value)
    requires IsTerminal(kind) && kind != "response.output_item.done" && kind != "response.output_text.delta"
    requires after.(error := None)
          == (match value.Get("response") case Some(response) => ConsumeResponse(s, response, false) case None => s).(error := None)
    ensures Follows(s, after, kind, value)
  {
    assert s.text + "" == s.text;
    if value.Get("response").Some? {
      ResponseReports(s, value.Get("response").value, false);
    }
  }

  lemma OtherReports(s: State, kind: string, value: Value)
    requires !IsTerminal(kind)
    ensures Follows(s, OnValue(s, kind, value), kind, value)
  {
    KindsDiffer(kind);
    assert s.text + "" == s.text;
    if kind == "response.output_item.done" && value.Get("item").Some? {
      OneItem(s.toolCalls, value.Get("item").value);
    }
  }

  /** A state follows another one as an event says. */
  predicate Follows(s: State, after: State, kind: string, value: Value) {
    && CountsFollow(s, after, UsageIn(kind, value))
    && NamesFollow(s, after, ResponseIn(kind, value), ReasonIn(kind, value))
    && after.toolCalls == AddCalls(s.toolCalls, CallsOf(ItemsIn(kind, value)))
    && after.text == s.text + OrEmpty(DeltaIn(kind, value))
  }

  lemma OneItem(calls: seq<ToolCall>, item: Value)
    ensures AddCalls(calls, CallsOf([item])) == match CallOf(item) case Some(call) => AddCall(calls, call) case None => calls
  {
    assert [item][..0] == [];
    if CallOf(item).Some? {
      assert [] + [CallOf(item).value] == [CallOf(item).value] && [CallOf(item).value][..0] == [];
    }
  }

  // ---------- a whole stream ----------

  lemma {:induction false} AddCallsConcat(calls: seq<ToolCall>, a: seq<ToolCall>, b: seq<ToolCall>)
    ensures AddCalls(calls, a + b) == AddCalls(AddCalls(calls, a), b)
  {
    if b == [] {
      assert a + b == a;
    } else {
      assert (a + b)[..|a + b| - 1] == a + b[..|b| - 1];
      AddCallsConcat(calls, a, b[..|b| - 1]);
    }
  }

  lemma {:induction false} CallsOfConcat(a: seq<Value>, b: seq<Value>)
    ensures CallsOf(a + b) == CallsOf(a) + CallsOf(b)
  {
    if b == [] {
      assert a + b == a;
    } else {
      assert (a + b)[..|a + b| - 1] == a + b[..|b| - 1];
      CallsOfConcat(a, b[..|b| - 1]);
    }
  }

  /** A state says what events have said last, and holds every call and all text they brought. */
  ghost predicate Holds(json: JsonText, s: State, events: seq<Event>) {
    HoldsReports(json, s, events) && HoldsPieces(json, s, events)
  }

  predicate HoldsReports(json: JsonText, s: State, events: seq<Event>) {
    && s.status == Latest(events, Status(json)) && s.incompleteReason == Latest(events, Reason(json))
    && s.model == Latest(events, Named(json, "model")) && s.responseId == Latest(events, Named(json, "id"))
    && s.inputTokens == Latest(events, Count(json, "input_tokens"))
    && s.outputTokens == Latest(events, Count(json, "output_tokens"))
    && s.cacheRead == Latest(events, Deep(json, "input_tokens_details", "cached_tokens"))
    && s.reasoningExact == Latest(events, Deep(json, "output_tokens_details", "reasoning_tokens"))
  }

  ghost predicate HoldsPieces(json: JsonText, s: State, events: seq<Event>) {
    && s.toolCalls == AddCalls([], CallsOf(AllItems(json, events)))
    && Joins(s.text, Sayings(events, Delta(json)), "")
  }

  /** What an event leaves behind, whether it parses or not. */
  predicate FollowsEvent(json: JsonText, s: State, e: Event, after: State) {
    match ParseEventJson(json, e.data)
    case Some(value) => Follows(s, after, KindOf(value, e), value)
    case None => after == s
  }

  lemma EventFollows(json: JsonText, s: State, e: Event)
    ensures FollowsEvent(json, s, e, OnEvent(json, s, e))
  {
    match ParseEventJson(json, e.data)
    case Some(value) =>
      if IsTerminal(KindOf(value, e)) {
        TerminalReports(s, KindOf(value, e), value);
      } else {
        OtherReports(s, KindOf(value, e), value);
      }
    case None =>
  }

  lemma ReportsOnwards(json: JsonText, s: State, events: seq<Event>, e: Event, after: State)
    requires HoldsReports(json, s, events) && FollowsEvent(json, s, e, after)
    ensures HoldsReports(json, after, events + [e])
  {
    assert (events + [e])[..|events|] == events;
  }

  lemma PiecesOnwards(json: JsonText, s: State, events: seq<Event>, e: Event, after: State)
    requires HoldsPieces(json, s, events) && FollowsEvent(json, s, e, after)
    ensures HoldsPieces(json, after, events + [e])
  {
    assert (events + [e])[..|events|] == events;
    AddCallsConcat([], CallsOf(AllItems(json, events)), CallsOf(ItemsOf(json, e)));
    CallsOfConcat(AllItems(json, events), ItemsOf(json, e));
    var said := Sayings(events, Delta(json));
    assert said + [] == said && s.text + "" == s.text;
    if Delta(json)(e).Some? {
      JoinsNext(s.text, said, Delta(json)(e).value);
    }
  }

  lemma StepHolds(json: JsonText, s: State, events: seq<Event>, e: Event)
    requires Holds(json, s, events)
    ensures Holds(json, OnEvent(json, s, e), events + [e])
  {
    EventFollows(json, s, e);
    ReportsOnwards(json, s, events, e, OnEvent(json, s, e));
    PiecesOnwards(json, s, events, e, OnEvent(json, s, e));
  }

  lemma StreamHolds(json: JsonText, events: seq<Event>)
    ensures Holds(json, Stream.Consume(TheSink(json), EMPTY, events), events)
  {
    JoinsNothing("");
    assert Holds(json, EMPTY, []);
    forall s: State, before: seq<Event>, e: Event | Holds(json, s, before)
      ensures Holds(json, TheSink(json).onEvent(s, e), before + [e]) {
      StepHolds(json, s, before, e);
    }
    StreamKeeps(TheSink(json), EMPTY, events, (s: State, before: seq<Event>) => Holds(json, s, before));
  }

  // ---------- the error that is reported ----------

  /** What a part says under `error`, unless that is null. */
  function ErrorIn(part: Option<Value>): Option<string> {
    match part
    case Some(v) =>
      (match v.Get("error") case None => None case Some(Null) => None case Some(error) => Some(ErrorMessage(error)))
    case None => None
  }

  /** A failure tells its error itself, or in its response; any other finished response only there. */
  function ToldBy(kind: string, value: Value): Option<string> {
    var told := ErrorIn(FinishedIn(kind, value));
    if kind == "response.failed" then Or(ErrorIn(Some(value)), told) else told
  }

  function Told(json: JsonText): Event -> Option<string> {
    Said(json, (kind, value) => ToldBy(kind, value))
  }

  predicate IsFailure(json: JsonText, event: Event) {
    match ParseEventJson(json, event.data) case Some(value) => KindOf(value, event) == "response.failed" case None => false
  }

  predicate Failed(json: JsonText, events: seq<Event>) {
    exists e :: e in events && IsFailure(json, e)
  }

  lemma ItemKeepsError(s: State, item: Value, harvest: bool)
    ensures ConsumeItem(s, item, harvest).error == s.error
  {
  }

  lemma {:induction false} ItemsKeepError(s: State, items: seq<Value>, harvest: bool)
    ensures ConsumeItems(s, items, harvest).error == s.error
  {
    if items != [] {
      ItemsKeepError(s, items[..|items| - 1], harvest);
      ItemKeepsError(ConsumeItems(s, items[..|items| - 1], harvest), items[|items| - 1], harvest);
    }
  }

  lemma ResponseTells(s: State, response: Value, harvest: bool)
    ensures ConsumeResponse(s, response, harvest).error == Or(ErrorIn(Some(response)), s.error)
  {
    ItemsKeepError(ConsumeHead(s, response), Output(response), harvest);
  }

  lemma EventTells(json: JsonText, s: State, e: Event)
    ensures OnEvent(json, s, e).error
         == Or(Told(json)(e), Or(s.error, if IsFailure(json, e) then Some("response failed") else None))
  {
    var parsed := ParseEventJson(json, e.data);
    if parsed.Some? {
      var kind, value := KindOf(parsed.value, e), parsed.value;
      if IsTerminal(kind) {
        assert kind != "response.output_item.done" && kind != "response.output_text.delta" && !IsUnderWay(kind) by {
          TerminalIsNothingElse(kind);
        }
        if value.Get("response").Some? {
          ResponseTells(s, value.Get("response").value, false);
        }
      } else if kind == "response.output_item.done" && value.Get("item").Some? {
        ItemKeepsError(s, value.Get("item").value, false);
      }
    }
  }

  lemma TerminalIsNothingElse(kind: string)
    requires IsTerminal(kind)
    ensures kind != "response.output_item.done" && kind != "response.output_text.delta" && !IsUnderWay(kind)
  {
    assert kind[9] == 'c' || kind[9] == 'i' || kind[9] == 'f';
    if kind[9] == 'c' {
      assert kind[10] == 'o';
    }
    assert "response.in_progress"[11] == '_' && "response.incomplete"[11] == 'c';
  }

  /** The error of a stream is the last one told; untold, a failure is reported as such. */
  lemma {:induction false} ErrorIsTold(json: JsonText, events: seq<Event>)
    ensures Stream.Consume(TheSink(json), EMPTY, events).error
         == Or(Latest(events, Told(json)), if Failed(json, events) then Some("response failed") else None)
  {
    if events != [] {
      var before, last := events[..|events| - 1], events[|events| - 1];
      ErrorIsTold(json, before);
      EventTells(json, Stream.Consume(TheSink(json), EMPTY, before), last);
      ConsumeLast(json, events);
      FailedSnoc(json, before, last);
      assert events == before + [last];
      OrOnwards(Told(json)(last), Latest(before, Told(json)), Failed(json, before), IsFailure(json, last), "response failed");
    }
  }

  lemma ConsumeLast(json: JsonText, events: seq<Event>)
    requires events != []
    ensures Stream.Consume(TheSink(json), EMPTY, events)
         == OnEvent(json, Stream.Consume(TheSink(json), EMPTY, events[..|events| - 1]), events[|events| - 1])
  {
  }

  lemma FailedSnoc(json: JsonText, before: seq<Event>, last: Event)
    ensures Failed(json, before + [last]) <==> Failed(json, before) || IsFailure(json, last)
  {
    assert last in before + [last];
    assert forall e :: e in before + [last] <==> e in before || e == last;
  }

  lemma OrOnwards<T>(told: Option<T>, before: Option<T>, failed: bool, fails: bool, otherwise: T)
    ensures Or(told, Or(Or(before, if failed then Some(otherwise) else None), if fails then Some(otherwise) else None))
         == Or(Or(told, before), if failed || fails then Some(otherwise) else None)
  {
  }

  // ---------- the calls that are reported ----------

  function CallId(item: Value): string {
    if item.GetStr("call_id").Some? then item.GetStr("call_id").value
    else if item.GetStr("id").Some? then item.GetStr("id").value
    else ""
  }

  /** The call an item makes, if it makes one. */
  function Caller(): Value -> Option<ToolCall> {
    (item: Value) =>
      if IsCall(item) then Some(ToolCall(CallId(item), match item.GetStr("name") case Some(name) => name case None => ""))
      else None
  }

  lemma CallerCalls(item: Value)
    ensures CallOf(item) == Caller()(item)
  {
  }

  lemma {:induction false} CallsArePicks(items: seq<Value>)
    ensures CallsOf(items) == Picks(items, Caller())
  {
    if items != [] {
      CallsArePicks(items[..|items| - 1]);
      CallerCalls(items[|items| - 1]);
    }
  }

  /** The calls of a list of items are those its calling items make, in order and no others. */
  lemma CallsAreMade(items: seq<Value>)
    ensures ArePicked(CallsOf(items), items, Caller())
  {
    CallsArePicks(items);
    PicksArePicked(items, Caller());
  }

  lemma {:induction false} NoCallsExactly(items: seq<Value>)
    ensures CallsOf(items) == [] <==> forall item :: item in items ==> !IsCall(item)
  {
    if items != [] {
      NoCallsExactly(items[..|items| - 1]);
      CallerCalls(items[|items| - 1]);
      assert items == items[..|items| - 1] + [items[|items| - 1]];
    }
  }

  /** The first of the calls under its id; one without an id is always a first one. */
  predicate IsFirst(heard: seq<ToolCall>, i: nat)
    requires i < |heard|
  {
    heard[i].id == "" || forall j :: 0 <= j < i ==> heard[j].id != heard[i].id
  }

  /** The first name given under an id. */
  function FirstName(heard: seq<ToolCall>, id: string): string {
    if heard == [] then "" else
    var name := FirstName(heard[..|heard| - 1], id);
    if name == "" && heard[|heard| - 1].id == id then heard[|heard| - 1].name else name
  }

  function NameFor(heard: seq<ToolCall>, call: ToolCall): string {
    if call.id == "" then call.name else FirstName(heard, call.id)
  }

  /**
   Calls as they are reported of calls as they were heard: one for each id, in the order in which the ids were first heard, with
   the first name given under it; and every call without an id as it is.
   */
  ghost predicate ReportedAt(calls: seq<ToolCall>, heard: seq<ToolCall>, at: seq<nat>) {
    && |at| == |calls| && Increasing(at)
    && (forall i: nat :: i in at <==> i < |heard| && IsFirst(heard, i))
    && (forall k :: 0 <= k < |at| ==>
          at[k] < |heard| && calls[k] == ToolCall(heard[at[k]].id, NameFor(heard, heard[at[k]])))
  }

  ghost predicate AreReported(calls: seq<ToolCall>, heard: seq<ToolCall>) {
    exists at: seq<nat> :: ReportedAt(calls, heard, at)
  }

  lemma {:induction false} FirstUnder(heard: seq<ToolCall>, j: nat) returns (i: nat)
    requires j < |heard|
    ensures i <= j && heard[i].id == heard[j].id && IsFirst(heard, i)
    decreases j
  {
    i := j;
    if !IsFirst(heard, j) {
      var earlier: nat :| earlier < j && heard[earlier].id == heard[j].id;
      i := FirstUnder(heard, earlier);
    }
  }

  /** An id is among the reported calls exactly when it was heard. */
  lemma ReportedIds(calls: seq<ToolCall>, heard: seq<ToolCall>, at: seq<nat>, id: string)
    requires ReportedAt(calls, heard, at)
    ensures (exists k :: 0 <= k < |calls| && calls[k].id == id) <==> (exists j :: 0 <= j < |heard| && heard[j].id == id)
  {
    if j: nat :| j < |heard| && heard[j].id == id {
      var i := FirstUnder(heard, j);
      assert i in at;
      var k :| 0 <= k < |at| && at[k] == i;
      assert calls[k].id == id;
    }
    if k :| 0 <= k < |calls| && calls[k].id == id {
      assert heard[at[k]].id == id;
    }
  }

  lemma {:induction false} NeverHeard(heard: seq<ToolCall>, id: string)
    requires forall j :: 0 <= j < |heard| ==> heard[j].id != id
    ensures FirstName(heard, id) == ""
  {
    if heard != [] {
      NeverHeard(heard[..|heard| - 1], id);
    }
  }

  lemma FirstsStay(heard: seq<ToolCall>, call: ToolCall)
    ensures var all := heard + [call];
      && (forall i: nat :: i < |heard| ==> (IsFirst(all, i) <==> IsFirst(heard, i)))
      && (IsFirst(all, |heard|) <==> call.id == "" || forall j :: 0 <= j < |heard| ==> heard[j].id != call.id)
  {
    var all := heard + [call];
    assert forall j :: 0 <= j < |heard| ==> all[j] == heard[j];
  }

  lemma NamesStay(heard: seq<ToolCall>, call: ToolCall, other: ToolCall)
    ensures other.id != call.id || other.id == "" ==> NameFor(heard + [call], other) == NameFor(heard, other)
    ensures other.id == call.id != "" ==>
      NameFor(heard + [call], other) == if FirstName(heard, call.id) == "" then call.name else FirstName(heard, call.id)
  {
    assert (heard + [call])[..|heard|] == heard;
  }

  /** A call under an id that was not heard before, or under none. */
  lemma NewIsReported(calls: seq<ToolCall>, heard: seq<ToolCall>, at: seq<nat>, call: ToolCall)
    requires ReportedAt(calls, heard, at)
    requires call.id == "" || forall j :: 0 <= j < |heard| ==> heard[j].id != call.id
    ensures ReportedAt(calls + [call], heard + [call], at + [|heard|])
  {
    var all := heard + [call];
    FirstsStay(heard, call);
    NamesStay(heard, call, call);
    if call.id != "" {
      NeverHeard(heard, call.id);
    }
    forall k | 0 <= k < |at| ensures at[k] in at && calls[k] == ToolCall(all[at[k]].id, NameFor(all, all[at[k]])) {
      NamesStay(heard, call, heard[at[k]]);
    }
  }

  lemma OneUnderAnId(calls: seq<ToolCall>, heard: seq<ToolCall>, at: seq<nat>, j: nat, k: nat)
    requires ReportedAt(calls, heard, at) && j < |at| && k < |at|
    requires heard[at[j]].id == heard[at[k]].id && heard[at[j]].id != ""
    ensures j == k
  {
    assert at[j] in at && at[k] in at;
  }

  /** A call under an id that was heard before. */
  lemma AgainIsReported(calls: seq<ToolCall>, heard: seq<ToolCall>, at: seq<nat>, call: ToolCall, known: nat)
    requires ReportedAt(calls, heard, at) && call.id != ""
    requires known < |calls| && calls[known].id == call.id
    ensures var named := if calls[known].name == "" then calls[known := calls[known].(name := call.name)] else calls;
      ReportedAt(named, heard + [call], at)
  {
    var all := heard + [call];
    var named := if calls[known].name == "" then calls[known := calls[known].(name := call.name)] else calls;
    FirstsStay(heard, call);
    assert heard[at[known]].id == call.id;
    forall k | 0 <= k < |at| ensures at[k] in at && named[k] == ToolCall(all[at[k]].id, NameFor(all, all[at[k]])) {
      NamesStay(heard, call, heard[at[k]]);
      if heard[at[k]].id == call.id {
        OneUnderAnId(calls, heard, at, k, known);
      }
    }
  }

  lemma AddIsReported(calls: seq<ToolCall>, heard: seq<ToolCall>, call: ToolCall)
    requires AreReported(calls, heard)
    ensures AreReported(AddCall(calls, call), heard + [call])
  {
    var at: seq<nat> :| ReportedAt(calls, heard, at);
    ReportedIds(calls, heard, at, call.id);
    if call.id != "" && Find(calls, call.id) < |calls| {
      AgainIsReported(calls, heard, at, call, Find(calls, call.id));
    } else {
      NotHeard(calls, heard, call.id);
      NewIsReported(calls, heard, at, call);
    }
  }

  lemma NotHeard(calls: seq<ToolCall>, heard: seq<ToolCall>, id: string)
    requires (exists k :: 0 <= k < |calls| && calls[k].id == id) <==> (exists j :: 0 <= j < |heard| && heard[j].id == id)
    ensures Find(calls, id) == |calls| ==> forall j :: 0 <= j < |heard| ==> heard[j].id != id
  {
  }

  lemma {:induction false} HeardAreReported(heard: seq<ToolCall>)
    ensures AreReported(AddCalls([], heard), heard) && DistinctIds(AddCalls([], heard))
  {
    if heard == [] {
      assert ReportedAt([], [], []);
    } else {
      var shorter, last := heard[..|heard| - 1], heard[|heard| - 1];
      HeardAreReported(shorter);
      AddIsReported(AddCalls([], shorter), shorter, last);
      AddKeepsDistinct(AddCalls([], shorter), last);
      assert heard == shorter + [last];
    }
  }

  lemma ItemsAreReported(items: seq<Value>)
    ensures var calls := AddCalls([], CallsOf(items));
      && (calls == [] <==> forall item :: item in items ==> !IsCall(item))
      && AreReported(calls, CallsOf(items)) && DistinctIds(calls)
  {
    NoCallsExactly(items);
    SomeCallIsKept([], CallsOf(items));
    HeardAreReported(CallsOf(items));
  }

  // ---------- the summary ----------

  /** The stop reason stated for a status. */
  ghost predicate StatesStop(stated: Option<string>, status: Option<string>, reason: Option<string>) {
    if status != Some("incomplete") then stated == status
    else match reason
      case Some(r) => stated.Some? && Joins(stated.value, ["incomplete", r], ":")
      case None => stated == Some("incomplete")
  }

  lemma StopIsStated(s: State)
    ensures StatesStop(IntoSummary(s).stopReason, s.status, s.incompleteReason)
  {
    if s.status == Some("incomplete") && s.incompleteReason.Some? {
      var r := s.incompleteReason.value;
      assert "incomplete:" == "incomplete" + ":";
      JoinsOne("incomplete", ":");
      JoinsOneMore("incomplete", ["incomplete"], ":", r);
      TwoPieces("incomplete", r);
    }
  }

  lemma TwoPieces(a: string, b: string)
    ensures [a] + [b] == [a, b]
  {
  }

  /**
   The summary of a stream, read off its events: the turn has ended exactly when the last status is `completed` and no item
   is a call, and everything else is what was brought or last reported.
   */
  lemma SummaryOfStream(json: JsonText, events: seq<Event>)
    ensures var summary, items := IntoSummary(Stream.Consume(TheSink(json), EMPTY, events)), AllItems(json, events);
      && (summary.turnEnd <==>
            Latest(events, Status(json)) == Some("completed") && forall item :: item in items ==> !IsCall(item))
      && StatesStop(summary.stopReason, Latest(events, Status(json)), Latest(events, Reason(json)))
      && Joins(summary.text, Sayings(events, Delta(json)), "")
      && AreReported(summary.toolCalls, CallsOf(items)) && DistinctIds(summary.toolCalls)
      && summary.usage == Tokens(Latest(events, Count(json, "input_tokens")), Latest(events, Count(json, "output_tokens")),
                                 Latest(events, Deep(json, "input_tokens_details", "cached_tokens")), None,
                                 Latest(events, Deep(json, "output_tokens_details", "reasoning_tokens")), false)
      && summary.model == Latest(events, Named(json, "model")) && summary.responseId == Latest(events, Named(json, "id"))
      && summary.error == Or(Latest(events, Told(json)), if Failed(json, events) then Some("response failed") else None)
  {
    ErrorIsTold(json, events);
    var s := Stream.Consume(TheSink(json), EMPTY, events);
    StreamHolds(json, events);
    StopIsStated(s);
    ItemsAreReported(AllItems(json, events));
  }

  /** The content parts of a response's messages, and what each of them says. */
  function AllParts(items: seq<Value>): seq<Value> {
    if items == [] then [] else
    var last := items[|items| - 1];
    AllParts(items[..|items| - 1])
    + (if last.GetStr("type") == Some("message") && last.GetArray("content").Some? then last.GetArray("content").value else [])
  }

  function SaidBy(part: Value): string {
    if part.GetStr("type") == Some("output_text") && part.GetStr("text").Some? then part.GetStr("text").value else ""
  }

  function AllSaid(parts: seq<Value>): seq<string> {
    seq(|parts|, i requires 0 <= i < |parts| => SaidBy(parts[i]))
  }

  lemma {:induction false} PartsAreJoined(parts: seq<Value>)
    ensures Joins(PartsText(parts), AllSaid(parts), "")
  {
    if parts == [] {
      JoinsNothing("");
    } else {
      var shorter, last := parts[..|parts| - 1], parts[|parts| - 1];
      PartsAreJoined(shorter);
      JoinsNext(PartsText(shorter), AllSaid(shorter), SaidBy(last));
      assert AllSaid(parts) == AllSaid(shorter) + [SaidBy(last)];
    }
  }

  lemma {:induction false} PartsTextConcat(a: seq<Value>, b: seq<Value>)
    ensures PartsText(a + b) == PartsText(a) + PartsText(b)
  {
    if b == [] {
      assert a + b == a && PartsText(a) + "" == PartsText(a);
    } else {
      var front, last := b[..|b| - 1], b[|b| - 1];
      PartsTextConcat(a, front);
      SplitLast(a, b);
      PartsTextSnoc(a + front, last);
      PartsTextSnoc(front, last);
      Regrouped(PartsText(a), PartsText(front), PartText(last));
    }
  }

  lemma PartsTextSnoc(parts: seq<Value>, last: Value)
    ensures PartsText(parts + [last]) == PartsText(parts) + PartText(last)
  {
    assert (parts + [last])[..|parts|] == parts;
  }

  lemma {:induction false} HarvestIsParts(items: seq<Value>)
    ensures HarvestedText(items) == PartsText(AllParts(items))
  {
    if items != [] {
      var shorter, last := items[..|items| - 1], items[|items| - 1];
      HarvestIsParts(shorter);
      PartsTextConcat(AllParts(shorter), AllParts(items)[|AllParts(shorter)|..]);
      CallerCalls(last);
      assert "message"[0] != "function_call"[0] && "message"[0] != "custom_tool_call"[0]
          && "message"[0] != "local_shell_call"[0];
      assert AllParts(items) == AllParts(shorter) + AllParts(items)[|AllParts(shorter)|..];
    }
  }

  /** The summary of a whole response, read off its document. */
  lemma SummaryOfBody(response: Value)
    ensures var summary, items := IntoSummary(ConsumeResponse(EMPTY, response, true)), Output(response);
      && (summary.turnEnd <==>
            response.GetStr("status") == Some("completed") && forall item :: item in items ==> !IsCall(item))
      && StatesStop(summary.stopReason, response.GetStr("status"), NestedStr(response, "incomplete_details", "reason"))
      && Joins(summary.text, AllSaid(AllParts(items)), "")
      && AreReported(summary.toolCalls, CallsOf(items)) && DistinctIds(summary.toolCalls)
      && summary.usage == Tokens(NatIn(response.Get("usage"), "input_tokens"), NatIn(response.Get("usage"), "output_tokens"),
                                 DeepIn(response.Get("usage"), "input_tokens_details", "cached_tokens"), None,
                                 DeepIn(response.Get("usage"), "output_tokens_details", "reasoning_tokens"), false)
      && summary.model == response.GetStr("model") && summary.responseId == response.GetStr("id")
      && summary.error == ErrorIn(Some(response))
  {
    ResponseReports(EMPTY, response, true);
    ResponseTells(EMPTY, response, true);
    StopIsStated(ConsumeResponse(EMPTY, response, true));
    ItemsAreReported(Output(response));
    HarvestIsJoined(Output(response));
  }

  lemma HarvestIsJoined(items: seq<Value>)
    ensures Joins("" + HarvestedText(items), AllSaid(AllParts(items)), "")
  {
    HarvestIsParts(items);
    PartsAreJoined(AllParts(items));
    assert "" + HarvestedText(items) == HarvestedText(items);
  }
}
