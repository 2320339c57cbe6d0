/**
 The OpenAI Responses sink (`src/usage/openai_responses.rs`): specification functions on its state, the source's mutable
 record proved to follow them, and what they promise about tool calls.
 */
module Responses {
  import opened Wrappers
  import opened Json
  import opened Usage
  import opened Sse
  import opened Reports
  import Stream

  datatype State = State(
    model: Option<string>,
    responseId: Option<string>,
    status: Option<string>,
    incompleteReason: Option<string>,
    inputTokens: Option<nat>,
    cacheRead: Option<nat>,
    outputTokens: Option<nat>,
    reasoningExact: Option<nat>,
    toolCalls: seq<ToolCall>,
    error: Option<string>,
    text: string,
    outputChars: nat)

  const EMPTY := State(None, None, None, None, None, None, None, None, [], None, "", 0)

  // ---------- tool calls ----------

  predicate IsClientToolCall(kind: string) {
    kind == "function_call" || kind == "custom_tool_call" || kind == "local_shell_call"
  }

  /** The call an output item makes, if it is one the client must answer. */
  function CallOf(item: Value): Option<ToolCall> {
    match item.GetStr("type")
    case Some(kind) =>
      if IsClientToolCall(kind)
      then Some(ToolCall(OrEmpty(Or(item.GetStr("call_id"), item.GetStr("id"))), OrEmpty(item.GetStr("name"))))
      else None
    case None => None
  }

  function Find(calls: seq<ToolCall>, id: string): (k: nat)
    ensures k <= |calls|
    ensures k < |calls| ==> calls[k].id == id
    ensures forall j :: 0 <= j < k ==> calls[j].id != id
  {
    if calls == [] || calls[0].id == id then 0 else 1 + Find(calls[1..], id)
  }

  /** A call already known by its id only gets its missing name; any other is added. */
  function AddCall(calls: seq<ToolCall>, call: ToolCall): seq<ToolCall> {
    var k := Find(calls, call.id);
    if call.id != "" && k < |calls|
    then (if calls[k].name == "" then calls[k := calls[k].(name := call.name)] else calls)
    else calls + [call]
  }

  function AddCalls(calls: seq<ToolCall>, more: seq<ToolCall>): seq<ToolCall> {
    if more == [] then calls else AddCall(AddCalls(calls, more[..|more| - 1]), more[|more| - 1])
  }

  function CallsOf(items: seq<Value>): seq<ToolCall> {
    if items == [] then []
    else CallsOf(items[..|items| - 1])
         + (match CallOf(items[|items| - 1]) case Some(call) => [call] case None => [])
  }

  // ---------- text ----------

  function PartText(part: Value): string {
    if part.GetStr("type") == Some("output_text") then OrEmpty(part.GetStr("text")) else ""
  }

  function PartsText(parts: seq<Value>): string {
    if parts == [] then "" else PartsText(parts[..|parts| - 1]) + PartText(parts[|parts| - 1])
  }

  function MessageText(item: Value): string {
    if item.GetStr("type") == Some("message") && item.GetArray("content").Some?
    then PartsText(item.GetArray("content").value) else ""
  }

  function PushText(s: State, t: string): State {
    s.(text := s.text + t, outputChars := s.outputChars + |t|)
  }

  // ---------- consuming ----------

  function TakeModelId(s: State, resp: Value): State {
    s.(responseId := Or(resp.GetStr("id"), s.responseId), model := Or(resp.GetStr("model"), s.model))
  }

  function ConsumeUsage(s: State, usage: Option<Value>): State {
    match usage
    case None => s
    case Some(u) =>
      s.(inputTokens := Or(u.GetNat("input_tokens"), s.inputTokens),
         cacheRead := Or(Nested(u, "input_tokens_details", "cached_tokens"), s.cacheRead),
         outputTokens := Or(u.GetNat("output_tokens"), s.outputTokens),
         reasoningExact := Or(Nested(u, "output_tokens_details", "reasoning_tokens"), s.reasoningExact))
  }

  /** Every key of a finished response except its output. */
  function ConsumeHead(s: State, resp: Value): State {
    ConsumeUsage(TakeModelId(s, resp).(status := Or(resp.GetStr("status"), s.status),
                                       incompleteReason := Or(NestedStr(resp, "incomplete_details", "reason"), s.incompleteReason)),
                 resp.Get("usage"))
  }

  /** One output item; its text counts only in a body, where no deltas have brought it. */
  function ConsumeItem(s: State, item: Value, harvest: bool): State {
    match CallOf(item)
    case Some(call) => s.(toolCalls := AddCall(s.toolCalls, call))
    case None => if harvest then PushText(s, MessageText(item)) else s
  }

  function ConsumeItems(s: State, items: seq<Value>, harvest: bool): State {
    if items == [] then s else ConsumeItem(ConsumeItems(s, items[..|items| - 1], harvest), items[|items| - 1], harvest)
  }

  function Output(resp: Value): seq<Value> {
    match resp.GetArray("output") case Some(items) => items case None => []
  }

  /** A finished response, from a terminal event (`harvest` off) or as the whole body (`harvest` on). */
  function ConsumeResponse(s: State, resp: Value, harvest: bool): State {
    var done := ConsumeItems(ConsumeHead(s, resp), Output(resp), harvest);
    done.(error := Or(ErrorOf(Present(resp, "error")), done.error))
  }

  function OnFailed(s: State, value: Value): State {
    if Present(value, "error").Some? then s.(error := ErrorOf(Present(value, "error")))
    else if s.error.None? then s.(error := Some("response failed"))
    else s
  }

  function OnValue(s: State, kind: string, value: Value): State {
    if kind == "response.output_item.done" then
      (match value.Get("item") case Some(item) => ConsumeItem(s, item, false) case None => s)
    else if kind == "response.created" || kind == "response.in_progress" then
      (match value.Get("response")
       case Some(resp) => TakeModelId(s, resp).(status := Or(resp.GetStr("status"), s.status))
       case None => s)
    else if kind == "response.output_text.delta" then
      (match value.GetStr("delta") case Some(t) => PushText(s, t) case None => s)
    else if kind == "response.completed" || kind == "response.incomplete" || kind == "response.failed" then
      var after := match value.Get("response") case Some(resp) => ConsumeResponse(s, resp, false) case None => s;
      if kind == "response.failed" then OnFailed(after, value) else after
    else s
  }

  function OnEvent(json: JsonText, s: State, event: Event): State {
    match ParseEventJson(json, event.data)
    case None => s
    case Some(value) => OnValue(s, KindOf(value, event), value)
  }

  function OnBody(json: JsonText, s: State, body: seq<byte>): State {
    match json.parseBytes(body)
    case None => s
    case Some(value) => ConsumeResponse(s, value, true)
  }

  function StopReason(s: State): Option<string> {
    if s.status == Some("incomplete")
    then Some(match s.incompleteReason case Some(r) => "incomplete:" + r case None => "incomplete")
    else s.status
  }

  function IntoSummary(s: State): Summary {
    Summary(s.model, s.responseId, StopReason(s),
            Tokens(s.inputTokens, s.outputTokens, s.cacheRead, None, s.reasoningExact, false),
            s.toolCalls, s.status == Some("completed") && s.toolCalls == [], s.text, s.error)
  }

  function TheSink(json: JsonText): Stream.Sink<State> {
    Stream.Sink((s, event) => OnEvent(json, s, event), (s, body) => OnBody(json, s, body), (s: State) => s.outputChars,
                (s: State) => Stream.LastChars(s.text, Stream.TAIL_CHARS))
  }

  // ---------- text is all that is counted ----------

  ghost predicate Counted(s: State) {
    s.outputChars == |s.text|
  }

  lemma {:induction false} ItemsKeepCount(s: State, items: seq<Value>, harvest: bool)
    requires Counted(s)
    ensures Counted(ConsumeItems(s, items, harvest))
  {
    if items != [] {
      ItemsKeepCount(s, items[..|items| - 1], harvest);
    }
  }

  lemma ResponseKeepsCount(s: State, resp: Value, harvest: bool)
    requires Counted(s)
    ensures Counted(ConsumeResponse(s, resp, harvest))
  {
    ItemsKeepCount(ConsumeHead(s, resp), Output(resp), harvest);
  }

  lemma EventKeepsCount(json: JsonText, s: State, event: Event)
    requires Counted(s)
    ensures Counted(OnEvent(json, s, event))
  {
    var parsed := ParseEventJson(json, event.data);
    if parsed.Some? && parsed.value.Get("response").Some? {
      ResponseKeepsCount(s, parsed.value.Get("response").value, false);
    }
  }

  // ---------- tool calls have distinct ids ----------

  ghost predicate DistinctIds(calls: seq<ToolCall>) {
    forall i, j :: 0 <= i < j < |calls| && calls[i].id != "" ==> calls[i].id != calls[j].id
  }

  lemma AddKeepsDistinct(calls: seq<ToolCall>, call: ToolCall)
    requires DistinctIds(calls)
    ensures DistinctIds(AddCall(calls, call))
  {
    var k := Find(calls, call.id);
    if call.id != "" && k < |calls| {
      assert forall j :: 0 <= j < |calls| ==> AddCall(calls, call)[j].id == calls[j].id;
    }
  }

  lemma {:induction false} ItemsKeepDistinct(s: State, items: seq<Value>, harvest: bool)
    requires DistinctIds(s.toolCalls)
    ensures DistinctIds(ConsumeItems(s, items, harvest).toolCalls)
  {
    if items != [] {
      ItemsKeepDistinct(s, items[..|items| - 1], harvest);
      var call := CallOf(items[|items| - 1]);
      if call.Some? {
        AddKeepsDistinct(ConsumeItems(s, items[..|items| - 1], harvest).toolCalls, call.value);
      }
    }
  }

  lemma EventKeepsDistinct(json: JsonText, s: State, event: Event)
    requires DistinctIds(s.toolCalls)
    ensures DistinctIds(OnEvent(json, s, event).toolCalls)
  {
    var parsed := ParseEventJson(json, event.data);
    if parsed.Some? {
      if parsed.value.Get("response").Some? {
        var resp := parsed.value.Get("response").value;
        ItemsKeepDistinct(ConsumeHead(s, resp), Output(resp), false);
      }
      if parsed.value.Get("item").Some? && CallOf(parsed.value.Get("item").value).Some? {
        AddKeepsDistinct(s.toolCalls, CallOf(parsed.value.Get("item").value).value);
      }
    }
  }

  lemma BodyKeeps(json: JsonText, s: State, body: seq<byte>)
    requires Counted(s) && DistinctIds(s.toolCalls)
    ensures Counted(OnBody(json, s, body)) && DistinctIds(OnBody(json, s, body).toolCalls)
  {
    var parsed := json.parseBytes(body);
    if parsed.Some? {
      ResponseKeepsCount(s, parsed.value, true);
      ItemsKeepDistinct(ConsumeHead(s, parsed.value), Output(parsed.value), true);
    }
  }

  /** After any events, in any order and however malformed, two reported tool calls never share a non-empty id. */
  lemma {:induction false} CallIdsAreDistinct(json: JsonText, events: seq<Event>)
    ensures DistinctIds(Stream.Consume(TheSink(json), EMPTY, events).toolCalls)
  {
    if events != [] {
      CallIdsAreDistinct(json, events[..|events| - 1]);
      EventKeepsDistinct(json, Stream.Consume(TheSink(json), EMPTY, events[..|events| - 1]), events[|events| - 1]);
    }
  }

  // ---------- hearing the same items twice ----------

  /** Whether adding a call again would change nothing. */
  predicate Settled(calls: seq<ToolCall>, call: ToolCall) {
    var k := Find(calls, call.id);
    call.id != "" && k < |calls| && (calls[k].name != "" || call.name == "")
  }

  lemma AddSettles(calls: seq<ToolCall>, call: ToolCall)
    requires call.id != ""
    ensures Settled(AddCall(calls, call), call)
  {
    var after := AddCall(calls, call);
    FindStays(calls, call, call.id);
  }

  /** Adding a call moves no other id, and finds room only at the end. */
  lemma FindStays(calls: seq<ToolCall>, call: ToolCall, id: string)
    ensures Find(calls, id) < |calls| ==> Find(AddCall(calls, call), id) == Find(calls, id)
    ensures Find(calls, id) == |calls| && call.id == id ==> Find(AddCall(calls, call), id) == |calls|
  {
    var after, k := AddCall(calls, call), Find(calls, id);
    assert |after| >= |calls| && forall j :: 0 <= j < |calls| ==> after[j].id == calls[j].id;
    FindIs(after, id, if k < |calls| then k else |calls|);
  }

  lemma FindIs(calls: seq<ToolCall>, id: string, k: nat)
    requires k <= |calls| && forall j :: 0 <= j < k ==> calls[j].id != id
    ensures k < |calls| && calls[k].id == id ==> Find(calls, id) == k
  {
  }

  lemma SettledStays(calls: seq<ToolCall>, call: ToolCall, other: ToolCall)
    requires Settled(calls, other)
    ensures Settled(AddCall(calls, call), other)
  {
    FindStays(calls, call, other.id);
  }

  lemma {:induction false} AllSettle(calls: seq<ToolCall>, more: seq<ToolCall>)
    requires forall c :: c in more ==> c.id != ""
    ensures forall c :: c in more ==> Settled(AddCalls(calls, more), c)
  {
    if more != [] {
      var shorter, last := more[..|more| - 1], more[|more| - 1];
      AllSettle(calls, shorter);
      AddSettles(AddCalls(calls, shorter), last);
      forall c | c in shorter
        ensures Settled(AddCalls(calls, more), c)
      {
        SettledStays(AddCalls(calls, shorter), last, c);
      }
    }
  }

  lemma {:induction false} SettledChangeNothing(calls: seq<ToolCall>, more: seq<ToolCall>)
    requires forall c :: c in more ==> Settled(calls, c)
    ensures AddCalls(calls, more) == calls
  {
    if more != [] {
      SettledChangeNothing(calls, more[..|more| - 1]);
      var call := more[|more| - 1];
      var k := Find(calls, call.id);
      assert Settled(calls, call);
      assert calls[k].name == "" ==> calls[k := calls[k].(name := call.name)] == calls;
    }
  }

  lemma {:induction false} CallsGrow(calls: seq<ToolCall>, more: seq<ToolCall>)
    ensures |AddCalls(calls, more)| >= |calls|
    ensures (exists c :: c in more && c.id == "") ==> |AddCalls(calls, more)| > |calls|
  {
    if more != [] {
      CallsGrow(calls, more[..|more| - 1]);
    }
  }

  /** Hearing a list of calls twice is the same as once exactly when every call in it has an id. */
  lemma TwiceIsOnceExactlyWhenIdentified(calls: seq<ToolCall>, more: seq<ToolCall>)
    ensures AddCalls(AddCalls(calls, more), more) == AddCalls(calls, more) <==> forall c :: c in more ==> c.id != ""
  {
    if forall c :: c in more ==> c.id != "" {
      AllSettle(calls, more);
      SettledChangeNothing(AddCalls(calls, more), more);
    } else {
      CallsGrow(AddCalls(calls, more), more);
    }
  }

  /** A state that has heard some calls and, when harvesting, some text. */
  function Heard(s: State, calls: seq<ToolCall>, text: string, harvest: bool): State {
    s.(toolCalls := AddCalls(s.toolCalls, calls),
       text := if harvest then s.text + text else s.text,
       outputChars := if harvest then s.outputChars + |text| else s.outputChars)
  }

  lemma HeardOneMore(s: State, calls: seq<ToolCall>, text: string, item: Value, harvest: bool)
    ensures CallOf(item).Some? ==>
      ConsumeItem(Heard(s, calls, text, harvest), item, harvest) == Heard(s, calls + [CallOf(item).value], text, harvest)
    ensures CallOf(item).None? ==>
      ConsumeItem(Heard(s, calls, text, harvest), item, harvest) == Heard(s, calls, text + MessageText(item), harvest)
  {
    if CallOf(item).Some? {
      assert (calls + [CallOf(item).value])[..|calls|] == calls;
    } else {
      assert s.text + text + MessageText(item) == s.text + (text + MessageText(item));
    }
  }

  lemma {:induction false} ItemsCalls(s: State, items: seq<Value>, harvest: bool)
    ensures ConsumeItems(s, items, harvest) == Heard(s, CallsOf(items), HarvestedText(items), harvest)
  {
    if items == [] {
      assert s.text + "" == s.text;
    } else {
      var shorter, last := items[..|items| - 1], items[|items| - 1];
      ItemsCalls(s, shorter, harvest);
      HeardOneMore(s, CallsOf(shorter), HarvestedText(shorter), last, harvest);
      assert HarvestedText(shorter) + "" == HarvestedText(shorter) && CallsOf(shorter) + [] == CallsOf(shorter);
    }
  }

  function HarvestedText(items: seq<Value>): string {
    if items == [] then ""
    else HarvestedText(items[..|items| - 1]) + (if CallOf(items[|items| - 1]).Some? then "" else MessageText(items[|items| - 1]))
  }

  // ---------- a stream that replays every item against the whole body ----------

  ghost predicate IsItemDone(json: JsonText, event: Event, item: Value) {
    var parsed := ParseEventJson(json, event.data);
    && parsed.Some? && KindOf(parsed.value, event) == "response.output_item.done"
    && parsed.value.Get("item") == Some(item)
  }

  ghost predicate IsCompleted(json: JsonText, event: Event, resp: Value) {
    var parsed := ParseEventJson(json, event.data);
    && parsed.Some? && KindOf(parsed.value, event) == "response.completed"
    && parsed.value.Get("response") == Some(resp)
  }

  lemma ItemDoneEvent(json: JsonText, s: State, event: Event, item: Value)
    requires IsItemDone(json, event, item)
    ensures OnEvent(json, s, event) == ConsumeItem(s, item, false)
  {
  }

  lemma CompletedEvent(json: JsonText, s: State, event: Event, resp: Value)
    requires IsCompleted(json, event, resp)
    ensures OnEvent(json, s, event) == ConsumeResponse(s, resp, false)
  {
    assert "response.completed"[9] != "response.failed"[9];
    assert "response.completed"[9] != "response.output_item.done"[9];
    assert "response.completed"[10] != "response.created"[10];
    assert "response.completed"[9] != "response.in_progress"[9];
    assert "response.completed"[9] != "response.output_text.delta"[9];
  }

  lemma {:induction false} ItemEvents(json: JsonText, events: seq<Event>, items: seq<Value>)
    requires |events| == |items| && forall k :: 0 <= k < |items| ==> IsItemDone(json, events[k], items[k])
    ensures Stream.Consume(TheSink(json), EMPTY, events) == ConsumeItems(EMPTY, items, false)
  {
    if items != [] {
      ItemEvents(json, events[..|events| - 1], items[..|items| - 1]);
      ItemDoneEvent(json, ConsumeItems(EMPTY, items[..|items| - 1], false), events[|events| - 1], items[|items| - 1]);
    }
  }

  lemma {:induction false} SomeCallIsKept(calls: seq<ToolCall>, more: seq<ToolCall>)
    ensures AddCalls(calls, more) == [] <==> calls == [] && more == []
  {
    if more != [] {
      SomeCallIsKept(calls, more[..|more| - 1]);
    }
  }

  /**
   Streaming every output item and then the completed response reports what the same response reports as one body, apart
   from the text, which arrives by deltas. The tool calls agree exactly when every call carries an id.
   */
  lemma ReplayMatchesBody(json: JsonText, events: seq<Event>, last: Event, body: seq<byte>, resp: Value)
    requires |events| == |Output(resp)| && forall k :: 0 <= k < |events| ==> IsItemDone(json, events[k], Output(resp)[k])
    requires IsCompleted(json, last, resp) && json.parseBytes(body) == Some(resp)
    ensures var streamed := IntoSummary(Stream.Consume(TheSink(json), EMPTY, events + [last]));
            var whole := IntoSummary(OnBody(json, EMPTY, body));
            && streamed.(text := "", toolCalls := []) == whole.(text := "", toolCalls := [])
            && (streamed.toolCalls == whole.toolCalls <==> forall c :: c in CallsOf(Output(resp)) ==> c.id != "")
  {
    var items, calls := Output(resp), CallsOf(Output(resp));
    assert (events + [last])[..|events|] == events;
    ItemEvents(json, events, items);
    var before := ConsumeItems(EMPTY, items, false);
    CompletedEvent(json, before, last, resp);
    ItemsCalls(EMPTY, items, false);
    ItemsCalls(ConsumeHead(before, resp), items, false);
    ItemsCalls(ConsumeHead(EMPTY, resp), items, true);
    TwiceIsOnceExactlyWhenIdentified([], calls);
    SomeCallIsKept([], calls);
    SomeCallIsKept(AddCalls([], calls), calls);
  }
}
