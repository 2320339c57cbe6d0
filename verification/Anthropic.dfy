/**
 The Anthropic sink (`src/usage/anthropic.rs`): what each event and block adds to the visible text and to the character
 count the stream rules read.
 */
module Anthropic {
  import opened Wrappers
  import opened Json
  import opened Usage
  import opened Sse
  import Stream

  datatype State = State(
    model: Option<string>,
    responseId: Option<string>,
    stopReason: Option<string>,
    inputTokens: Option<nat>,
    cacheRead: Option<nat>,
    cacheWrite: Option<nat>,
    outputTokens: Option<nat>,
    reasoningExact: Option<nat>,
    toolCalls: seq<ToolCall>,
    error: Option<string>,
    text: string,
    thinkingChars: nat,
    outputChars: nat)

  const EMPTY := State(None, None, None, None, None, None, None, None, [], None, "", 0, 0)

  function PushText(s: State, t: string): State {
    s.(text := s.text + t, outputChars := s.outputChars + |t|)
  }

  function PushThinking(s: State, t: string): State {
    s.(thinkingChars := s.thinkingChars + |t|, outputChars := s.outputChars + |t|)
  }

  function PushCall(s: State, block: Value): State {
    s.(toolCalls := s.toolCalls + [ToolCall(OrEmpty(block.GetStr("id")), OrEmpty(block.GetStr("name")))])
  }

  function ConsumeUsage(s: State, usage: Option<Value>): State {
    match usage
    case None => s
    case Some(u) =>
      s.(inputTokens := Or(u.GetNat("input_tokens"), s.inputTokens),
         cacheRead := Or(u.GetNat("cache_read_input_tokens"), s.cacheRead),
         cacheWrite := Or(u.GetNat("cache_creation_input_tokens"), s.cacheWrite),
         outputTokens := Or(u.GetNat("output_tokens"), s.outputTokens),
         reasoningExact := Or(Or(Nested(u, "output_tokens_details", "thinking_tokens"), u.GetNat("thinking_tokens")),
                              s.reasoningExact))
  }

  /** A block of a whole body; a tool call's printed input counts as output too. */
  function ConsumeBlock(json: JsonText, s: State, block: Value): State {
    match block.GetStr("type")
    case Some(kind) =>
      if kind == "text" then PushText(s, OrEmpty(block.GetStr("text")))
      else if kind == "thinking" then PushThinking(s, OrEmpty(block.GetStr("thinking")))
      else if kind == "tool_use" then
        var called := PushCall(s, block);
        match block.Get("input")
        case Some(input) => called.(outputChars := called.outputChars + |json.render(input)|)
        case None => called
      else s
    case None => s
  }

  function ConsumeBlocks(json: JsonText, s: State, blocks: seq<Value>): State {
    if blocks == [] then s
    else ConsumeBlock(json, ConsumeBlocks(json, s, blocks[..|blocks| - 1]), blocks[|blocks| - 1])
  }

  function OnBlockStart(s: State, block: Value): State {
    match block.GetStr("type")
    case Some(kind) =>
      if kind == "text" then PushText(s, OrEmpty(block.GetStr("text")))
      else if kind == "thinking" then PushThinking(s, OrEmpty(block.GetStr("thinking")))
      else if kind == "tool_use" then PushCall(s, block)
      else s
    case None => s
  }

  function OnDelta(s: State, delta: Value): State {
    match delta.GetStr("type")
    case Some(kind) =>
      if kind == "text_delta" then PushText(s, OrEmpty(delta.GetStr("text")))
      else if kind == "thinking_delta" then PushThinking(s, OrEmpty(delta.GetStr("thinking")))
      else if kind == "input_json_delta" then s.(outputChars := s.outputChars + |OrEmpty(delta.GetStr("partial_json"))|)
      else s
    case None => s
  }

  function TakeModelId(s: State, message: Value): State {
    s.(responseId := Or(message.GetStr("id"), s.responseId), model := Or(message.GetStr("model"), s.model))
  }

  function OnError(s: State, value: Value): State {
    s.(error := Some(match value.Get("error") case Some(e) => ErrorMessage(e) case None => "provider error"))
  }

  function OnValue(s: State, kind: string, value: Value): State {
    if kind == "message_start" then
      (match value.Get("message")
       case Some(message) => ConsumeUsage(TakeModelId(s, message), message.Get("usage"))
       case None => s)
    else if kind == "content_block_start" then
      (match value.Get("content_block") case Some(block) => OnBlockStart(s, block) case None => s)
    else if kind == "content_block_delta" then
      (match value.Get("delta") case Some(delta) => OnDelta(s, delta) case None => s)
    else if kind == "message_delta" then
      ConsumeUsage(s.(stopReason := Or(NestedStr(value, "delta", "stop_reason"), s.stopReason)), value.Get("usage"))
    else if kind == "error" then OnError(s, value)
    else s
  }

  function OnEvent(json: JsonText, s: State, event: Event): State {
    match ParseEventJson(json, event.data)
    case None => s
    case Some(value) => OnValue(s, OrEmpty(Or(value.GetStr("type"), event.kind)), value)
  }

  function OnBodyValue(json: JsonText, s: State, value: Value): State {
    if value.GetStr("type") == Some("error") then OnError(s, value) else
    var named := TakeModelId(s, value).(stopReason := Or(value.GetStr("stop_reason"), s.stopReason));
    ConsumeUsage(match value.GetArray("content") case Some(blocks) => ConsumeBlocks(json, named, blocks) case None => named,
                 value.Get("usage"))
  }

  function OnBody(json: JsonText, s: State, body: seq<byte>): State {
    match json.parseBytes(body) case None => s case Some(value) => OnBodyValue(json, s, value)
  }

  function Reasoning(s: State): (Option<nat>, bool) {
    if s.reasoningExact.Some? then (s.reasoningExact, false)
    else if s.thinkingChars > 0 then (Some(s.thinkingChars / 4), true)
    else (None, false)
  }

  function IntoSummary(s: State): Summary {
    var (tokens, estimated) := Reasoning(s);
    Summary(s.model, s.responseId, s.stopReason,
            Tokens(s.inputTokens, s.outputTokens, s.cacheRead, s.cacheWrite, tokens, estimated),
            s.toolCalls, s.stopReason == Some("end_turn") || s.stopReason == Some("stop_sequence"), s.text, s.error)
  }

  function TheSink(json: JsonText): Stream.Sink<State> {
    Stream.Sink((s, event) => OnEvent(json, s, event), (s, body) => OnBody(json, s, body), (s: State) => s.outputChars,
                (s: State) => Stream.LastChars(s.text, Stream.TAIL_CHARS))
  }

  // ---------- the character ledger ----------

  /** Visible text and thinking are counted in full; what is left over is tool input. */
  ghost predicate Counted(s: State) {
    |s.text| + s.thinkingChars <= s.outputChars
  }

  lemma EventKeepsCount(json: JsonText, s: State, event: Event)
    requires Counted(s)
    ensures Counted(OnEvent(json, s, event))
  {
  }

  lemma {:induction false} BlocksKeepCount(json: JsonText, s: State, blocks: seq<Value>)
    requires Counted(s)
    ensures Counted(ConsumeBlocks(json, s, blocks))
  {
    if blocks != [] {
      BlocksKeepCount(json, s, blocks[..|blocks| - 1]);
    }
  }

  lemma BodyKeepsCount(json: JsonText, s: State, value: Value)
    requires Counted(s)
    ensures Counted(OnBodyValue(json, s, value))
  {
    if value.GetArray("content").Some? {
      BlocksKeepCount(json, TakeModelId(s, value).(stopReason := Or(value.GetStr("stop_reason"), s.stopReason)),
                      value.GetArray("content").value);
    }
  }
}
