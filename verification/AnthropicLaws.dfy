/**
 What the Anthropic sink has gathered (`src/usage/anthropic.rs:49-198`), in terms of the pieces a response is made of: the same
 pieces give the same report, whether they came as deltas or as whole blocks.
 */
module AnthropicLaws {
  import opened Wrappers
  import opened Json
  import opened Usage
  import opened Sse
  import opened Anthropic
  import opened Reports
  import Stream

  datatype Piece = Visible(text: string) | Thought(text: string) | Called(call: ToolCall) | Input(text: string)

  function CallOf(block: Value): ToolCall {
    ToolCall(OrEmpty(block.GetStr("id")), OrEmpty(block.GetStr("name")))
  }

  /** The piece one event of a stream brings, if any: with the start of a block, or with a delta. */
  function EventPieces(kind: string, value: Value): seq<Piece> {
    if kind == "content_block_start" && value.Get("content_block").Some? then StartPieces(value.Get("content_block").value)
    else if kind == "content_block_delta" && value.Get("delta").Some? then DeltaPieces(value.Get("delta").value)
    else []
  }

  function StartPieces(block: Value): seq<Piece> {
    var t := block.GetStr("type");
    if t == Some("text") then [Visible(OrEmpty(block.GetStr("text")))]
    else if t == Some("thinking") then [Thought(OrEmpty(block.GetStr("thinking")))]
    else if t == Some("tool_use") then [Called(CallOf(block))]
    else []
  }

  function DeltaPieces(delta: Value): seq<Piece> {
    var t := delta.GetStr("type");
    if t == Some("text_delta") then [Visible(OrEmpty(delta.GetStr("text")))]
    else if t == Some("thinking_delta") then [Thought(OrEmpty(delta.GetStr("thinking")))]
    else if t == Some("input_json_delta") then [Input(OrEmpty(delta.GetStr("partial_json")))]
    else []
  }

  /** The pieces of a whole block; a call's input is printed. */
  function BlockPieces(json: JsonText, block: Value): seq<Piece> {
    var t := block.GetStr("type");
    if t == Some("text") then [Visible(OrEmpty(block.GetStr("text")))]
    else if t == Some("thinking") then [Thought(OrEmpty(block.GetStr("thinking")))]
    else if t == Some("tool_use") then
      [Called(CallOf(block))] + (match block.Get("input") case Some(input) => [Input(json.render(input))] case None => [])
    else []
  }

  function AllBlockPieces(json: JsonText, blocks: seq<Value>): seq<Piece> {
    if blocks == [] then []
    else AllBlockPieces(json, blocks[..|blocks| - 1]) + BlockPieces(json, blocks[|blocks| - 1])
  }

  // ---------- what pieces amount to ----------

  function TextOf(pieces: seq<Piece>): string {
    if pieces == [] then "" else
    TextOf(pieces[..|pieces| - 1]) + (match pieces[|pieces| - 1] case Visible(t) => t case _ => "")
  }

  function ThoughtChars(pieces: seq<Piece>): nat {
    if pieces == [] then 0 else
    ThoughtChars(pieces[..|pieces| - 1]) + (match pieces[|pieces| - 1] case Thought(t) => |t| case _ => 0)
  }

  function InputChars(pieces: seq<Piece>): nat {
    if pieces == [] then 0 else
    InputChars(pieces[..|pieces| - 1]) + (match pieces[|pieces| - 1] case Input(t) => |t| case _ => 0)
  }

  function CallsOf(pieces: seq<Piece>): seq<ToolCall> {
    if pieces == [] then [] else
    CallsOf(pieces[..|pieces| - 1]) + (match pieces[|pieces| - 1] case Called(call) => [call] case _ => [])
  }

  /** The ledger: every character is visible text, thinking or tool input, and each is counted once. */
  ghost predicate Gathered(s: State, pieces: seq<Piece>) {
    && s.text == TextOf(pieces) && s.thinkingChars == ThoughtChars(pieces) && s.toolCalls == CallsOf(pieces)
    && s.outputChars == |TextOf(pieces)| + ThoughtChars(pieces) + InputChars(pieces)
  }

  /** A state that differs in the gathered fields as one more piece says. */
  function Told(s: State, piece: Piece): State {
    match piece
    case Visible(t) => PushText(s, t)
    case Thought(t) => PushThinking(s, t)
    case Called(call) => s.(toolCalls := s.toolCalls + [call])
    case Input(t) => s.(outputChars := s.outputChars + |t|)
  }

  lemma GatheredOneMore(s: State, pieces: seq<Piece>, piece: Piece, after: State)
    requires Gathered(s, pieces)
    requires var told := Told(s, piece);
      after.text == told.text && after.thinkingChars == told.thinkingChars && after.toolCalls == told.toolCalls
      && after.outputChars == told.outputChars
    ensures Gathered(after, pieces + [piece])
  {
    assert (pieces + [piece])[..|pieces|] == pieces;
  }

  lemma GatheredNoMore(s: State, pieces: seq<Piece>, after: State)
    requires Gathered(s, pieces)
    requires after.text == s.text && after.thinkingChars == s.thinkingChars && after.toolCalls == s.toolCalls
          && after.outputChars == s.outputChars
    ensures Gathered(after, pieces + [])
  {
    assert pieces + [] == pieces;
  }

  lemma StartGathers(s: State, pieces: seq<Piece>, block: Value)
    requires Gathered(s, pieces)
    ensures Gathered(OnBlockStart(s, block), pieces + StartPieces(block))
  {
    var more := StartPieces(block);
    if more == [] {
      GatheredNoMore(s, pieces, OnBlockStart(s, block));
    } else {
      GatheredOneMore(s, pieces, more[0], OnBlockStart(s, block));
    }
  }

  lemma DeltaGathers(s: State, pieces: seq<Piece>, delta: Value)
    requires Gathered(s, pieces)
    ensures Gathered(OnDelta(s, delta), pieces + DeltaPieces(delta))
  {
    var more := DeltaPieces(delta);
    if more == [] {
      GatheredNoMore(s, pieces, OnDelta(s, delta));
    } else {
      GatheredOneMore(s, pieces, more[0], OnDelta(s, delta));
    }
  }

  lemma EventGathers(s: State, pieces: seq<Piece>, kind: string, value: Value)
    requires Gathered(s, pieces)
    ensures Gathered(OnValue(s, kind, value), pieces + EventPieces(kind, value))
  {
    if kind == "content_block_start" && value.Get("content_block").Some? {
      StartGathers(s, pieces, value.Get("content_block").value);
    } else if kind == "content_block_delta" && value.Get("delta").Some? {
      DeltaGathers(s, pieces, value.Get("delta").value);
    } else {
      GatheredNoMore(s, pieces, OnValue(s, kind, value));
    }
  }

  lemma BlockGathers(json: JsonText, s: State, pieces: seq<Piece>, block: Value)
    requires Gathered(s, pieces)
    ensures Gathered(ConsumeBlock(json, s, block), pieces + BlockPieces(json, block))
  {
    var more := BlockPieces(json, block);
    var after := ConsumeBlock(json, s, block);
    if more == [] {
      GatheredNoMore(s, pieces, after);
    } else if |more| == 1 {
      GatheredOneMore(s, pieces, more[0], after);
    } else {
      var called := PushCall(s, block);
      GatheredOneMore(s, pieces, more[0], called);
      GatheredOneMore(called, pieces + [more[0]], more[1], after);
      assert (pieces + [more[0]]) + [more[1]] == pieces + more;
    }
  }

  lemma {:induction false} BlocksGather(json: JsonText, s: State, blocks: seq<Value>)
    requires Gathered(s, [])
    ensures Gathered(ConsumeBlocks(json, s, blocks), AllBlockPieces(json, blocks))
  {
    if blocks != [] {
      BlocksGather(json, s, blocks[..|blocks| - 1]);
      BlockGathers(json, ConsumeBlocks(json, s, blocks[..|blocks| - 1]), AllBlockPieces(json, blocks[..|blocks| - 1]),
                   blocks[|blocks| - 1]);
    }
  }

  // ---------- a stream ----------

  function StreamPieces(json: JsonText, events: seq<Event>): seq<Piece> {
    if events == [] then [] else
    StreamPieces(json, events[..|events| - 1])
    + (match ParseEventJson(json, events[|events| - 1].data)
       case Some(value) => EventPieces(KindOf(value, events[|events| - 1]), value)
       case None => [])
  }

  /** After any events, however malformed, the ledger is exactly that of the pieces they brought. */
  lemma {:induction false} StreamGathers(json: JsonText, events: seq<Event>)
    ensures Gathered(Stream.Consume(TheSink(json), EMPTY, events), StreamPieces(json, events))
  {
    if events != [] {
      var shorter, last := events[..|events| - 1], events[|events| - 1];
      StreamGathers(json, shorter);
      var s := Stream.Consume(TheSink(json), EMPTY, shorter);
      match ParseEventJson(json, last.data)
      case Some(value) => EventGathers(s, StreamPieces(json, shorter), KindOf(value, last), value);
      case None => GatheredNoMore(s, StreamPieces(json, shorter), s);
    }
  }

  // ---------- what a stream reports ----------

  function StopIn(kind: string, value: Value): Option<string> {
    if kind == "message_delta" then NestedStr(value, "delta", "stop_reason") else None
  }

  function MessageIn(kind: string, value: Value): Option<Value> {
    if kind == "message_start" then value.Get("message") else None
  }

  /** Where an event keeps its token counts. */
  function UsageIn(kind: string, value: Value): Option<Value> {
    if kind == "message_start" then (match value.Get("message") case Some(message) => message.Get("usage") case None => None)
    else if kind == "message_delta" then value.Get("usage")
    else None
  }

  function ExactInUsage(usage: Option<Value>): Option<nat> {
    match usage
    case Some(u) => Or(Nested(u, "output_tokens_details", "thinking_tokens"), u.GetNat("thinking_tokens"))
    case None => None
  }

  function ErrorIn(kind: string, value: Value): Option<string> {
    if kind != "error" then None
    else Some(match value.Get("error") case Some(e) => ErrorMessage(e) case None => "provider error")
  }

  /** The same as readings of events. */
  function Stop(json: JsonText): Event -> Option<string> {
    Said(json, (kind, value) => StopIn(kind, value))
  }

  function Exact(json: JsonText): Event -> Option<nat> {
    Said(json, (kind, value) => ExactInUsage(UsageIn(kind, value)))
  }

  function Count(json: JsonText, key: string): Event -> Option<nat> {
    Said(json, (kind, value) => NatIn(UsageIn(kind, value), key))
  }

  function Named(json: JsonText, key: string): Event -> Option<string> {
    Said(json, (kind, value) => StrIn(MessageIn(kind, value), key))
  }

  function Failure(json: JsonText): Event -> Option<string> {
    Said(json, (kind, value) => ErrorIn(kind, value))
  }

  lemma ValueReportsCounts(s: State, kind: string, value: Value)
    ensures var after := OnValue(s, kind, value);
      && after.reasoningExact == Or(ExactInUsage(UsageIn(kind, value)), s.reasoningExact)
      && after.inputTokens == Or(NatIn(UsageIn(kind, value), "input_tokens"), s.inputTokens)
      && after.outputTokens == Or(NatIn(UsageIn(kind, value), "output_tokens"), s.outputTokens)
      && after.cacheRead == Or(NatIn(UsageIn(kind, value), "cache_read_input_tokens"), s.cacheRead)
      && after.cacheWrite == Or(NatIn(UsageIn(kind, value), "cache_creation_input_tokens"), s.cacheWrite)
  {
  }

  lemma ValueReportsNames(s: State, kind: string, value: Value)
    ensures var after := OnValue(s, kind, value);
      && after.stopReason == Or(StopIn(kind, value), s.stopReason)
      && after.model == Or(StrIn(MessageIn(kind, value), "model"), s.model)
      && after.responseId == Or(StrIn(MessageIn(kind, value), "id"), s.responseId)
      && after.error == Or(ErrorIn(kind, value), s.error)
  {
  }

  lemma EventReports(json: JsonText, s: State, e: Event)
    ensures var after := OnEvent(json, s, e);
      && after.stopReason == Or(Stop(json)(e), s.stopReason)
      && after.reasoningExact == Or(Exact(json)(e), s.reasoningExact)
      && after.inputTokens == Or(Count(json, "input_tokens")(e), s.inputTokens)
      && after.outputTokens == Or(Count(json, "output_tokens")(e), s.outputTokens)
      && after.cacheRead == Or(Count(json, "cache_read_input_tokens")(e), s.cacheRead)
      && after.cacheWrite == Or(Count(json, "cache_creation_input_tokens")(e), s.cacheWrite)
      && after.model == Or(Named(json, "model")(e), s.model)
      && after.responseId == Or(Named(json, "id")(e), s.responseId)
      && after.error == Or(Failure(json)(e), s.error)
  {
    match ParseEventJson(json, e.data)
    case Some(value) =>
      ValueReportsCounts(s, KindOf(value, e), value);
      ValueReportsNames(s, KindOf(value, e), value);
    case None =>
  }

  /** After a stream each of these is what the last event to report it said. */
  lemma {:induction false} StreamReports(json: JsonText, events: seq<Event>)
    ensures var s := Stream.Consume(TheSink(json), EMPTY, events);
      && s.stopReason == Latest(events, Stop(json))
      && s.reasoningExact == Latest(events, Exact(json))
      && s.inputTokens == Latest(events, Count(json, "input_tokens"))
      && s.outputTokens == Latest(events, Count(json, "output_tokens"))
      && s.cacheRead == Latest(events, Count(json, "cache_read_input_tokens"))
      && s.cacheWrite == Latest(events, Count(json, "cache_creation_input_tokens"))
      && s.model == Latest(events, Named(json, "model"))
      && s.responseId == Latest(events, Named(json, "id"))
      && s.error == Latest(events, Failure(json))
  {
    if events != [] {
      StreamReports(json, events[..|events| - 1]);
      EventReports(json, Stream.Consume(TheSink(json), EMPTY, events[..|events| - 1]), events[|events| - 1]);
    }
  }

  /**
   The summary of a stream, read off its events: the turn has ended exactly when the last stop reason is one of two, the text
   and the calls are those that were streamed, and every number and name is the last one reported.
   */
  lemma SummaryOfStream(json: JsonText, events: seq<Event>)
    ensures var summary := IntoSummary(Stream.Consume(TheSink(json), EMPTY, events));
      && (summary.turnEnd <==>
            Latest(events, Stop(json)) == Some("end_turn") || Latest(events, Stop(json)) == Some("stop_sequence"))
      && summary.stopReason == Latest(events, Stop(json))
      && summary.text == TextOf(StreamPieces(json, events)) && summary.toolCalls == CallsOf(StreamPieces(json, events))
      && StatesReasoning(summary.usage, Latest(events, Exact(json)), ThoughtChars(StreamPieces(json, events)))
      && summary.usage.input == Latest(events, Count(json, "input_tokens"))
      && summary.usage.output == Latest(events, Count(json, "output_tokens"))
      && summary.usage.cacheRead == Latest(events, Count(json, "cache_read_input_tokens"))
      && summary.usage.cacheWrite == Latest(events, Count(json, "cache_creation_input_tokens"))
      && summary.model == Latest(events, Named(json, "model")) && summary.responseId == Latest(events, Named(json, "id"))
      && summary.error == Latest(events, Failure(json))
  {
    StreamReports(json, events);
    StreamGathers(json, events);
  }

  // ---------- a stream against the whole message ----------

  function Content(value: Value): seq<Value> {
    match value.GetArray("content") case Some(blocks) => blocks case None => []
  }

  lemma BodyGathers(json: JsonText, value: Value)
    requires value.GetStr("type") != Some("error")
    ensures var s := OnBodyValue(json, EMPTY, value);
      && Gathered(s, AllBlockPieces(json, Content(value)))
      && s.stopReason == value.GetStr("stop_reason")
      && s.reasoningExact == ExactInUsage(value.Get("usage"))
      && s.inputTokens == NatIn(value.Get("usage"), "input_tokens")
      && s.outputTokens == NatIn(value.Get("usage"), "output_tokens")
  {
    var named := TakeModelId(EMPTY, value).(stopReason := value.GetStr("stop_reason"));
    BlocksGather(json, named, Content(value));
    BlocksKeepReports(json, named, Content(value));
  }

  lemma {:induction false} BlocksKeepReports(json: JsonText, s: State, blocks: seq<Value>)
    ensures var after := ConsumeBlocks(json, s, blocks);
      && after.stopReason == s.stopReason && after.reasoningExact == s.reasoningExact
      && after.inputTokens == s.inputTokens && after.outputTokens == s.outputTokens
  {
    if blocks != [] {
      BlocksKeepReports(json, s, blocks[..|blocks| - 1]);
    }
  }

  /** The summary of a whole message, read off its document; an error document says nothing but its error. */
  lemma SummaryOfBody(json: JsonText, value: Value)
    ensures var summary, pieces := IntoSummary(OnBodyValue(json, EMPTY, value)), AllBlockPieces(json, Content(value));
      if value.GetStr("type") == Some("error") then
        summary == IntoSummary(EMPTY).(error := ErrorIn("error", value))
      else
        && (summary.turnEnd <==>
              value.GetStr("stop_reason") == Some("end_turn") || value.GetStr("stop_reason") == Some("stop_sequence"))
        && summary.stopReason == value.GetStr("stop_reason")
        && summary.text == TextOf(pieces) && summary.toolCalls == CallsOf(pieces)
        && StatesReasoning(summary.usage, ExactInUsage(value.Get("usage")), ThoughtChars(pieces))
        && summary.usage.input == NatIn(value.Get("usage"), "input_tokens")
        && summary.usage.output == NatIn(value.Get("usage"), "output_tokens")
        && summary.usage.cacheRead == NatIn(value.Get("usage"), "cache_read_input_tokens")
        && summary.usage.cacheWrite == NatIn(value.Get("usage"), "cache_creation_input_tokens")
        && summary.model == value.GetStr("model") && summary.responseId == value.GetStr("id") && summary.error == None
  {
    if value.GetStr("type") != Some("error") {
      BodyGathers(json, value);
      BodyNames(json, value);
    }
  }

  /** Everything a summary reports beside text, reasoning, calls and the two main counts is the same. */
  predicate SameNames(s: State, after: State) {
    && after.model == s.model && after.responseId == s.responseId && after.error == s.error
    && after.cacheRead == s.cacheRead && after.cacheWrite == s.cacheWrite && after.stopReason == s.stopReason
  }

  lemma BlockKeepsNames(json: JsonText, s: State, block: Value)
    ensures SameNames(s, ConsumeBlock(json, s, block))
  {
  }

  lemma {:induction false} BlocksKeepNames(json: JsonText, s: State, blocks: seq<Value>)
    ensures SameNames(s, ConsumeBlocks(json, s, blocks))
  {
    if blocks != [] {
      BlocksKeepNames(json, s, blocks[..|blocks| - 1]);
      BlockKeepsNames(json, ConsumeBlocks(json, s, blocks[..|blocks| - 1]), blocks[|blocks| - 1]);
    }
  }

  lemma BodyNames(json: JsonText, value: Value)
    requires value.GetStr("type") != Some("error")
    ensures var s := OnBodyValue(json, EMPTY, value);
      && s.model == value.GetStr("model") && s.responseId == value.GetStr("id") && s.error == None
      && s.stopReason == value.GetStr("stop_reason")
      && s.cacheRead == NatIn(value.Get("usage"), "cache_read_input_tokens")
      && s.cacheWrite == NatIn(value.Get("usage"), "cache_creation_input_tokens")
  {
    if value.GetArray("content").Some? {
      BlocksKeepNames(json, TakeModelId(EMPTY, value).(stopReason := value.GetStr("stop_reason")),
                      value.GetArray("content").value);
    }
  }

  /**
   However a message is cut into deltas, a stream whose pieces add up to the message's reports the same text, tool calls,
   reasoning and end of turn; and it counts as many characters if and only if the tool inputs it streamed are as long as
   the printed inputs of the message.
   */
  lemma StreamMatchesMessage(json: JsonText, events: seq<Event>, value: Value)
    requires value.GetStr("type") != Some("error")
    requires var streamed, whole := StreamPieces(json, events), AllBlockPieces(json, Content(value));
      TextOf(streamed) == TextOf(whole) && ThoughtChars(streamed) == ThoughtChars(whole) && CallsOf(streamed) == CallsOf(whole)
    requires Latest(events, Stop(json)) == value.GetStr("stop_reason")
    requires Latest(events, Exact(json)) == ExactInUsage(value.Get("usage"))
    ensures var s, b := Stream.Consume(TheSink(json), EMPTY, events), OnBodyValue(json, EMPTY, value);
      && IntoSummary(s).text == IntoSummary(b).text
      && IntoSummary(s).toolCalls == IntoSummary(b).toolCalls
      && IntoSummary(s).usage.reasoning == IntoSummary(b).usage.reasoning
      && IntoSummary(s).usage.reasoningEstimated == IntoSummary(b).usage.reasoningEstimated
      && IntoSummary(s).turnEnd == IntoSummary(b).turnEnd
      && (s.outputChars == b.outputChars
          <==> InputChars(StreamPieces(json, events)) == InputChars(AllBlockPieces(json, Content(value))))
  {
    StreamGathers(json, events);
    StreamReports(json, events);
    BodyGathers(json, value);
  }
}
