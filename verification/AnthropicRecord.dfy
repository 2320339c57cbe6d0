/** The mutable Anthropic sink (`src/usage/anthropic.rs:8-198`), proved to follow `Anthropic`. */
module AnthropicRecord {
  import opened Wrappers
  import opened Json
  import opened Usage
  import opened Sse
  import opened Anthropic
  import Stream

  class AnthropicSink {
    var model: Option<string>
    var responseId: Option<string>
    var stopReason: Option<string>
    var inputTokens: Option<nat>
    var cacheRead: Option<nat>
    var cacheWrite: Option<nat>
    var outputTokens: Option<nat>
    var reasoningExact: Option<nat>
    var toolCalls: seq<ToolCall>
    var error: Option<string>
    const text: Stream.TextTracker
    var thinkingChars: nat
    var outputChars: nat

    ghost function Now(): State
      reads this, text
    {
      State(model, responseId, stopReason, inputTokens, cacheRead, cacheWrite, outputTokens, reasoningExact, toolCalls,
            error, text.full, thinkingChars, outputChars)
    }

    /** Between events: text and thinking are counted. */
    ghost predicate Valid()
      reads this, text
    {
      text.Valid() && Counted(Now())
    }

    constructor ()
      ensures Valid() && Now() == EMPTY && text.Valid() && fresh(text)
    {
      model, responseId, stopReason := None, None, None;
      inputTokens, cacheRead, cacheWrite, outputTokens, reasoningExact := None, None, None, None, None;
      toolCalls, error, thinkingChars, outputChars := [], None, 0, 0;
      text := new Stream.TextTracker();
    }

    method PushText(t: string)
      requires text.Valid()
      modifies this`outputChars, text
      ensures text.Valid() && Now() == Anthropic.PushText(old(Now()), t)
    {
      text.Push(t);
      outputChars := outputChars + |t|;
    }

    method PushThinking(t: string)
      modifies this`outputChars, this`thinkingChars
      ensures Now() == Anthropic.PushThinking(old(Now()), t)
    {
      thinkingChars := thinkingChars + |t|;
      outputChars := outputChars + |t|;
    }

    method PushCall(block: Value)
      modifies this`toolCalls
      ensures Now() == Anthropic.PushCall(old(Now()), block)
    {
      toolCalls := toolCalls + [ToolCall(OrEmpty(block.GetStr("id")), OrEmpty(block.GetStr("name")))];
    }

    method ConsumeUsage(usage: Option<Value>)
      modifies this`inputTokens, this`cacheRead, this`cacheWrite, this`outputTokens, this`reasoningExact
      ensures Now() == Anthropic.ConsumeUsage(old(Now()), usage)
    {
      if usage.Some? {
        var u := usage.value;
        inputTokens := Or(u.GetNat("input_tokens"), inputTokens);
        cacheRead := Or(u.GetNat("cache_read_input_tokens"), cacheRead);
        cacheWrite := Or(u.GetNat("cache_creation_input_tokens"), cacheWrite);
        outputTokens := Or(u.GetNat("output_tokens"), outputTokens);
        var thinking := Or(Nested(u, "output_tokens_details", "thinking_tokens"), u.GetNat("thinking_tokens"));
        reasoningExact := Or(thinking, reasoningExact);
      }
    }

    method ConsumeBlockFull(json: JsonText, block: Value)
      requires text.Valid()
      modifies this, text
      ensures text.Valid() && Now() == ConsumeBlock(json, old(Now()), block)
    {
      var kind := OrEmpty(block.GetStr("type"));
      if kind == "text" {
        PushText(OrEmpty(block.GetStr("text")));
      } else if kind == "thinking" {
        PushThinking(OrEmpty(block.GetStr("thinking")));
      } else if kind == "tool_use" {
        PushCall(block);
        if block.Get("input").Some? {
          outputChars := outputChars + |json.render(block.Get("input").value)|;
        }
      }
    }

    method ConsumeContent(json: JsonText, blocks: seq<Value>)
      requires text.Valid()
      modifies this, text
      ensures text.Valid() && Now() == ConsumeBlocks(json, old(Now()), blocks)
    {
      for i := 0 to |blocks|
        invariant text.Valid() && Now() == ConsumeBlocks(json, old(Now()), blocks[..i])
      {
        assert blocks[..i + 1][..i] == blocks[..i];
        ConsumeBlockFull(json, blocks[i]);
      }
      assert blocks[..|blocks|] == blocks;
    }

    method StartBlock(block: Value)
      requires text.Valid()
      modifies this, text
      ensures text.Valid() && Now() == OnBlockStart(old(Now()), block)
    {
      var kind := OrEmpty(block.GetStr("type"));
      if kind == "text" {
        PushText(OrEmpty(block.GetStr("text")));
      } else if kind == "thinking" {
        PushThinking(OrEmpty(block.GetStr("thinking")));
      } else if kind == "tool_use" {
        PushCall(block);
      }
    }

    method TakeDelta(delta: Value)
      requires text.Valid()
      modifies this, text
      ensures text.Valid() && Now() == OnDelta(old(Now()), delta)
    {
      var kind := OrEmpty(delta.GetStr("type"));
      if kind == "text_delta" {
        PushText(OrEmpty(delta.GetStr("text")));
      } else if kind == "thinking_delta" {
        PushThinking(OrEmpty(delta.GetStr("thinking")));
      } else if kind == "input_json_delta" {
        outputChars := outputChars + |OrEmpty(delta.GetStr("partial_json"))|;
      }
    }

    method TakeModelId(message: Value)
      modifies this`responseId, this`model
      ensures Now() == Anthropic.TakeModelId(old(Now()), message)
    {
      responseId := Or(message.GetStr("id"), responseId);
      model := Or(message.GetStr("model"), model);
    }

    method HandleValue(kind: string, value: Value)
      requires text.Valid()
      modifies this, text
      ensures text.Valid() && Now() == OnValue(old(Now()), kind, value)
    {
      if kind == "message_start" {
        if value.Get("message").Some? {
          TakeModelId(value.Get("message").value);
          ConsumeUsage(value.Get("message").value.Get("usage"));
        }
      } else if kind == "content_block_start" {
        if value.Get("content_block").Some? {
          StartBlock(value.Get("content_block").value);
        }
      } else if kind == "content_block_delta" {
        if value.Get("delta").Some? {
          TakeDelta(value.Get("delta").value);
        }
      } else if kind == "message_delta" {
        stopReason := Or(NestedStr(value, "delta", "stop_reason"), stopReason);
        ConsumeUsage(value.Get("usage"));
      } else if kind == "error" {
        error := Some(match value.Get("error") case Some(e) => ErrorMessage(e) case None => "provider error");
      }
    }

    method HandleEvent(json: JsonText, event: Event)
      requires Valid()
      modifies this, text
      ensures Valid() && Now() == OnEvent(json, old(Now()), event)
    {
      EventKeepsCount(json, Now(), event);
      match ParseEventJson(json, event.data) {
        case None =>
        case Some(value) => HandleValue(OrEmpty(Or(value.GetStr("type"), event.kind)), value);
      }
    }

    method HandleBody(json: JsonText, value: Value)
      requires Valid()
      modifies this, text
      ensures Valid() && Now() == OnBodyValue(json, old(Now()), value)
    {
      BodyKeepsCount(json, Now(), value);
      if value.GetStr("type") == Some("error") {
        error := Some(match value.Get("error") case Some(e) => ErrorMessage(e) case None => "provider error");
        return;
      }
      TakeModelId(value);
      stopReason := Or(value.GetStr("stop_reason"), stopReason);
      if value.GetArray("content").Some? {
        ConsumeContent(json, value.GetArray("content").value);
      }
      ConsumeUsage(value.Get("usage"));
    }
  }
}
