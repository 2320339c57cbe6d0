/** The mutable Chat sink (`src/usage/openai_chat.rs:10-192`), proved to follow `Chat`. */
module ChatRecord {
  import opened Wrappers
  import opened Json
  import opened Usage
  import opened Sse
  import opened Chat
  import Stream

  class ChatSink {
    var model: Option<string>
    var responseId: Option<string>
    var finishReason: Option<string>
    var promptTokens: Option<nat>
    var cacheRead: Option<nat>
    var completionTokens: Option<nat>
    var reasoningExact: Option<nat>
    var builders: map<nat, Builder>
    var error: Option<string>
    const text: Stream.TextTracker
    var thinkingChars: nat
    var outputChars: nat

    ghost function Now(): State
      reads this, text
    {
      State(model, responseId, finishReason, promptTokens, cacheRead, completionTokens, reasoningExact, builders,
            error, text.full, thinkingChars, outputChars)
    }

    /** Between events: text and reasoning are what is counted. */
    ghost predicate Valid()
      reads this, text
    {
      text.Valid() && Counted(Now())
    }

    constructor ()
      ensures Valid() && Now() == EMPTY && text.Valid() && fresh(text)
    {
      model, responseId, finishReason := None, None, None;
      promptTokens, cacheRead, completionTokens, reasoningExact := None, None, None, None;
      builders, error, thinkingChars, outputChars := map[], None, 0, 0;
      text := new Stream.TextTracker();
    }

    method ConsumeUsage(usage: Value)
      modifies this`promptTokens, this`cacheRead, this`completionTokens, this`reasoningExact
      ensures Now() == Chat.ConsumeUsage(old(Now()), usage)
    {
      promptTokens := Or(usage.GetNat("prompt_tokens"), promptTokens);
      cacheRead := Or(Nested(usage, "prompt_tokens_details", "cached_tokens"), cacheRead);
      completionTokens := Or(usage.GetNat("completion_tokens"), completionTokens);
      reasoningExact := Or(Nested(usage, "completion_tokens_details", "reasoning_tokens"), reasoningExact);
    }

    method ConsumeHead(value: Value)
      modifies this
      ensures Now() == Chat.ConsumeHead(old(Now()), value)
    {
      responseId := Or(value.GetStr("id"), responseId);
      model := Or(value.GetStr("model"), model);
      if value.Get("usage").Some? {
        ConsumeUsage(value.Get("usage").value);
      }
      if FirstChoice(value).Some? {
        finishReason := Or(FirstChoice(value).value.GetStr("finish_reason"), finishReason);
      }
    }

    method ConsumeText(content: string, reasoning: string)
      requires text.Valid()
      modifies this`thinkingChars, this`outputChars, text
      ensures text.Valid() && Now() == Chat.ConsumeText(old(Now()), content, reasoning)
    {
      text.Push(content);
      outputChars := outputChars + |content|;
      thinkingChars := thinkingChars + |reasoning|;
      outputChars := outputChars + |reasoning|;
    }

    method ConsumeToolCallDelta(delta: Value)
      modifies this`builders
      ensures builders == AddFragment(old(builders), FragmentOf(delta))
    {
      var index := match delta.GetNat("index") case Some(k) => k case None => 0;
      var entry := if index in builders then builders[index] else Builder(None, None);
      if delta.GetStr("id").Some? {
        entry := entry.(id := delta.GetStr("id"));
      }
      if NestedStr(delta, "function", "name").Some? {
        entry := entry.(name := NestedStr(delta, "function", "name"));
      }
      builders := builders[index := entry];
    }

    method ConsumeToolCallDeltas(deltas: seq<Value>)
      modifies this`builders
      ensures builders == AddFragments(old(builders), FragmentsOf(deltas))
    {
      for i := 0 to |deltas|
        invariant builders == AddFragments(old(builders), FragmentsOf(deltas[..i]))
      {
        assert FragmentsOf(deltas[..i + 1])[..i] == FragmentsOf(deltas[..i]);
        ConsumeToolCallDelta(deltas[i]);
      }
      assert deltas[..|deltas|] == deltas;
    }

    method ConsumeFullToolCalls(calls: seq<Value>)
      modifies this`builders
      ensures builders == PutCalls(old(builders), calls)
    {
      for i := 0 to |calls|
        invariant builders == PutCalls(old(builders), calls[..i])
      {
        assert calls[..i + 1][..i] == calls[..i];
        builders := builders[i := Builder(calls[i].GetStr("id"), NestedStr(calls[i], "function", "name"))];
      }
      assert calls[..|calls|] == calls;
    }

    method HandleValue(value: Value, streamed: bool)
      requires text.Valid()
      modifies this, text
      ensures text.Valid() && Now() == OnValue(old(Now()), value, streamed)
    {
      if Present(value, "error").Some? {
        error := Some(ErrorMessage(Present(value, "error").value));
        return;
      }
      ConsumeHead(value);
      var part := Part(value, if streamed then "delta" else "message");
      ConsumeText(Chat.Field(part, "content"), Chat.Field(part, "reasoning"));
      if streamed {
        ConsumeToolCallDeltas(Calls(part));
      } else {
        ConsumeFullToolCalls(Calls(part));
      }
    }

    method HandleEvent(json: JsonText, event: Event)
      requires Valid()
      modifies this, text
      ensures Valid() && Now() == OnEvent(json, old(Now()), event)
    {
      match ParseEventJson(json, event.data) {
        case None =>
        case Some(value) =>
          ValueKeepsCount(Now(), value, true);
          HandleValue(value, true);
      }
    }

    method HandleBody(json: JsonText, body: seq<byte>)
      requires Valid()
      modifies this, text
      ensures Valid() && Now() == OnBody(json, old(Now()), body)
    {
      match json.parseBytes(body) {
        case None =>
        case Some(value) =>
          ValueKeepsCount(Now(), value, false);
          HandleValue(value, false);
      }
    }
  }
}
