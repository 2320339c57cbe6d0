/** The mutable Responses sink (`src/usage/openai_responses.rs:14-223`), proved to follow `Responses`. */
module ResponsesRecord {
  import opened Wrappers
  import opened Json
  import opened Usage
  import opened Sse
  import opened Responses
  import Reports
  import Stream

  class ResponsesSink {
    var model: Option<string>
    var responseId: Option<string>
    var status: Option<string>
    var incompleteReason: Option<string>
    var inputTokens: Option<nat>
    var cacheRead: Option<nat>
    var outputTokens: Option<nat>
    var reasoningExact: Option<nat>
    var toolCalls: seq<ToolCall>
    var error: Option<string>
    const text: Stream.TextTracker
    var outputChars: nat

    ghost function Now(): State
      reads this, text
    {
      State(model, responseId, status, incompleteReason, inputTokens, cacheRead, outputTokens, reasoningExact,
            toolCalls, error, text.full, outputChars)
    }

    /** Between events: the text is what is counted, and no two calls share an id. */
    ghost predicate Valid()
      reads this, text
    {
      text.Valid() && Counted(Now()) && DistinctIds(toolCalls)
    }

    constructor ()
      ensures Valid() && Now() == EMPTY && text.Valid() && fresh(text)
    {
      model, responseId, status, incompleteReason := None, None, None, None;
      inputTokens, cacheRead, outputTokens, reasoningExact := None, None, None, None;
      toolCalls, error, outputChars := [], None, 0;
      text := new Stream.TextTracker();
    }

    method PushText(t: string)
      requires text.Valid()
      modifies this`outputChars, text
      ensures text.Valid() && Now() == Responses.PushText(old(Now()), t)
    {
      text.Push(t);
      outputChars := outputChars + |t|;
    }

    method TakeModelId(resp: Value)
      modifies this`responseId, this`model
      ensures Now() == Responses.TakeModelId(old(Now()), resp)
    {
      if resp.GetStr("id").Some? {
        responseId := resp.GetStr("id");
      }
      if resp.GetStr("model").Some? {
        model := resp.GetStr("model");
      }
    }

    method ConsumeUsage(usage: Value)
      modifies this`inputTokens, this`cacheRead, this`outputTokens, this`reasoningExact
      ensures Now() == Responses.ConsumeUsage(old(Now()), Some(usage))
    {
      inputTokens := Or(usage.GetNat("input_tokens"), inputTokens);
      cacheRead := Or(Nested(usage, "input_tokens_details", "cached_tokens"), cacheRead);
      outputTokens := Or(usage.GetNat("output_tokens"), outputTokens);
      reasoningExact := Or(Nested(usage, "output_tokens_details", "reasoning_tokens"), reasoningExact);
    }

    /** A known id is looked for from the front; only its missing name is filled in. */
    method RecordCall(call: ToolCall)
      modifies this`toolCalls
      ensures toolCalls == AddCall(old(toolCalls), call)
    {
      if call.id != "" {
        for k := 0 to |toolCalls|
          invariant toolCalls == old(toolCalls)
          invariant forall j :: 0 <= j < k ==> toolCalls[j].id != call.id
        {
          if toolCalls[k].id == call.id {
            FindIs(toolCalls, call.id, k);
            if toolCalls[k].name == "" {
              toolCalls := toolCalls[k := toolCalls[k].(name := call.name)];
            }
            return;
          }
        }
      }
      toolCalls := toolCalls + [call];
    }

    method HarvestMessage(item: Value)
      requires text.Valid()
      modifies this`outputChars, text
      ensures text.Valid() && Now() == Responses.PushText(old(Now()), MessageText(item))
    {
      if item.GetStr("type") == Some("message") && item.GetArray("content").Some? {
        var parts := item.GetArray("content").value;
        for i := 0 to |parts|
          invariant text.Valid()
          invariant Now() == Responses.PushText(old(Now()), PartsText(parts[..i]))
        {
          assert parts[..i + 1][..i] == parts[..i];
          if parts[i].GetStr("type") == Some("output_text") {
            PushText(OrEmpty(parts[i].GetStr("text")));
          }
        }
        assert parts[..|parts|] == parts;
      }
    }

    method ConsumeOutputItem(item: Value, harvest: bool)
      requires text.Valid()
      modifies this`toolCalls, this`outputChars, text
      ensures text.Valid() && Now() == ConsumeItem(old(Now()), item, harvest)
    {
      match CallOf(item) {
        case Some(call) => RecordCall(call);
        case None =>
          if harvest {
            HarvestMessage(item);
          }
      }
    }

    method ConsumeOutput(items: seq<Value>, harvest: bool)
      requires text.Valid()
      modifies this`toolCalls, this`outputChars, text
      ensures text.Valid() && Now() == ConsumeItems(old(Now()), items, harvest)
    {
      for i := 0 to |items|
        invariant text.Valid() && Now() == ConsumeItems(old(Now()), items[..i], harvest)
      {
        assert items[..i + 1][..i] == items[..i];
        ConsumeOutputItem(items[i], harvest);
      }
      assert items[..|items|] == items;
    }

    /** `consume_terminal_response`, and the same statements of `on_body` with `harvest` on. */
    method ConsumeWhole(resp: Value, harvest: bool)
      requires text.Valid()
      modifies this, text
      ensures text.Valid() && Now() == ConsumeResponse(old(Now()), resp, harvest)
    {
      TakeModelId(resp);
      status := Or(resp.GetStr("status"), status);
      incompleteReason := Or(NestedStr(resp, "incomplete_details", "reason"), incompleteReason);
      if resp.Get("usage").Some? {
        ConsumeUsage(resp.Get("usage").value);
      }
      assert Now() == ConsumeHead(old(Now()), resp);
      ConsumeOutput(Output(resp), harvest);
      if Present(resp, "error").Some? {
        error := Some(ErrorMessage(Present(resp, "error").value));
      }
    }

    method HandleValue(kind: string, value: Value)
      requires text.Valid()
      modifies this, text
      ensures text.Valid() && Now() == OnValue(old(Now()), kind, value)
    {
      if kind == "response.output_item.done" {
        if value.Get("item").Some? {
          ConsumeOutputItem(value.Get("item").value, false);
        }
      } else if kind == "response.created" || kind == "response.in_progress" {
        if value.Get("response").Some? {
          var resp := value.Get("response").value;
          TakeModelId(resp);
          status := Or(resp.GetStr("status"), status);
        }
      } else if kind == "response.output_text.delta" {
        if value.GetStr("delta").Some? {
          PushText(value.GetStr("delta").value);
        }
      } else if kind == "response.completed" || kind == "response.incomplete" || kind == "response.failed" {
        if value.Get("response").Some? {
          ConsumeWhole(value.Get("response").value, false);
        }
        if kind == "response.failed" {
          if Present(value, "error").Some? {
            error := Some(ErrorMessage(Present(value, "error").value));
          } else if error.None? {
            error := Some("response failed");
          }
        }
      }
    }

    method HandleEvent(json: JsonText, event: Event)
      requires Valid()
      modifies this, text
      ensures Valid() && Now() == OnEvent(json, old(Now()), event)
    {
      EventKeepsCount(json, Now(), event);
      EventKeepsDistinct(json, Now(), event);
      match ParseEventJson(json, event.data) {
        case None =>
        case Some(value) => HandleValue(Reports.KindOf(value, event), value);
      }
    }

    method HandleBody(json: JsonText, body: seq<byte>)
      requires Valid()
      modifies this, text
      ensures Valid() && Now() == OnBody(json, old(Now()), body)
    {
      BodyKeeps(json, Now(), body);
      match json.parseBytes(body) {
        case None =>
        case Some(value) => ConsumeWhole(value, true);
      }
    }
  }
}
