/** What one model response amounts to (`src/usage/mod.rs`), and the JSON readings every wire's sink uses. */
module Usage {
  import opened Wrappers
  import opened Json
  import opened Pings

  datatype Tokens = Tokens(input: Option<nat>, output: Option<nat>, cacheRead: Option<nat>, cacheWrite: Option<nat>,
                           reasoning: Option<nat>, reasoningEstimated: bool)

  datatype ToolCall = ToolCall(id: string, name: string)

  datatype Summary = Summary(model: Option<string>, responseId: Option<string>, stopReason: Option<string>, usage: Tokens,
                             toolCalls: seq<ToolCall>, turnEnd: bool, text: string, error: Option<string>)

  /** JSON parsing and printing, which the model does not look into. */
  datatype JsonText = JsonText(parse: string -> Option<Value>, parseBytes: seq<int> -> Option<Value>,
                               render: Value -> string)

  function TrimEnd(text: string): string {
    if text != [] && IsWhitespace(text[|text| - 1]) then TrimEnd(text[..|text| - 1]) else text
  }

  /** The `[DONE]` sentinel and malformed data are ignored. */
  function ParseEventJson(json: JsonText, data: string): Option<Value> {
    if TrimEnd(TrimStart(data)) == "[DONE]" then None else json.parse(data)
  }

  predicate Blank(text: string) {
    forall c :: c in text ==> IsWhitespace(c)
  }

  lemma {:induction false} BlankInFront(blank: string, text: string)
    requires Blank(blank) && text != "" && !IsWhitespace(text[0])
    ensures TrimStart(blank + text) == text
  {
    if blank == "" {
      assert blank + text == text;
    } else {
      assert (blank + text)[1..] == blank[1..] + text;
      BlankInFront(blank[1..], text);
    }
  }

  lemma {:induction false} BlankBehind(text: string, blank: string)
    requires Blank(blank) && text != "" && !IsWhitespace(text[|text| - 1])
    ensures TrimEnd(text + blank) == text
  {
    if blank == "" {
      assert text + blank == text;
    } else {
      assert (text + blank)[..|text + blank| - 1] == text + blank[..|blank| - 1];
      BlankBehind(text, blank[..|blank| - 1]);
    }
  }

  /** The sentinel says nothing, with any whitespace around it and whatever the JSON reader makes of it. */
  lemma DoneIsIgnored(json: JsonText, before: string, after: string)
    requires Blank(before) && Blank(after)
    ensures ParseEventJson(json, before + "[DONE]" + after) == None
  {
    assert before + "[DONE]" + after == before + ("[DONE]" + after);
    BlankInFront(before, "[DONE]" + after);
    BlankBehind("[DONE]", after);
  }

  /** `if let Some(v) = new { old = Some(v) }` */
  function Or<T>(new': Option<T>, old': Option<T>): Option<T> {
    if new'.Some? then new' else old'
  }

  function OrEmpty(text: Option<string>): string {
    match text case Some(t) => t case None => ""
  }

  /** `value.get(key).filter(|e| !e.is_null())` */
  function Present(value: Value, key: string): Option<Value> {
    match value.Get(key)
    case Some(Null) => None
    case other => other
  }

  function Nested(value: Value, key: string, inner: string): Option<nat> {
    match value.Get(key) case Some(v) => v.GetNat(inner) case None => None
  }

  function NestedStr(value: Value, key: string, inner: string): Option<string> {
    match value.Get(key) case Some(v) => v.GetStr(inner) case None => None
  }

  function ErrorMessage(error: Value): string {
    if error.GetStr("message").Some? then error.GetStr("message").value
    else if error.GetStr("type").Some? then error.GetStr("type").value
    else if error.String? then error.s
    else "provider error"
  }

  function ErrorOf(error: Option<Value>): Option<string> {
    match error case Some(e) => Some(ErrorMessage(e)) case None => None
  }

  /** What an error says: its message, or its type, or it is a bare text; anything else is a provider's error. */
  predicate Tells(error: Value, told: string) {
    match error
    case String(text) => told == text
    case _ =>
      match (error.GetStr("message"), error.GetStr("type"))
      case (Some(message), _) => told == message
      case (None, Some(kind)) => told == kind
      case (None, None) => told == "provider error"
  }

  lemma ErrorTells(error: Value)
    ensures Tells(error, ErrorMessage(error))
  {
  }
}
