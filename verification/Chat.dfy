/**
 The OpenAI Chat sink (`src/usage/openai_chat.rs`): tool calls arrive as fragments under an array index, text and
 reasoning as deltas. The fragments may come in any order; what is reported depends only on what was supplied.
 */
module Chat {
  import opened Wrappers
  import opened Json
  import opened Usage
  import opened Sse
  import Stream

  datatype Builder = Builder(id: Option<string>, name: Option<string>)

  datatype State = State(
    model: Option<string>,
    responseId: Option<string>,
    finishReason: Option<string>,
    promptTokens: Option<nat>,
    cacheRead: Option<nat>,
    completionTokens: Option<nat>,
    reasoningExact: Option<nat>,
    builders: map<nat, Builder>,
    error: Option<string>,
    text: string,
    thinkingChars: nat,
    outputChars: nat)

  const EMPTY := State(None, None, None, None, None, None, None, map[], None, "", 0, 0)

  // ---------- fragments ----------

  datatype Fragment = Fragment(index: nat, id: Option<string>, name: Option<string>)

  function FragmentOf(delta: Value): Fragment {
    Fragment(match delta.GetNat("index") case Some(k) => k case None => 0,
             delta.GetStr("id"), NestedStr(delta, "function", "name"))
  }

  function FragmentsOf(deltas: seq<Value>): seq<Fragment> {
    seq(|deltas|, i requires 0 <= i < |deltas| => FragmentOf(deltas[i]))
  }

  function BuilderAt(builders: map<nat, Builder>, index: nat): Builder {
    if index in builders then builders[index] else Builder(None, None)
  }

  /** A delta creates its index's builder if need be, and overwrites what it carries. */
  function AddFragment(builders: map<nat, Builder>, f: Fragment): map<nat, Builder> {
    var b := BuilderAt(builders, f.index);
    builders[f.index := Builder(Or(f.id, b.id), Or(f.name, b.name))]
  }

  function AddFragments(builders: map<nat, Builder>, fs: seq<Fragment>): map<nat, Builder> {
    if fs == [] then builders else AddFragment(AddFragments(builders, fs[..|fs| - 1]), fs[|fs| - 1])
  }

  /** The calls of a whole message, each replacing what its position held. */
  function PutCalls(builders: map<nat, Builder>, calls: seq<Value>): map<nat, Builder> {
    if calls == [] then builders else
    var last := calls[|calls| - 1];
    PutCalls(builders, calls[..|calls| - 1])[|calls| - 1 := Builder(last.GetStr("id"), NestedStr(last, "function", "name"))]
  }

  // ---------- consuming ----------

  function ConsumeUsage(s: State, usage: Value): State {
    s.(promptTokens := Or(usage.GetNat("prompt_tokens"), s.promptTokens),
       cacheRead := Or(Nested(usage, "prompt_tokens_details", "cached_tokens"), s.cacheRead),
       completionTokens := Or(usage.GetNat("completion_tokens"), s.completionTokens),
       reasoningExact := Or(Nested(usage, "completion_tokens_details", "reasoning_tokens"), s.reasoningExact))
  }

  function FirstChoice(value: Value): Option<Value> {
    match value.GetArray("choices")
    case Some(choices) => if choices == [] then None else Some(choices[0])
    case None => None
  }

  /** Identity, usage and finish reason, which an event and a body carry alike. */
  function ConsumeHead(s: State, value: Value): State {
    var named := s.(responseId := Or(value.GetStr("id"), s.responseId), model := Or(value.GetStr("model"), s.model));
    var used := match value.Get("usage") case Some(u) => ConsumeUsage(named, u) case None => named;
    match FirstChoice(value)
    case Some(choice) => used.(finishReason := Or(choice.GetStr("finish_reason"), used.finishReason))
    case None => used
  }

  /** The part of an event (`delta`) or a body (`message`) that carries the message. */
  function Part(value: Value, key: string): Option<Value> {
    match FirstChoice(value) case Some(choice) => choice.Get(key) case None => None
  }

  function Field(part: Option<Value>, key: string): string {
    match part case Some(p) => OrEmpty(p.GetStr(key)) case None => ""
  }

  function Calls(part: Option<Value>): seq<Value> {
    match part
    case Some(p) => (match p.GetArray("tool_calls") case Some(calls) => calls case None => [])
    case None => []
  }

  function ConsumeText(s: State, content: string, reasoning: string): State {
    s.(text := s.text + content, thinkingChars := s.thinkingChars + |reasoning|,
       outputChars := s.outputChars + |content| + |reasoning|)
  }

  function OnValue(s: State, value: Value, streamed: bool): State {
    if Present(value, "error").Some? then s.(error := ErrorOf(Present(value, "error"))) else
    var part := Part(value, if streamed then "delta" else "message");
    var said := ConsumeText(ConsumeHead(s, value), Field(part, "content"), Field(part, "reasoning"));
    said.(builders := if streamed then AddFragments(said.builders, FragmentsOf(Calls(part)))
                      else PutCalls(said.builders, Calls(part)))
  }

  function OnEvent(json: JsonText, s: State, event: Event): State {
    match ParseEventJson(json, event.data) case None => s case Some(value) => OnValue(s, value, true)
  }

  function OnBody(json: JsonText, s: State, body: seq<byte>): State {
    match json.parseBytes(body) case None => s case Some(value) => OnValue(s, value, false)
  }

  /** The builders below `n` that have an id or a name, in index order. */
  function ToolCallsBelow(builders: map<nat, Builder>, n: nat): seq<ToolCall> {
    if n == 0 then [] else
    var b := BuilderAt(builders, n - 1);
    ToolCallsBelow(builders, n - 1) + (if b.id.Some? || b.name.Some? then [ToolCall(OrEmpty(b.id), OrEmpty(b.name))] else [])
  }

  /** One past the largest of a set of indices. */
  ghost function Bound(indices: set<nat>): (n: nat)
    ensures forall k :: k in indices ==> k < n
  {
    if indices == {} then 0 else
    var k :| k in indices;
    var rest := Bound(indices - {k});
    assert forall j :: j in indices ==> j == k || j in indices - {k};
    if k < rest then rest else k + 1
  }

  function Reasoning(s: State): (Option<nat>, bool) {
    if s.reasoningExact.Some? then (s.reasoningExact, false)
    else if s.thinkingChars > 0 then (Some(s.thinkingChars / 4), true)
    else (None, false)
  }

  ghost function IntoSummary(s: State): Summary {
    var (tokens, estimated) := Reasoning(s);
    Summary(s.model, s.responseId, s.finishReason,
            Tokens(s.promptTokens, s.completionTokens, s.cacheRead, None, tokens, estimated),
            ToolCallsBelow(s.builders, Bound(s.builders.Keys)), s.finishReason == Some("stop"), s.text, s.error)
  }

  function TheSink(json: JsonText): Stream.Sink<State> {
    Stream.Sink((s, event) => OnEvent(json, s, event), (s, body) => OnBody(json, s, body), (s: State) => s.outputChars,
                (s: State) => Stream.LastChars(s.text, Stream.TAIL_CHARS))
  }

  ghost predicate Counted(s: State) {
    s.outputChars == |s.text| + s.thinkingChars
  }

  lemma ValueKeepsCount(s: State, value: Value, streamed: bool)
    requires Counted(s)
    ensures Counted(OnValue(s, value, streamed))
  {
  }

  // ---------- what a set of fragments amounts to ----------

  /** The last id, or name, any fragment supplied for an index. */
  function LastId(fs: seq<Fragment>, index: nat): Option<string> {
    if fs == [] then None
    else if fs[|fs| - 1].index == index && fs[|fs| - 1].id.Some? then fs[|fs| - 1].id
    else LastId(fs[..|fs| - 1], index)
  }

  function LastName(fs: seq<Fragment>, index: nat): Option<string> {
    if fs == [] then None
    else if fs[|fs| - 1].index == index && fs[|fs| - 1].name.Some? then fs[|fs| - 1].name
    else LastName(fs[..|fs| - 1], index)
  }

  lemma {:induction false} FragmentsAmountTo(fs: seq<Fragment>, index: nat)
    ensures BuilderAt(AddFragments(map[], fs), index) == Builder(LastId(fs, index), LastName(fs, index))
  {
    if fs != [] {
      FragmentsAmountTo(fs[..|fs| - 1], index);
    }
  }

  lemma {:induction false} AddFragmentsConcat(builders: map<nat, Builder>, a: seq<Fragment>, b: seq<Fragment>)
    ensures AddFragments(builders, a + b) == AddFragments(AddFragments(builders, a), b)
  {
    if b == [] {
      assert a + b == a;
    } else {
      assert (a + b)[..|a + b| - 1] == a + b[..|b| - 1];
      AddFragmentsConcat(builders, a, b[..|b| - 1]);
    }
  }

  lemma {:induction false} PutCallsAt(calls: seq<Value>, index: nat)
    ensures BuilderAt(PutCalls(map[], calls), index)
         == if index < |calls| then Builder(calls[index].GetStr("id"), NestedStr(calls[index], "function", "name"))
            else Builder(None, None)
  {
    if calls != [] {
      PutCallsAt(calls[..|calls| - 1], index);
    }
  }

  /** The reported calls depend only on what each index holds. */
  lemma {:induction false} SameBuildersSameCalls(a: map<nat, Builder>, b: map<nat, Builder>, m: nat, n: nat)
    requires forall k: nat :: BuilderAt(a, k) == BuilderAt(b, k)
    requires (forall k :: k in a ==> k < m) && (forall k :: k in b ==> k < n)
    ensures ToolCallsBelow(a, m) == ToolCallsBelow(b, n)
    decreases m + n
  {
    if m > n {
      assert BuilderAt(a, m - 1) == BuilderAt(b, m - 1) == Builder(None, None);
      ShrinkCalls(a, m);
      SameBuildersSameCallsBelow(a, b, n);
      CallsStopAt(a, b, n, m);
    } else {
      SameBuildersSameCallsBelow(a, b, m);
      CallsStopAt(b, a, m, n);
    }
  }

  lemma ShrinkCalls(a: map<nat, Builder>, m: nat)
    requires m > 0 && BuilderAt(a, m - 1) == Builder(None, None)
    ensures ToolCallsBelow(a, m) == ToolCallsBelow(a, m - 1)
  {
  }

  lemma {:induction false} SameBuildersSameCallsBelow(a: map<nat, Builder>, b: map<nat, Builder>, n: nat)
    requires forall k: nat :: BuilderAt(a, k) == BuilderAt(b, k)
    ensures ToolCallsBelow(a, n) == ToolCallsBelow(b, n)
  {
    if n > 0 {
      SameBuildersSameCallsBelow(a, b, n - 1);
      assert BuilderAt(a, n - 1) == BuilderAt(b, n - 1);
    }
  }

  lemma {:induction false} CallsStopAt(a: map<nat, Builder>, b: map<nat, Builder>, n: nat, m: nat)
    requires forall k: nat :: BuilderAt(a, k) == BuilderAt(b, k)
    requires n <= m && forall k :: k in b ==> k < n
    ensures ToolCallsBelow(a, m) == ToolCallsBelow(a, n)
  {
    if n < m {
      assert BuilderAt(a, m - 1) == BuilderAt(b, m - 1) == Builder(None, None);
      ShrinkCalls(a, m);
      CallsStopAt(a, b, n, m - 1);
    }
  }

  // ---------- a fragmented stream against the whole message ----------

  function ConsumeValues(s: State, values: seq<Value>): State {
    if values == [] then s else OnValue(ConsumeValues(s, values[..|values| - 1]), values[|values| - 1], true)
  }

  /** What the deltas of a stream add up to; a value that carries an error supplies nothing else. */
  datatype Supplied = Supplied(content: string, reasoningChars: nat, fragments: seq<Fragment>,
                               finish: Option<string>, exact: Option<nat>)

  function FinishOf(value: Value): Option<string> {
    match FirstChoice(value) case Some(choice) => choice.GetStr("finish_reason") case None => None
  }

  function ExactOf(value: Value): Option<nat> {
    match value.Get("usage") case Some(u) => Nested(u, "completion_tokens_details", "reasoning_tokens") case None => None
  }

  function SuppliedBy(values: seq<Value>): Supplied {
    if values == [] then Supplied("", 0, [], None, None) else
    var before, last := SuppliedBy(values[..|values| - 1]), values[|values| - 1];
    if Present(last, "error").Some? then before else
    var part := Part(last, "delta");
    Supplied(before.content + Field(part, "content"), before.reasoningChars + |Field(part, "reasoning")|,
             before.fragments + FragmentsOf(Calls(part)), Or(FinishOf(last), before.finish), Or(ExactOf(last), before.exact))
  }

  lemma {:induction false} StreamHoldsWhatWasSupplied(values: seq<Value>)
    ensures var s, supplied := ConsumeValues(EMPTY, values), SuppliedBy(values);
            && s.text == supplied.content && s.thinkingChars == supplied.reasoningChars
            && s.builders == AddFragments(map[], supplied.fragments)
            && s.finishReason == supplied.finish && s.reasoningExact == supplied.exact
  {
    if values != [] {
      var shorter, last := values[..|values| - 1], values[|values| - 1];
      StreamHoldsWhatWasSupplied(shorter);
      if Present(last, "error").None? {
        ValueAdds(ConsumeValues(EMPTY, shorter), last);
        AddFragmentsConcat(map[], SuppliedBy(shorter).fragments, FragmentsOf(Calls(Part(last, "delta"))));
      }
    }
  }

  lemma ValueAdds(s: State, value: Value)
    requires Present(value, "error").None?
    ensures var after, part := OnValue(s, value, true), Part(value, "delta");
            && after.text == s.text + Field(part, "content")
            && after.thinkingChars == s.thinkingChars + |Field(part, "reasoning")|
            && after.builders == AddFragments(s.builders, FragmentsOf(Calls(part)))
            && after.finishReason == Or(FinishOf(value), s.finishReason)
            && after.reasoningExact == Or(ExactOf(value), s.reasoningExact)
  {
  }

  /** Every tool index of the message gets its id and name, and no other index appears. */
  ghost predicate Covers(fragments: seq<Fragment>, calls: seq<Value>) {
    && (forall f :: f in fragments ==> f.index < |calls|)
    && (forall k :: 0 <= k < |calls| ==>
          LastId(fragments, k) == calls[k].GetStr("id") && LastName(fragments, k) == NestedStr(calls[k], "function", "name"))
  }

  lemma {:induction false} NothingPastTheEnd(fragments: seq<Fragment>, n: nat, index: nat)
    requires index >= n && forall f :: f in fragments ==> f.index < n
    ensures LastId(fragments, index) == None && LastName(fragments, index) == None
  {
    if fragments != [] {
      NothingPastTheEnd(fragments[..|fragments| - 1], n, index);
    }
  }

  /**
   However a message is cut into deltas - its tool fragments in any order and any number of pieces, its content and
   reasoning in pieces that add up to the same - the summary reports the tool calls, text, reasoning count and end of turn
   that the whole message in one body reports.
   */
  lemma FragmentationDoesNotMatter(values: seq<Value>, whole: Value)
    requires Present(whole, "error").None?
    requires var supplied, part := SuppliedBy(values), Part(whole, "message");
             && supplied.content == Field(part, "content")
             && supplied.reasoningChars == |Field(part, "reasoning")|
             && Covers(supplied.fragments, Calls(part))
             && supplied.finish == FinishOf(whole) && supplied.exact == ExactOf(whole)
    ensures var streamed, body := IntoSummary(ConsumeValues(EMPTY, values)), IntoSummary(OnValue(EMPTY, whole, false));
            && streamed.toolCalls == body.toolCalls
            && streamed.text == body.text
            && streamed.usage.reasoning == body.usage.reasoning
            && streamed.usage.reasoningEstimated == body.usage.reasoningEstimated
            && streamed.turnEnd == body.turnEnd
  {
    var fragments, calls := SuppliedBy(values).fragments, Calls(Part(whole, "message"));
    StreamHoldsWhatWasSupplied(values);
    BodyHolds(whole);
    var a, b := AddFragments(map[], fragments), PutCalls(map[], calls);
    forall k: nat
      ensures BuilderAt(a, k) == BuilderAt(b, k)
    {
      FragmentsAmountTo(fragments, k);
      PutCallsAt(calls, k);
      if k >= |calls| {
        NothingPastTheEnd(fragments, |calls|, k);
      }
    }
    SameBuildersSameCalls(a, b, Bound(a.Keys), Bound(b.Keys));
  }

  lemma BodyHolds(whole: Value)
    requires Present(whole, "error").None?
    ensures var s, part := OnValue(EMPTY, whole, false), Part(whole, "message");
            && s.text == Field(part, "content") && s.thinkingChars == |Field(part, "reasoning")|
            && s.builders == PutCalls(map[], Calls(part))
            && s.finishReason == FinishOf(whole) && s.reasoningExact == ExactOf(whole)
  {
  }

  /** The same for the events of a stream; `[DONE]` and malformed events count for nothing. */
  lemma {:induction false} EventsAreTheirValues(json: JsonText, events: seq<Event>)
    ensures Stream.Consume(TheSink(json), EMPTY, events) == ConsumeValues(EMPTY, ValuesOf(json, events))
  {
    if events != [] {
      EventsAreTheirValues(json, events[..|events| - 1]);
      var values := ValuesOf(json, events[..|events| - 1]);
      var last := ParseEventJson(json, events[|events| - 1].data);
      if last.Some? {
        assert (values + [last.value])[..|values|] == values;
      }
    }
  }

  function ValuesOf(json: JsonText, events: seq<Event>): seq<Value> {
    if events == [] then []
    else match ParseEventJson(json, events[|events| - 1].data)
      case Some(value) => ValuesOf(json, events[..|events| - 1]) + [value]
      case None => ValuesOf(json, events[..|events| - 1])
  }
}
