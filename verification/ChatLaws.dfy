/** What the summary of a Chat response says about it (`src/usage/openai_chat.rs:71-192`), in whatever order its fragments come. */
module ChatLaws {
  import opened Wrappers
  import opened Json
  import opened Usage
  import opened Sse
  import opened Reports
  import opened Chat
  import opened Texts
  import Stream

  // ---------- what one event says ----------

  /** A document that carries an error says nothing else. */
  predicate IsError(value: Value) {
    value.Get("error").Some? && value.Get("error") != Some(Null)
  }

  function ChoiceIn(value: Value): Option<Value> {
    match value.GetArray("choices")
    case Some(choices) => if |choices| > 0 && !IsError(value) then Some(choices[0]) else None
    case None => None
  }

  function DeltaIn(value: Value): Option<Value> {
    match ChoiceIn(value) case Some(choice) => choice.Get("delta") case None => None
  }

  function UsageIn(value: Value): Option<Value> {
    if IsError(value) then None else value.Get("usage")
  }

  function DeepIn(part: Option<Value>, key: string, inner: string): Option<nat> {
    match part case Some(v) => Nested(v, key, inner) case None => None
  }

  function NameIn(value: Value, key: string): Option<string> {
    if IsError(value) then None else value.GetStr(key)
  }

  function ErrorIn(value: Value): Option<string> {
    if IsError(value) then Some(ErrorMessage(value.Get("error").value)) else None
  }

  function CallsIn(value: Value): seq<Value> {
    match DeltaIn(value)
    case Some(delta) => (match delta.GetArray("tool_calls") case Some(calls) => calls case None => [])
    case None => []
  }

  /** A piece of a call: the index it belongs to, the first one by default, and an id or a name if it brings one. */
  function PieceOf(call: Value): Fragment {
    Fragment(if call.GetNat("index").Some? then call.GetNat("index").value else 0, call.GetStr("id"),
             match call.Get("function") case Some(f) => f.GetStr("name") case None => None)
  }

  function PiecesOf(calls: seq<Value>): seq<Fragment> {
    seq(|calls|, i requires 0 <= i < |calls| => PieceOf(calls[i]))
  }

  // ---------- the same as readings of events ----------

  function Finish(json: JsonText): Event -> Option<string> {
    Said(json, (kind, value) => StrIn(ChoiceIn(value), "finish_reason"))
  }

  function Words(json: JsonText, key: string): Event -> Option<string> {
    Said(json, (kind, value) => StrIn(DeltaIn(value), key))
  }

  function Count(json: JsonText, key: string): Event -> Option<nat> {
    Said(json, (kind, value) => NatIn(UsageIn(value), key))
  }

  function Deep(json: JsonText, key: string, inner: string): Event -> Option<nat> {
    Said(json, (kind, value) => DeepIn(UsageIn(value), key, inner))
  }

  function Named(json: JsonText, key: string): Event -> Option<string> {
    Said(json, (kind, value) => NameIn(value, key))
  }

  function Failure(json: JsonText): Event -> Option<string> {
    Said(json, (kind, value) => ErrorIn(value))
  }

  function PiecesIn(json: JsonText, event: Event): seq<Fragment> {
    match ParseEventJson(json, event.data) case Some(value) => PiecesOf(CallsIn(value)) case None => []
  }

  /** All pieces of calls a stream brings. */
  function AllPieces(json: JsonText, events: seq<Event>): seq<Fragment> {
    if events == [] then [] else
    AllPieces(json, events[..|events| - 1]) + PiecesIn(json, events[|events| - 1])
  }

  function Total(texts: seq<string>): nat {
    if texts == [] then 0 else Total(texts[..|texts| - 1]) + |texts[|texts| - 1]|
  }

  // ---------- one event ----------

  predicate ReportsFollow(s: State, after: State, value: Value) {
    && after.finishReason == Or(StrIn(ChoiceIn(value), "finish_reason"), s.finishReason)
    && after.promptTokens == Or(NatIn(UsageIn(value), "prompt_tokens"), s.promptTokens)
    && after.completionTokens == Or(NatIn(UsageIn(value), "completion_tokens"), s.completionTokens)
    && after.cacheRead == Or(DeepIn(UsageIn(value), "prompt_tokens_details", "cached_tokens"), s.cacheRead)
    && after.reasoningExact == Or(DeepIn(UsageIn(value), "completion_tokens_details", "reasoning_tokens"), s.reasoningExact)
    && after.model == Or(NameIn(value, "model"), s.model) && after.responseId == Or(NameIn(value, "id"), s.responseId)
    && after.error == Or(ErrorIn(value), s.error)
  }

  predicate PiecesFollow(s: State, after: State, value: Value) {
    && after.text == s.text + OrEmpty(StrIn(DeltaIn(value), "content"))
    && after.thinkingChars == s.thinkingChars + |OrEmpty(StrIn(DeltaIn(value), "reasoning"))|
    && after.builders == AddFragments(s.builders, PiecesOf(CallsIn(value)))
  }

  lemma ValueReports(s: State, value: Value, streamed: bool)
    ensures ReportsFollow(s, OnValue(s, value, streamed), value)
  {
  }

  lemma SamePart(value: Value)
    ensures Present(value, "error").Some? <==> IsError(value)
    ensures !IsError(value) ==> Part(value, "delta") == DeltaIn(value) && Calls(Part(value, "delta")) == CallsIn(value)
    ensures IsError(value) ==> DeltaIn(value) == None && CallsIn(value) == []
  {
  }

  lemma SamePieces(calls: seq<Value>)
    ensures PiecesOf(calls) == FragmentsOf(calls)
  {
  }

  lemma ValueBrings(s: State, value: Value)
    ensures PiecesFollow(s, OnValue(s, value, true), value)
  {
    SamePart(value);
    SamePieces(CallsIn(value));
    if IsError(value) {
      assert s.text + "" == s.text;
    } else {
      ValueAdds(s, value);
    }
  }

  // ---------- a whole stream ----------

  predicate HoldsReports(json: JsonText, s: State, events: seq<Event>) {
    && s.finishReason == Latest(events, Finish(json))
    && s.promptTokens == Latest(events, Count(json, "prompt_tokens"))
    && s.completionTokens == Latest(events, Count(json, "completion_tokens"))
    && s.cacheRead == Latest(events, Deep(json, "prompt_tokens_details", "cached_tokens"))
    && s.reasoningExact == Latest(events, Deep(json, "completion_tokens_details", "reasoning_tokens"))
    && s.model == Latest(events, Named(json, "model")) && s.responseId == Latest(events, Named(json, "id"))
    && s.error == Latest(events, Failure(json))
  }

  ghost predicate HoldsPieces(json: JsonText, s: State, events: seq<Event>) {
    && Joins(s.text, Sayings(events, Words(json, "content")), "")
    && s.thinkingChars == Total(Sayings(events, Words(json, "reasoning")))
    && s.builders == AddFragments(map[], AllPieces(json, events))
  }

  predicate ReportsFollowEvent(json: JsonText, s: State, e: Event, after: State) {
    match ParseEventJson(json, e.data) case Some(value) => ReportsFollow(s, after, value) case None => after == s
  }

  predicate PiecesFollowEvent(json: JsonText, s: State, e: Event, after: State) {
    && after.text == s.text + OrEmpty(Words(json, "content")(e))
    && after.thinkingChars == s.thinkingChars + |OrEmpty(Words(json, "reasoning")(e))|
    && after.builders == AddFragments(s.builders, PiecesIn(json, e))
  }

  lemma EventFollows(json: JsonText, s: State, e: Event)
    ensures ReportsFollowEvent(json, s, e, OnEvent(json, s, e)) && PiecesFollowEvent(json, s, e, OnEvent(json, s, e))
  {
    match ParseEventJson(json, e.data)
    case Some(value) =>
      ValueReports(s, value, true);
      ValueBrings(s, value);
    case None => assert s.text + "" == s.text;
  }

  lemma ReportsOnwards(json: JsonText, s: State, events: seq<Event>, e: Event, after: State)
    requires HoldsReports(json, s, events) && ReportsFollowEvent(json, s, e, after)
    ensures HoldsReports(json, after, events + [e])
  {
    assert (events + [e])[..|events|] == events;
  }

  lemma PiecesOnwards(json: JsonText, s: State, events: seq<Event>, e: Event, after: State)
    requires HoldsPieces(json, s, events) && PiecesFollowEvent(json, s, e, after)
    ensures HoldsPieces(json, after, events + [e])
  {
    WordsOnwards(s.text, events, e, Words(json, "content"));
    ThoughtOnwards(events, e, Words(json, "reasoning"));
    AllPiecesSnoc(json, events, e);
  }

  lemma WordsOnwards(text: string, events: seq<Event>, e: Event, words: Event -> Option<string>)
    requires Joins(text, Sayings(events, words), "")
    ensures Joins(text + OrEmpty(words(e)), Sayings(events + [e], words), "")
  {
    SayingsSnoc(events, e, words);
    match words(e)
    case Some(more) => JoinsNext(text, Sayings(events, words), more);
    case None => NothingMore(text, Sayings(events, words));
  }

  lemma NothingMore(text: string, said: seq<string>)
    ensures text + "" == text && said + [] == said
  {
  }

  lemma ThoughtOnwards(events: seq<Event>, e: Event, words: Event -> Option<string>)
    ensures Total(Sayings(events + [e], words)) == Total(Sayings(events, words)) + |OrEmpty(words(e))|
  {
    var said := Sayings(events, words);
    SayingsSnoc(events, e, words);
    assert said + [] == said;
    if words(e).Some? {
      assert (said + [words(e).value])[..|said|] == said;
    }
  }

  lemma AllPiecesSnoc(json: JsonText, events: seq<Event>, e: Event)
    ensures AddFragments(map[], AllPieces(json, events + [e]))
         == AddFragments(AddFragments(map[], AllPieces(json, events)), PiecesIn(json, e))
  {
    assert (events + [e])[..|events|] == events;
    AddFragmentsConcat(map[], AllPieces(json, events), PiecesIn(json, e));
  }

  lemma StepHolds(json: JsonText, s: State, events: seq<Event>, e: Event)
    requires HoldsReports(json, s, events) && HoldsPieces(json, s, events)
    ensures HoldsReports(json, OnEvent(json, s, e), events + [e]) && HoldsPieces(json, OnEvent(json, s, e), events + [e])
  {
    EventFollows(json, s, e);
    ReportsOnwards(json, s, events, e, OnEvent(json, s, e));
    PiecesOnwards(json, s, events, e, OnEvent(json, s, e));
  }

  lemma StreamHolds(json: JsonText, events: seq<Event>)
    ensures var s := Stream.Consume(TheSink(json), EMPTY, events);
      HoldsReports(json, s, events) && HoldsPieces(json, s, events)
  {
    JoinsNothing("");
    assert HoldsReports(json, EMPTY, []) && HoldsPieces(json, EMPTY, []);
    forall s: State, before: seq<Event>, e: Event | HoldsReports(json, s, before) && HoldsPieces(json, s, before)
      ensures var after := TheSink(json).onEvent(s, e);
        HoldsReports(json, after, before + [e]) && HoldsPieces(json, after, before + [e]) {
      StepHolds(json, s, before, e);
    }
    StreamKeeps(TheSink(json), EMPTY, events,
                (s: State, before: seq<Event>) => HoldsReports(json, s, before) && HoldsPieces(json, s, before));
  }

  // ---------- the calls that are reported ----------

  /** Whether any piece gave the call at an index an id or a name. */
  predicate IsGiven(pieces: seq<Fragment>, index: nat) {
    LastId(pieces, index).Some? || LastName(pieces, index).Some?
  }

  /** The calls that pieces amount to: in the order of their indices, each with the last id and the last name it was given. */
  ghost predicate AreReported(calls: seq<ToolCall>, pieces: seq<Fragment>, at: seq<nat>) {
    && |at| == |calls| && Increasing(at)
    && (forall k :: 0 <= k < |at| ==>
          IsGiven(pieces, at[k]) && calls[k] == ToolCall(OrEmpty(LastId(pieces, at[k])), OrEmpty(LastName(pieces, at[k]))))
    && (forall i: nat :: IsGiven(pieces, i) ==> i in at)
  }

  /** Calls that are reported for some indices. */
  ghost predicate Reported(calls: seq<ToolCall>, pieces: seq<Fragment>) {
    exists at: seq<nat> :: AreReported(calls, pieces, at)
  }

  /** The indices below `n` that were given something. */
  function Given(pieces: seq<Fragment>, n: nat): (at: seq<nat>)
    ensures Increasing(at) && forall i: nat :: i in at <==> i < n && IsGiven(pieces, i)
  {
    if n == 0 then [] else
    var front := Given(pieces, n - 1);
    assert forall k :: 0 <= k < |front| ==> front[k] in front;
    if IsGiven(pieces, n - 1) then front + [n - 1] else front
  }

  lemma {:induction false} CallsBelow(pieces: seq<Fragment>, n: nat)
    ensures var calls, at := ToolCallsBelow(AddFragments(map[], pieces), n), Given(pieces, n);
      && |calls| == |at|
      && forall k :: 0 <= k < |at| ==>
           calls[k] == ToolCall(OrEmpty(LastId(pieces, at[k])), OrEmpty(LastName(pieces, at[k])))
  {
    if n > 0 {
      CallsBelow(pieces, n - 1);
      FragmentsAmountTo(pieces, n - 1);
    }
  }

  lemma GivenAreBelow(pieces: seq<Fragment>, index: nat)
    requires IsGiven(pieces, index)
    ensures index < Bound(AddFragments(map[], pieces).Keys)
  {
    FragmentsAmountTo(pieces, index);
    assert index in AddFragments(map[], pieces).Keys;
  }

  lemma CallsAreReported(pieces: seq<Fragment>)
    ensures var builders := AddFragments(map[], pieces);
      Reported(ToolCallsBelow(builders, Bound(builders.Keys)), pieces)
  {
    var builders := AddFragments(map[], pieces);
    CallsBelow(pieces, Bound(builders.Keys));
    forall i: nat | IsGiven(pieces, i) ensures i in Given(pieces, Bound(builders.Keys)) {
      GivenAreBelow(pieces, i);
    }
    assert AreReported(ToolCallsBelow(builders, Bound(builders.Keys)), pieces, Given(pieces, Bound(builders.Keys)));
  }

  // ---------- the summary ----------

  /**
   The summary of a stream, read off its events: the turn has ended exactly when the last finish reason is `stop`, the text is
   all the content there was, the calls are what the pieces amount to, and every number is the last one reported.
   */
  lemma SummaryOfStream(json: JsonText, events: seq<Event>)
    ensures var summary := IntoSummary(Stream.Consume(TheSink(json), EMPTY, events));
      && (summary.turnEnd <==> Latest(events, Finish(json)) == Some("stop"))
      && summary.stopReason == Latest(events, Finish(json))
      && Joins(summary.text, Sayings(events, Words(json, "content")), "")
      && Reported(summary.toolCalls, AllPieces(json, events))
      && StatesReasoning(summary.usage, Latest(events, Deep(json, "completion_tokens_details", "reasoning_tokens")),
                         Total(Sayings(events, Words(json, "reasoning"))))
      && summary.usage.input == Latest(events, Count(json, "prompt_tokens"))
      && summary.usage.output == Latest(events, Count(json, "completion_tokens"))
      && summary.usage.cacheRead == Latest(events, Deep(json, "prompt_tokens_details", "cached_tokens"))
      && summary.model == Latest(events, Named(json, "model")) && summary.responseId == Latest(events, Named(json, "id"))
      && summary.error == Latest(events, Failure(json))
  {
    StreamHolds(json, events);
    CallsAreReported(AllPieces(json, events));
  }

  // ---------- the summary of a whole message ----------

  function MessageIn(value: Value): Option<Value> {
    match ChoiceIn(value) case Some(choice) => choice.Get("message") case None => None
  }

  function CallsOfMessage(message: Option<Value>): seq<Value> {
    match message
    case Some(m) => (match m.GetArray("tool_calls") case Some(calls) => calls case None => [])
    case None => []
  }

  /** The calls of a whole message, as the pieces they are. */
  function WholePieces(calls: seq<Value>): seq<Fragment> {
    if calls == [] then [] else
    var last := calls[|calls| - 1];
    WholePieces(calls[..|calls| - 1])
    + [Fragment(|calls| - 1, last.GetStr("id"), match last.Get("function") case Some(f) => f.GetStr("name") case None => None)]
  }

  lemma {:induction false} WholeIsLast(calls: seq<Value>, index: nat)
    ensures var all := WholePieces(calls);
      if index < |calls| then
        LastId(all, index) == calls[index].GetStr("id") && LastName(all, index) == NestedStr(calls[index], "function", "name")
      else LastId(all, index) == None && LastName(all, index) == None
  {
    if calls != [] {
      WholeIsLast(calls[..|calls| - 1], index);
      var all := WholePieces(calls);
      assert all[..|all| - 1] == WholePieces(calls[..|calls| - 1]);
      if index == |calls| - 1 {
        WholeIsLast(calls[..|calls| - 1], index);
      }
    }
  }

  lemma WholeCallsAreReported(calls: seq<Value>)
    ensures var builders := PutCalls(map[], calls);
      Reported(ToolCallsBelow(builders, Bound(builders.Keys)), WholePieces(calls))
  {
    var a, b := PutCalls(map[], calls), AddFragments(map[], WholePieces(calls));
    forall k: nat ensures BuilderAt(a, k) == BuilderAt(b, k) {
      PutCallsAt(calls, k);
      FragmentsAmountTo(WholePieces(calls), k);
      WholeIsLast(calls, k);
    }
    SameBuildersSameCalls(a, b, Bound(a.Keys), Bound(b.Keys));
    CallsAreReported(WholePieces(calls));
  }

  lemma BodyReports(value: Value)
    ensures var s := OnValue(EMPTY, value, false);
      && s.error == ErrorIn(value) && s.model == NameIn(value, "model") && s.responseId == NameIn(value, "id")
      && s.finishReason == StrIn(ChoiceIn(value), "finish_reason")
      && s.promptTokens == NatIn(UsageIn(value), "prompt_tokens")
      && s.completionTokens == NatIn(UsageIn(value), "completion_tokens")
      && s.cacheRead == DeepIn(UsageIn(value), "prompt_tokens_details", "cached_tokens")
      && s.reasoningExact == DeepIn(UsageIn(value), "completion_tokens_details", "reasoning_tokens")
  {
    ValueReports(EMPTY, value, false);
  }

  lemma BodySays(value: Value)
    ensures var s, message := OnValue(EMPTY, value, false), MessageIn(value);
      && s.text == OrEmpty(StrIn(message, "content")) && s.thinkingChars == |OrEmpty(StrIn(message, "reasoning"))|
      && s.builders == PutCalls(map[], CallsOfMessage(message))
  {
    if !IsError(value) {
      BodyHolds(value);
    }
  }

  /** And that of a whole message, read off its document; an error document says nothing but its error. */
  lemma SummaryOfBody(value: Value)
    ensures var summary := IntoSummary(OnValue(EMPTY, value, false));
      var message := MessageIn(value);
      && summary.error == ErrorIn(value)
      && (summary.turnEnd <==> StrIn(ChoiceIn(value), "finish_reason") == Some("stop"))
      && summary.stopReason == StrIn(ChoiceIn(value), "finish_reason")
      && summary.text == OrEmpty(StrIn(message, "content"))
      && Reported(summary.toolCalls, WholePieces(CallsOfMessage(message)))
      && StatesReasoning(summary.usage, DeepIn(UsageIn(value), "completion_tokens_details", "reasoning_tokens"),
                         |OrEmpty(StrIn(message, "reasoning"))|)
      && summary.usage.input == NatIn(UsageIn(value), "prompt_tokens")
      && summary.usage.output == NatIn(UsageIn(value), "completion_tokens")
      && summary.usage.cacheRead == DeepIn(UsageIn(value), "prompt_tokens_details", "cached_tokens")
      && summary.model == NameIn(value, "model") && summary.responseId == NameIn(value, "id")
  {
    BodyReports(value);
    BodySays(value);
    WholeCallsAreReported(CallsOfMessage(MessageIn(value)));
  }
}
