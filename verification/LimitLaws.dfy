/**
 What the response limit stops and what it does not (`src/rules.rs:134-152` over `src/usage/common.rs:98-145`). The guard
 reads the running count, and nothing is read from a JSON body, or from an event still pending, before the stream is over.
 */
module LimitLaws {
  import opened Wrappers
  import opened Json
  import opened Injection
  import opened Sse
  import opened Stream
  import opened Forward
  import ForwardLaws
  import Usage
  import Anthropic
  import Reports
  import Responses
  import Chat
  import CutTail
  import opened Printing
  import opened Texts
  import SseLaws
  import Utf8

  // ---------- prefixes of a response ----------

  lemma {:induction false} SeenGrows(frames: seq<Frame>, n: nat)
    requires n <= |frames|
    ensures Seen(frames[..n]) <= Seen(frames)
  {
    if n < |frames| {
      SeenGrows(frames[..|frames| - 1], n);
      assert frames[..|frames| - 1][..n] == frames[..n];
    } else {
      assert frames[..n] == frames;
    }
  }

  lemma {:induction false} PanicStays(frames: seq<Frame>, n: nat)
    requires n <= |frames| && Panicked(frames[..n])
    ensures Panicked(frames)
  {
    if n < |frames| {
      assert frames[..|frames| - 1][..n] == frames[..n];
      PanicStays(frames[..|frames| - 1], n);
    } else {
      assert frames[..n] == frames;
    }
  }

  lemma JsonPrefixIsNotAStream(a: seq<byte>, b: seq<byte>)
    requires a <= b && ModeOf(b).Json?
    ensures !ModeOf(a).Events?
  {
    assert b == a + b[|a|..];
    ModeIsStable(a, b[|a|..]);
  }

  /** A response read to its end by a client that stays, through a parser that never panics. */
  ghost predicate Calm(frames: seq<Frame>) {
    !Panicked(frames) && forall f :: f in frames ==> !f.ReadError? && (f.Data? ==> f.accepted)
  }

  ghost predicate Undisturbed<S>(call: Call<S>, frames: seq<Frame>) {
    call.monitored && Calm(frames)
  }

  /** Of an undisturbed response, forwarding ends at a chunk exactly when a rule fires on what was read so far. */
  lemma EndsWhereRuleFires<S>(call: Call<S>, frames: seq<Frame>, k: nat)
    requires Undisturbed(call, frames) && k < |frames|
    ensures EndsAt(call, frames, k)
        <==> frames[k].Data? && ReadVerdict(call, Running(call.sink, call.first, call.decode, Seen(frames[..k + 1]))).Some?
  {
    DataEnds(call, frames, k);
    if Panicked(frames[..k + 1]) {
      PanicStays(frames, k + 1);
    }
  }

  lemma CutSomewhere<S>(call: Call<S>, frames: seq<Frame>)
    ensures !StopsAt(call, frames, |frames|) <==> exists k: nat :: k < |frames| && EndsAt(call, frames, k)
  {
  }

  // ---------- counts only grow ----------

  ghost predicate Grows<S(!new)>(sink: Sink<S>) {
    forall s, e :: sink.chars(sink.onEvent(s, e)) >= sink.chars(s)
  }

  lemma {:induction false} ConsumeGrows<S(!new)>(sink: Sink<S>, first: S, events: seq<Event>)
    requires Grows(sink)
    ensures sink.chars(Consume(sink, first, events)) >= sink.chars(first)
  {
    if events != [] {
      ConsumeGrows(sink, first, events[..|events| - 1]);
    }
  }

  /** The count of what was read never falls as bytes arrive. */
  lemma RunningGrows<S(!new)>(sink: Sink<S>, first: S, decode: Decoder, a: seq<byte>, b: seq<byte>)
    requires Grows(sink) && a <= b
    ensures sink.chars(Running(sink, first, decode, a)) <= sink.chars(Running(sink, first, decode, b))
  {
    var more := b[|a|..];
    assert b == a + more;
    ModeIsStable(a, more);
    if ModeOf(a).Events? {
      EventsGrow(decode, a, more);
      var old', new' := EventsSoFar(decode, a), EventsSoFar(decode, b);
      assert new' == old' + new'[|old'|..];
      ConsumeConcat(sink, first, old', new'[|old'|..]);
      ConsumeGrows(sink, Consume(sink, first, old'), new'[|old'|..]);
    } else if ModeOf(b).Events? {
      ConsumeGrows(sink, first, EventsSoFar(decode, b));
    }
  }

  lemma AnthropicGrows(json: Usage.JsonText)
    ensures Grows(Anthropic.TheSink(json))
  {
  }

  lemma ResponsesGrows(json: Usage.JsonText)
    ensures Grows(Responses.TheSink(json))
  {
    forall s: Responses.State, e: Event ensures Responses.OnEvent(json, s, e).outputChars >= s.outputChars {
      var parsed := Usage.ParseEventJson(json, e.data);
      if parsed.Some? {
        ResponsesValueGrows(s, Reports.KindOf(parsed.value, e), parsed.value);
      }
    }
  }

  lemma ResponsesValueGrows(s: Responses.State, kind: string, value: Value)
    ensures Responses.OnValue(s, kind, value).outputChars >= s.outputChars
  {
    if value.Get("response").Some? {
      var resp := value.Get("response").value;
      Responses.ItemsCalls(Responses.ConsumeHead(s, resp), Responses.Output(resp), false);
    }
  }

  lemma ChatGrows(json: Usage.JsonText)
    ensures Grows(Chat.TheSink(json))
  {
  }

  // ---------- exactly when a response is cut ----------

  /** Some chunk leaves the running text with a tail that a cut pattern matches. */
  ghost predicate PatternMatches<S>(call: Call<S>, frames: seq<Frame>) {
    exists k: nat :: k < |frames| && frames[k].Data?
      && FirstMatch(call.rules.cutPatterns, call.sink.tail(Running(call.sink, call.first, call.decode, Seen(frames[..k + 1])))).Some?
  }

  /** The response is read as events, and their running count passes the limit. */
  predicate CountPasses<S>(call: Call<S>, frames: seq<Frame>) {
    && call.rules.maxResponseChars.Some? && ModeOf(Seen(frames)).Events?
    && call.sink.chars(Running(call.sink, call.first, call.decode, Seen(frames))) > call.rules.maxResponseChars.value
  }

  /**
   An undisturbed response is cut exactly when it is read as events whose running count passes the limit, or a pattern
   matches the running text after some chunk.
   */
  lemma CutExactlyWhen<S(!new)>(call: Call<S>, frames: seq<Frame>)
    requires Undisturbed(call, frames) && Grows(call.sink)
    requires call.rules.maxResponseChars.Some? ==> call.sink.chars(call.first) <= call.rules.maxResponseChars.value
    ensures !StopsAt(call, frames, |frames|) <==> CountPasses(call, frames) || PatternMatches(call, frames)
  {
    CutSomewhere(call, frames);
    if k: nat :| k < |frames| && EndsAt(call, frames, k) {
      EndsWhereRuleFires(call, frames, k);
      SeenGrows(frames, k + 1);
      RunningGrows(call.sink, call.first, call.decode, Seen(frames[..k + 1]), Seen(frames));
    }
    if CountPasses(call, frames) && StopsAt(call, frames, |frames|) {
      assert frames[..|frames|] == frames;
      ForwardLaws.PassedOverIsWithinLimit(call, frames, |frames|, |frames|, call.rules.maxResponseChars.value);
    }
    if PatternMatches(call, frames) {
      var k: nat :| k < |frames| && frames[k].Data?
        && FirstMatch(call.rules.cutPatterns, call.sink.tail(Running(call.sink, call.first, call.decode, Seen(frames[..k + 1])))).Some?;
      EndsWhereRuleFires(call, frames, k);
    }
  }

  /** With no patterns: a response is cut exactly when it is read as events whose running count passes the limit. */
  lemma CutByLengthExactlyWhen<S(!new)>(call: Call<S>, frames: seq<Frame>, max: nat)
    requires Undisturbed(call, frames) && Grows(call.sink)
    requires call.rules == Rules(Some(max), []) && call.sink.chars(call.first) <= max
    ensures !StopsAt(call, frames, |frames|)
       <==> ModeOf(Seen(frames)).Events? && call.sink.chars(Running(call.sink, call.first, call.decode, Seen(frames))) > max
  {
    CutExactlyWhen(call, frames);
  }

  // ---------- the three wires ----------

  function AnthropicCall(json: Usage.JsonText, rules: Rules, decode: Decoder, cutTail: string -> seq<byte>)
    : Call<Anthropic.State>
  {
    Call(true, rules, Anthropic.TheSink(json), Anthropic.EMPTY, decode, true, cutTail)
  }

  function ResponsesCall(json: Usage.JsonText, rules: Rules, decode: Decoder, cutTail: string -> seq<byte>)
    : Call<Responses.State>
  {
    Call(true, rules, Responses.TheSink(json), Responses.EMPTY, decode, true, cutTail)
  }

  function ChatCall(json: Usage.JsonText, rules: Rules, decode: Decoder, cutTail: string -> seq<byte>)
    : Call<Chat.State>
  {
    Call(true, rules, Chat.TheSink(json), Chat.EMPTY, decode, true, cutTail)
  }

  /** On every wire and under any rules, that is exactly when a response is cut. */
  lemma EachWireIsCutExactlyWhen(json: Usage.JsonText, rules: Rules, decode: Decoder, cutTail: string -> seq<byte>,
                                 frames: seq<Frame>)
    requires Calm(frames)
    ensures var call := AnthropicCall(json, rules, decode, cutTail);
      !StopsAt(call, frames, |frames|) <==> CountPasses(call, frames) || PatternMatches(call, frames)
    ensures var call := ResponsesCall(json, rules, decode, cutTail);
      !StopsAt(call, frames, |frames|) <==> CountPasses(call, frames) || PatternMatches(call, frames)
    ensures var call := ChatCall(json, rules, decode, cutTail);
      !StopsAt(call, frames, |frames|) <==> CountPasses(call, frames) || PatternMatches(call, frames)
  {
    AnthropicGrows(json);
    ResponsesGrows(json);
    ChatGrows(json);
    CutExactlyWhen(AnthropicCall(json, rules, decode, cutTail), frames);
    CutExactlyWhen(ResponsesCall(json, rules, decode, cutTail), frames);
    CutExactlyWhen(ChatCall(json, rules, decode, cutTail), frames);
  }

  // ---------- what is not read as events ----------

  /**
   A response that is one JSON body is cut exactly when the rules fire on an empty response, which is at its first chunk:
   neither its length nor its text matters.
   */
  lemma JsonBodyIsCutExactlyWhen<S>(call: Call<S>, frames: seq<Frame>)
    requires Undisturbed(call, frames) && ModeOf(Seen(frames)).Json?
    ensures !StopsAt(call, frames, |frames|) <==> ReadVerdict(call, call.first).Some?
  {
    CutSomewhere(call, frames);
    forall k: nat | k < |frames| ensures EndsAt(call, frames, k) <==> frames[k].Data? && ReadVerdict(call, call.first).Some? {
      EndsWhereRuleFires(call, frames, k);
      SeenGrows(frames, k + 1);
      JsonPrefixIsNotAStream(Seen(frames[..k + 1]), Seen(frames));
    }
    SomethingWasSeen(frames);
  }

  lemma {:induction false} SomethingWasSeen(frames: seq<Frame>)
    requires Seen(frames) != []
    ensures exists k: nat :: k < |frames| && frames[k].Data?
  {
    var last := frames[|frames| - 1];
    if !last.Data? {
      SomethingWasSeen(frames[..|frames| - 1]);
      var k: nat :| k < |frames| - 1 && frames[..|frames| - 1][k].Data?;
      assert frames[k].Data?;
    }
  }

  /** On every wire an empty response has no characters, so only a pattern that matches the empty text cuts a JSON body. */
  lemma EachWireCutsJsonExactlyWhen(json: Usage.JsonText, rules: Rules, decode: Decoder, cutTail: string -> seq<byte>,
                                    frames: seq<Frame>)
    requires Calm(frames) && ModeOf(Seen(frames)).Json?
    ensures !StopsAt(AnthropicCall(json, rules, decode, cutTail), frames, |frames|) <==> FirstMatch(rules.cutPatterns, "").Some?
    ensures !StopsAt(ResponsesCall(json, rules, decode, cutTail), frames, |frames|) <==> FirstMatch(rules.cutPatterns, "").Some?
    ensures !StopsAt(ChatCall(json, rules, decode, cutTail), frames, |frames|) <==> FirstMatch(rules.cutPatterns, "").Some?
  {
    JsonBodyIsCutExactlyWhen(AnthropicCall(json, rules, decode, cutTail), frames);
    JsonBodyIsCutExactlyWhen(ResponsesCall(json, rules, decode, cutTail), frames);
    JsonBodyIsCutExactlyWhen(ChatCall(json, rules, decode, cutTail), frames);
  }

  /** A JSON body is never cut by the limit alone. */
  lemma JsonBodyIsNeverCutByLength<S>(call: Call<S>, frames: seq<Frame>, max: nat)
    requires Undisturbed(call, frames) && ModeOf(Seen(frames)).Json?
    requires call.rules == Rules(Some(max), []) && call.sink.chars(call.first) <= max
    ensures StopsAt(call, frames, |frames|)
  {
    JsonBodyIsCutExactlyWhen(call, frames);
  }

  // ---------- a body that passes the limit ----------

  /** A whole Anthropic message that says `text`, and its compact JSON. */
  function Message(text: string): (message: Value)
    ensures OfTexts(message)
  {
    var content := Array([Text("text", text)]);
    assert OfTexts(Text("text", text)) && OfTexts(content);
    Object([Json.Field("content", content)])
  }

  function MessageBytes(text: string): seq<byte> {
    Utf8.Encode(Print(Message(text)))
  }

  function LimitCall(json: Usage.JsonText, decode: Decoder, max: nat, cutTail: string -> seq<byte>): Call<Anthropic.State> {
    AnthropicCall(json, Rules(Some(max), []), decode, cutTail)
  }

  /**
   The limit is passed: whatever it is, a longer text in one JSON body is forwarded whole, and the parser counts all of it
   once the response is over. The only assumption is that the JSON reader reads this document.
   */
  lemma ALongJsonBodyIsForwardedWhole(json: Usage.JsonText, decode: Decoder, max: nat, text: string,
                                      cutTail: string -> seq<byte>)
    requires |text| > max && json.parseBytes(MessageBytes(text)) == Some(Message(text))
    ensures var call, body := LimitCall(json, decode, max, cutTail), MessageBytes(text);
      var frames := [Data(body, body, false, true)];
      && StopsAt(call, frames, |frames|)
      && Raws(frames) == [body]
      && call.sink.chars(Finished(call.sink, call.first, call.decode, Seen(frames))) == |text|
  {
    var call, body := LimitCall(json, decode, max, cutTail), MessageBytes(text);
    var frames := [Data(body, body, false, true)];
    OneFrame(frames[0]);
    MessageIsJson(text);
    JsonBodyIsNeverCutByLength(call, frames, max);
    MessageCounts(json, text);
  }

  lemma OneFrame(frame: Frame)
    requires frame.Data? && frame.raw == frame.decoded
    ensures Raws([frame]) == [frame.raw] && Seen([frame]) == frame.decoded
    ensures Panicked([frame]) == frame.panics
  {
    assert [frame][..0] == [];
  }

  lemma MessageIsJson(text: string)
    ensures ModeOf(MessageBytes(text)).Json?
  {
    PrintedObject(Message(text));
    StartsWithBrace(Print(Message(text))[1..]);
  }

  lemma PrintedObject(value: Value)
    requires OfTexts(value) && value.Object?
    ensures Print(value) == "{" + Print(value)[1..]
  {
  }

  lemma StartsWithBrace(rest: string)
    ensures ModeOf(Utf8.Encode("{" + rest)).Json?
  {
    Utf8.EncodeConcat("{", rest);
    Utf8.EncodeOne('{');
  }

  lemma MessageCounts(json: Usage.JsonText, text: string)
    ensures Anthropic.OnBodyValue(json, Anthropic.EMPTY, Message(text)).outputChars == |text|
  {
    var block := Text("text", text);
    BlockReads(text);
    assert "content"[0] != "type"[0] && "content"[0] != "usage"[0];
    assert Message(text).GetArray("content") == Some([block]);
    assert [block][..0] == [];
    assert Anthropic.ConsumeBlocks(json, Anthropic.EMPTY, []) == Anthropic.EMPTY;
    MessageHasNoMore(text);
  }

  lemma BlockReads(text: string)
    ensures Text("text", text).GetStr("type") == Some("text") && Text("text", text).GetStr("text") == Some(text)
  {
    var kind, words := Json.Field("type", String("text")), Json.Field("text", String(text));
    assert "type"[1] != "text"[1];
    GetSecond(kind, words, []);
    assert [kind, words] + [] == [kind, words];
  }

  lemma MessageHasNoMore(text: string)
    ensures forall key :: key != "content" ==> Message(text).Get(key) == None
  {
    var fields := Message(text).fields;
    assert fields[1..] == [];
    forall key | key != "content" ensures Message(text).Get(key) == None {
      assert Lookup(fields, key) == Lookup(fields[1..], key);
    }
  }

  // ---------- what is left at the end ----------

  /** The event the end of the stream completes, if one is pending: from the lines since a blank one and the unfinished line. */
  function PendingEvent(decode: Decoder, bytes: seq<byte>): (event: seq<Event>)
    ensures |event| <= 1
  {
    var lines, last := Decoded(decode, Lines(bytes)), decode(StripCr(Rest(bytes)));
    EventOf(OpenBlock(if last == "" then lines else lines + [last]))
  }

  lemma EndAddsThePendingEvent(decode: Decoder, bytes: seq<byte>)
    ensures AllEvents(decode, bytes) == EventsSoFar(decode, bytes) + PendingEvent(decode, bytes)
  {
    var lines, last := Decoded(decode, Lines(bytes)), decode(StripCr(Rest(bytes)));
    EndOfStream(decode, bytes);
    OpenSnoc(lines, last);
    assert ClosedEvents(lines) + [] == ClosedEvents(lines);
  }

  /**
   What was forwarded whole counted within the limit while it was forwarded. Once it is over the parser has also counted the
   event still pending at its end; so the final count is within the limit exactly when there is none, or when that one event
   leaves the running count within it.
   */
  lemma FinalCountIsWithinExactlyWhen<S>(call: Call<S>, frames: seq<Frame>, max: nat)
    requires Undisturbed(call, frames) && StopsAt(call, frames, |frames|)
    requires call.rules.maxResponseChars == Some(max) && call.sink.chars(call.first) <= max
    requires !ModeOf(Seen(frames)).Json?
    ensures var bytes := Seen(frames);
      var running, pending := Running(call.sink, call.first, call.decode, bytes), PendingEvent(call.decode, bytes);
      && call.sink.chars(running) <= max
      && (call.sink.chars(Finished(call.sink, call.first, call.decode, bytes)) <= max <==>
            || !ModeOf(bytes).Events? || pending == []
            || call.sink.chars(call.sink.onEvent(running, pending[0])) <= max)
  {
    assert frames[..|frames|] == frames;
    ForwardLaws.PassedOverIsWithinLimit(call, frames, |frames|, |frames|, max);
    EndAddsThePendingEvent(call.decode, Seen(frames));
    var pending := PendingEvent(call.decode, Seen(frames));
    ConsumeConcat(call.sink, call.first, EventsSoFar(call.decode, Seen(frames)), pending);
    if pending != [] {
      assert pending[..0] == [];
    }
  }

  // ---------- a pending event that passes the limit ----------

  /** A delta that says `text`, and its compact JSON. */
  function Delta(text: string): (delta: Value)
    ensures OfTexts(delta)
  {
    var said := Object([Json.Field("type", String("text_delta")), Json.Field("text", String(text))]);
    assert OfTexts(said);
    Object([Json.Field("type", String("content_block_delta")), Json.Field("delta", said)])
  }

  function DeltaText(text: string): string {
    Print(Delta(text))
  }

  /** A stream that ends in the middle of its only line. */
  function UnfinishedBytes(data: string): seq<byte> {
    Utf8.Encode(SseLaws.FieldLine("data", data))
  }

  /**
   The limit is passed here too: whatever it is, a longer text in an event whose line the stream never ends is forwarded
   whole, read as events and counted in full once the response is over. The only assumption is that the JSON reader reads
   this document.
   */
  lemma ALongPendingEventIsForwardedWhole(json: Usage.JsonText, decode: Decoder, max: nat, text: string,
                                          cutTail: string -> seq<byte>)
    requires Utf8.ReadsUtf8(decode) && |text| > max
    requires Usage.ParseEventJson(json, DeltaText(text)) == Some(Delta(text))
    ensures var call, body := LimitCall(json, decode, max, cutTail), UnfinishedBytes(DeltaText(text));
      var frames := [Data(body, body, false, true)];
      && StopsAt(call, frames, |frames|)
      && Raws(frames) == [body] && ModeOf(body).Events?
      && call.sink.chars(Finished(call.sink, call.first, call.decode, Seen(frames))) == |text|
  {
    PrintIsOneLine(Delta(text));
    AnthropicGrows(json);
    AnUnfinishedEventIsForwardedWhole(LimitCall(json, decode, max, cutTail), DeltaText(text), max);
    DeltaCounts(json, text, Event(None, DeltaText(text)));
  }

  /** Whatever the wire and the event's data: its stream is forwarded whole, and it is counted at the end. */
  lemma AnUnfinishedEventIsForwardedWhole<S(!new)>(call: Call<S>, data: string, max: nat)
    requires Utf8.ReadsUtf8(call.decode) && OneLineText(data)
    requires call.monitored && call.rules == Rules(Some(max), []) && Grows(call.sink) && call.sink.chars(call.first) <= max
    ensures var body := UnfinishedBytes(data);
      var frames := [Data(body, body, false, true)];
      && StopsAt(call, frames, |frames|)
      && Raws(frames) == [body] && ModeOf(body).Events?
      && Finished(call.sink, call.first, call.decode, Seen(frames)) == call.sink.onEvent(call.first, Event(None, data))
  {
    Unfinished(call.decode, data);
    OneChunk(call, UnfinishedBytes(data), Event(None, data), max);
  }

  /** One chunk that holds no event until the stream is over. */
  lemma OneChunk<S(!new)>(call: Call<S>, body: seq<byte>, event: Event, max: nat)
    requires ModeOf(body).Events? && EventsSoFar(call.decode, body) == [] && AllEvents(call.decode, body) == [event]
    requires call.monitored && call.rules == Rules(Some(max), []) && Grows(call.sink) && call.sink.chars(call.first) <= max
    ensures var frames := [Data(body, body, false, true)];
      && StopsAt(call, frames, |frames|) && Raws(frames) == [body]
      && Finished(call.sink, call.first, call.decode, Seen(frames)) == call.sink.onEvent(call.first, event)
  {
    var frames := [Data(body, body, false, true)];
    OneFrame(frames[0]);
    CutByLengthExactlyWhen(call, frames, max);
    OneEvent(call.sink, call.first, event);
  }

  lemma OneEvent<S>(sink: Sink<S>, first: S, event: Event)
    ensures Consume(sink, first, [event]) == sink.onEvent(first, event) && Consume(sink, first, []) == first
  {
    assert [event][..0] == [];
  }

  /** Of such bytes nothing is read before the end, and then the one event. */
  lemma Unfinished(decode: Decoder, data: string)
    requires Utf8.ReadsUtf8(decode) && OneLineText(data)
    ensures ModeOf(UnfinishedBytes(data)).Events?
    ensures EventsSoFar(decode, UnfinishedBytes(data)) == []
    ensures AllEvents(decode, UnfinishedBytes(data)) == [Event(None, data)]
  {
    var line := SseLaws.FieldLine("data", data);
    assert OneLineText("data");
    CutTail.FieldLineIsOneLine("data", data);
    CutTail.EncodedLine(decode, line);
    NoLine(Utf8.Encode(line));
    CutTail.GlueDecodes(decode, line);
    EndAddsThePendingEvent(decode, Utf8.Encode(line));
    assert Decoded(decode, []) == [];
    PendingLine(data);
    StartsWithLetter(data);
  }

  lemma PendingLine(data: string)
    ensures EventOf(OpenBlock([] + [SseLaws.FieldLine("data", data)])) == [Event(None, data)]
    ensures SseLaws.FieldLine("data", data) != ""
  {
    SseLaws.AddLine([], "data", data);
    SseLaws.NothingPending();
    EventFromPending(OpenBlock([] + [SseLaws.FieldLine("data", data)]));
    assert "event"[0] != "data"[0];
  }

  lemma StartsWithLetter(data: string)
    ensures ModeOf(UnfinishedBytes(data)).Events?
  {
    var line := SseLaws.FieldLine("data", data);
    assert line == "d" + line[1..];
    Utf8.EncodeConcat("d", line[1..]);
    Utf8.EncodeOne('d');
  }

  lemma DeltaCounts(json: Usage.JsonText, text: string, event: Event)
    requires Usage.ParseEventJson(json, event.data) == Some(Delta(text))
    ensures Anthropic.OnEvent(json, Anthropic.EMPTY, event).outputChars == |text|
  {
    var kind, delta := Delta(text).fields[0], Delta(text).fields[1];
    assert "type"[0] != "delta"[0] && "type"[1] != "text"[1];
    GetSecond(kind, delta, []);
    assert [kind, delta] + [] == Delta(text).fields;
    var inner := delta.value;
    GetSecond(inner.fields[0], inner.fields[1], []);
    assert [inner.fields[0], inner.fields[1]] + [] == inner.fields;
    assert "content_block_delta"[0] != "message_start"[0] && "content_block_delta"[14] != "content_block_start"[14];
  }
}
