/** What the contract of `Forward.ForwardResponse` means for the client and for the limits. */
module ForwardLaws {
  import opened Wrappers
  import opened Sse
  import opened Stream
  import opened Forward
  import Usage
  import Anthropic
  import Responses
  import Chat
  import Injection
  import CutTail
  import Utf8

  // ---------- what is sent, what is read ----------

  /** The frames that carry data, as what they hold on the wire. */
  function ChunksOf(frames: seq<Frame>): seq<seq<byte>> {
    if frames == [] then [] else (if frames[0].Data? then [frames[0].raw] else []) + ChunksOf(frames[1..])
  }

  lemma {:induction false} ChunksSnoc(frames: seq<Frame>, last: Frame)
    ensures ChunksOf(frames + [last]) == ChunksOf(frames) + (if last.Data? then [last.raw] else [])
  {
    if frames == [] {
      assert [] + [last] == [last] && [last][1..] == [];
    } else {
      ChunksSnoc(frames[1..], last);
      assert (frames + [last])[1..] == frames[1..] + [last];
    }
  }

  /** The client is sent what the upstream sent, whatever the monitor reads in its place. */
  lemma {:induction false} RawsAreTheChunks(frames: seq<Frame>)
    ensures Raws(frames) == ChunksOf(frames)
  {
    if frames != [] {
      RawsAreTheChunks(frames[..|frames| - 1]);
      ChunksSnoc(frames[..|frames| - 1], frames[|frames| - 1]);
      assert frames == frames[..|frames| - 1] + [frames[|frames| - 1]];
    }
  }

  /** The end of a text: its last characters up to a number, all of them if there are no more. */
  predicate IsEndOf(end: string, text: string, max: nat) {
    && |end| <= |text| && text[|text| - |end|..] == end
    && |end| <= max && (|end| == max || end == text)
  }

  /** On every wire the patterns are matched against the last 4096 characters of the visible text. */
  lemma PatternsReadTheEnd(json: Usage.JsonText)
    ensures forall s: Anthropic.State :: IsEndOf(Anthropic.TheSink(json).tail(s), s.text, 4096)
    ensures forall s: Responses.State :: IsEndOf(Responses.TheSink(json).tail(s), s.text, 4096)
    ensures forall s: Chat.State :: IsEndOf(Chat.TheSink(json).tail(s), s.text, 4096)
  {
  }

  // ---------- the limit ----------

  function Concat(chunks: seq<seq<byte>>): seq<byte> {
    if chunks == [] then [] else Concat(chunks[..|chunks| - 1]) + chunks[|chunks| - 1]
  }

  /** Nothing is compressed, so what the monitor reads is what the client is sent. */
  ghost predicate Plain(frames: seq<Frame>) {
    forall f :: f in frames && f.Data? ==> f.decoded == f.raw
  }

  lemma {:induction false} SeenIsSent(frames: seq<Frame>)
    requires Plain(frames)
    ensures Seen(frames) == Concat(Raws(frames))
  {
    if frames != [] {
      var shorter, last := frames[..|frames| - 1], frames[|frames| - 1];
      SeenIsSent(shorter);
      if last.Data? {
        assert Raws(frames)[..|Raws(frames)| - 1] == Raws(shorter);
      } else {
        assert Raws(frames) == Raws(shorter);
      }
    }
  }

  lemma {:induction false} PassedOverIsWithinLimit<S>(call: Call<S>, frames: seq<Frame>, stop: nat, n: nat, max: nat)
    requires StopsAt(call, frames, stop) && n <= stop
    requires call.monitored && !Panicked(frames[..n]) && call.rules.maxResponseChars == Some(max)
    requires call.sink.chars(call.first) <= max
    ensures call.sink.chars(Running(call.sink, call.first, call.decode, Seen(frames[..n]))) <= max
  {
    if n == 0 {
      assert frames[..0] == [];
    } else {
      assert frames[..n][..n - 1] == frames[..n - 1];
      PassedOverIsWithinLimit(call, frames, stop, n - 1, max);
      assert !EndsAt(call, frames, n - 1);
      DataEnds(call, frames, n - 1);
      match frames[n - 1] {
        case Data(raw, decoded, panics, accepted) => OneMore(call, frames[..n - 1], raw, decoded, panics, accepted);
        case NoData => NoDataAddsNothing(frames[..n - 1], NoData);
        case ReadError(_) =>
      }
    }
  }

  lemma NoDataAddsNothing(frames: seq<Frame>, frame: Frame)
    requires frame.NoData?
    ensures Seen(frames + [frame]) == Seen(frames)
  {
    assert (frames + [frame])[..|frames|] == frames;
  }

  /**
   While the parser has not panicked, a fresh parser given exactly the chunks the client was sent has counted no more than
   the limit: the chunk that would pass it is withheld.
   */
  lemma ForwardedStaysWithinLimit<S>(call: Call<S>, frames: seq<Frame>, stop: nat, max: nat)
    requires StopsAt(call, frames, stop) && Plain(frames)
    requires call.monitored && !Panicked(frames[..stop]) && call.rules.maxResponseChars == Some(max)
    requires call.sink.chars(call.first) <= max
    ensures call.sink.chars(Running(call.sink, call.first, call.decode, Concat(Raws(frames[..stop])))) <= max
  {
    PassedOverIsWithinLimit(call, frames, stop, stop, max);
    SeenIsSent(frames[..stop]);
  }

  /** A property every event keeps holds of whatever a running parser has reached. */
  lemma RunningKeeps<S(!new)>(sink: Sink<S>, first: S, decode: Decoder, bytes: seq<byte>, holds: S -> bool)
    requires holds(first) && forall s, e :: holds(s) ==> holds(sink.onEvent(s, e))
    ensures holds(Running(sink, first, decode, bytes))
  {
    ConsumeKeeps(sink, first, EventsSoFar(decode, bytes), holds);
  }

  lemma {:induction false} ConsumeKeeps<S(!new)>(sink: Sink<S>, first: S, events: seq<Event>, holds: S -> bool)
    requires holds(first) && forall s, e :: holds(s) ==> holds(sink.onEvent(s, e))
    ensures holds(Consume(sink, first, events))
  {
    if events != [] {
      ConsumeKeeps(sink, first, events[..|events| - 1], holds);
    }
  }

  /** On every wire the visible text is never longer than the count the limit is checked against. */
  lemma TextIsCounted(json: Usage.JsonText, decode: Decoder, bytes: seq<byte>)
    ensures var s := Running(Anthropic.TheSink(json), Anthropic.EMPTY, decode, bytes); |s.text| <= s.outputChars
    ensures var s := Running(Responses.TheSink(json), Responses.EMPTY, decode, bytes); |s.text| <= s.outputChars
    ensures var s := Running(Chat.TheSink(json), Chat.EMPTY, decode, bytes); |s.text| <= s.outputChars
  {
    AnthropicTextIsCounted(json, decode, bytes);
    ResponsesTextIsCounted(json, decode, bytes);
    ChatTextIsCounted(json, decode, bytes);
  }

  lemma AnthropicTextIsCounted(json: Usage.JsonText, decode: Decoder, bytes: seq<byte>)
    ensures Anthropic.Counted(Running(Anthropic.TheSink(json), Anthropic.EMPTY, decode, bytes))
  {
    var sink := Anthropic.TheSink(json);
    forall s, e | Anthropic.Counted(s)
      ensures Anthropic.Counted(sink.onEvent(s, e))
    {
      Anthropic.EventKeepsCount(json, s, e);
    }
    RunningKeeps(sink, Anthropic.EMPTY, decode, bytes, (s: Anthropic.State) => |s.text| + s.thinkingChars <= s.outputChars);
  }

  lemma ResponsesTextIsCounted(json: Usage.JsonText, decode: Decoder, bytes: seq<byte>)
    ensures Responses.Counted(Running(Responses.TheSink(json), Responses.EMPTY, decode, bytes))
  {
    var sink := Responses.TheSink(json);
    forall s, e | Responses.Counted(s)
      ensures Responses.Counted(sink.onEvent(s, e))
    {
      Responses.EventKeepsCount(json, s, e);
    }
    RunningKeeps(sink, Responses.EMPTY, decode, bytes, (s: Responses.State) => s.outputChars == |s.text|);
  }

  lemma ChatTextIsCounted(json: Usage.JsonText, decode: Decoder, bytes: seq<byte>)
    ensures Chat.Counted(Running(Chat.TheSink(json), Chat.EMPTY, decode, bytes))
  {
    var sink := Chat.TheSink(json);
    forall s, e | Chat.Counted(s)
      ensures Chat.Counted(sink.onEvent(s, e))
    {
      var parsed := Usage.ParseEventJson(json, e.data);
      if parsed.Some? {
        Chat.ValueKeepsCount(s, parsed.value, true);
      }
    }
    RunningKeeps(sink, Chat.EMPTY, decode, bytes, (s: Chat.State) => s.outputChars == |s.text| + s.thinkingChars);
  }

  // ---------- what a cut response is read as ----------

  /**
   A response cut at a chunk, whose bytes go out as they came and whose tail is that of its wire: what the client's parser
   reads from everything it was sent is the events of the forwarded chunks and then exactly the error event (and `[DONE]`),
   precisely when the tail is read as intended behind those chunks.
   */
  lemma CutResponseIsReadExactlyWhen<S>(call: Call<S>, frames: seq<Frame>, stop: nat, rule: string, wire: Injection.Wire,
                                        decode: Decoder, sent: seq<seq<byte>>)
    requires StopsAt(call, frames, stop) && stop < |frames| && Fires(call, frames[..stop + 1]) == Some(rule)
    requires frames[stop].Data? && frames[stop].accepted
    requires sent == Raws(frames[..stop]) + Tail(call, rule, frames[stop].accepted)
    requires call.identity && call.cutTail(rule) == CutTail.TailBytes(wire, rule) && Utf8.ReadsUtf8(decode)
    ensures var forwarded := Concat(Raws(frames[..stop]));
      && Concat(sent) == forwarded + CutTail.TailBytes(wire, rule)
      && (AllEvents(decode, Concat(sent)) == EventsSoFar(decode, forwarded) + CutTail.TailEvents(wire, rule)
          <==> CutTail.IsRead(decode, forwarded, wire, rule))
  {
    TailIsSent(wire, rule);
    ConcatSnoc(Raws(frames[..stop]), CutTail.TailBytes(wire, rule));
    CutTail.TailIsReadExactlyWhen(decode, Concat(Raws(frames[..stop])), wire, rule);
  }

  lemma ConcatSnoc(chunks: seq<seq<byte>>, last: seq<byte>)
    ensures Concat(chunks + [last]) == Concat(chunks) + last
  {
    assert (chunks + [last])[..|chunks|] == chunks;
  }

  lemma TailIsSent(wire: Injection.Wire, rule: string)
    ensures CutTail.TailBytes(wire, rule) != []
  {
    SomethingEncoded(CutTail.TailLines(wire, rule));
  }

  lemma SomethingEncoded(lines: seq<string>)
    requires lines != []
    ensures Utf8.Encode(CutTail.Unlines(lines)) != []
  {
  }
}
