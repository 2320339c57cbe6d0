/**
 The part of response parsing every wire shares (`src/usage/common.rs`): deciding whether a response is one JSON body or an
 event stream, routing its bytes, and keeping the visible text with its bounded tail. A wire's sink is a record of
 functions on its state, in place of the source's trait.
 */
module Stream {
  import opened Sse

  datatype Sink<!S> = Sink(onEvent: (S, Event) -> S, onBody: (S, seq<byte>) -> S, chars: S -> nat, tail: S -> string)

  // ---------- the whole response at once ----------

  datatype Mode = Undetermined | Events | Json

  predicate IsAsciiWhitespace(b: byte) {
    b == 32 || b == 9 || b == 10 || b == 12 || b == 13
  }

  /** Decided by the first byte that is not whitespace: `{` opens a JSON body, anything else a stream. */
  function ModeOf(bytes: seq<byte>): Mode {
    if bytes == [] then Undetermined
    else if IsAsciiWhitespace(bytes[0]) then ModeOf(bytes[1..])
    else if bytes[0] == 123 then Json
    else Events
  }

  function Consume<S>(sink: Sink<S>, first: S, events: seq<Event>): S {
    if events == [] then first
    else sink.onEvent(Consume(sink, first, events[..|events| - 1]), events[|events| - 1])
  }

  /** The sink after `bytes` have arrived, and once the response is known to be over. */
  function Running<S>(sink: Sink<S>, first: S, decode: Decoder, bytes: seq<byte>): S {
    if ModeOf(bytes).Events? then Consume(sink, first, EventsSoFar(decode, bytes)) else first
  }

  function Finished<S>(sink: Sink<S>, first: S, decode: Decoder, bytes: seq<byte>): S {
    match ModeOf(bytes)
    case Undetermined => first
    case Json => sink.onBody(first, bytes)
    case Events => Consume(sink, first, AllEvents(decode, bytes))
  }

  lemma {:induction false} ModeIsStable(a: seq<byte>, b: seq<byte>)
    ensures ModeOf(a + b) == if ModeOf(a).Undetermined? then ModeOf(b) else ModeOf(a)
  {
    if a == [] {
      assert a + b == b;
    } else {
      assert (a + b)[1..] == a[1..] + b;
      if IsAsciiWhitespace(a[0]) {
        ModeIsStable(a[1..], b);
      }
    }
  }

  /** Undecided as long as only whitespace has come; the first other byte decides, and nothing behind it matters. */
  lemma {:induction false} ModeExactly(blank: seq<byte>, b: byte, rest: seq<byte>)
    requires (forall w :: w in blank ==> IsAsciiWhitespace(w)) && !IsAsciiWhitespace(b)
    ensures ModeOf(blank) == Undetermined
    ensures ModeOf(blank + [b] + rest) == if b == '{' as int then Json else Events
  {
    if blank == [] {
      assert ([] + [b] + rest)[0] == b;
    } else {
      var all := blank + [b] + rest;
      assert all[0] == blank[0] && blank[0] in blank && all[1..] == blank[1..] + [b] + rest;
      ModeExactly(blank[1..], b, rest);
    }
  }

  lemma {:induction false} ConsumeConcat<S>(sink: Sink<S>, first: S, a: seq<Event>, b: seq<Event>)
    ensures Consume(sink, first, a + b) == Consume(sink, Consume(sink, first, a), b)
  {
    if b == [] {
      assert a + b == a;
    } else {
      assert (a + b)[..|a + b| - 1] == a + b[..|b| - 1];
      ConsumeConcat(sink, first, a, b[..|b| - 1]);
    }
  }

  // ---------- the incremental form ----------

  class StreamOrBody<S> {
    const sink: Sink<S>
    const splitter: SseSplitter
    var mode: Mode
    var predetect: seq<byte>
    var jsonBody: seq<byte>
    var state: S
    ghost const first: S
    ghost var fed: seq<byte>

    /** The state is that of a reader who saw all the bytes so far at once. */
    ghost predicate Valid()
      reads this, splitter
    {
      && mode == ModeOf(fed)
      && (mode.Undetermined? ==> predetect == fed)
      && (mode.Json? ==> jsonBody == fed)
      && splitter.Valid() && splitter.fed == (if mode.Events? then fed else [])
      && (!mode.Json? ==> jsonBody == [])
      && state == Running(sink, first, splitter.decode, fed)
    }

    constructor (sink: Sink<S>, first: S, decode: Decoder)
      ensures Valid() && fresh(splitter) && fed == []
      ensures this.sink == sink && this.first == first && splitter.decode == decode
    {
      this.sink, this.first, state := sink, first, first;
      splitter := new SseSplitter(decode);
      mode, predetect, jsonBody, fed := Undetermined, [], [], [];
    }

    method Deliver(events: seq<Event>)
      modifies this`state
      ensures state == Consume(sink, old(state), events)
    {
      for i := 0 to |events|
        invariant state == Consume(sink, old(state), events[..i])
      {
        state := sink.onEvent(state, events[i]);
        assert events[..i + 1][..i] == events[..i];
      }
      assert events[..|events|] == events;
    }

    /** However the response is cut into chunks, the state depends only on the bytes fed. */
    method Feed(chunk: seq<byte>)
      requires Valid()
      modifies this`mode, this`predetect, this`jsonBody, this`state, this`fed, splitter
      ensures Valid() && fed == old(fed) + chunk
    {
      ModeIsStable(fed, chunk);
      fed := fed + chunk;
      if mode.Undetermined? {
        predetect := predetect + chunk;
        mode := ModeOf(predetect);
        if mode.Undetermined? {
          return;
        }
        var buffered := predetect;
        predetect := [];
        Route(buffered);
      } else {
        Route(chunk);
      }
    }

    method Route(bytes: seq<byte>)
      requires !mode.Undetermined?
      requires splitter.Valid()
      modifies this`jsonBody, this`state, splitter
      ensures splitter.Valid()
      ensures mode.Json? ==> jsonBody == old(jsonBody) + bytes && state == old(state) && splitter.fed == old(splitter.fed)
      ensures mode.Events? ==>
                && jsonBody == old(jsonBody) && splitter.fed == old(splitter.fed) + bytes
                && forall base :: old(state) == Consume(sink, base, EventsSoFar(splitter.decode, old(splitter.fed)))
                     ==> state == Consume(sink, base, EventsSoFar(splitter.decode, splitter.fed))
    {
      if mode.Json? {
        jsonBody := jsonBody + bytes;
      } else {
        var events := splitter.Feed(bytes);
        Deliver(events);
        forall base | old(state) == Consume(sink, base, EventsSoFar(splitter.decode, old(splitter.fed)))
          ensures state == Consume(sink, base, EventsSoFar(splitter.decode, splitter.fed))
        {
          ConsumeConcat(sink, base, EventsSoFar(splitter.decode, old(splitter.fed)), events);
        }
      }
    }

    method Finish() returns (final: S)
      requires Valid()
      modifies this`state, splitter
      ensures final == Finished(sink, first, splitter.decode, fed)
    {
      match mode {
        case Json => state := sink.onBody(state, jsonBody);
        case Events =>
          var events := splitter.Flush();
          ConsumeConcat(sink, first, EventsSoFar(splitter.decode, fed), events);
          Deliver(events);
        case Undetermined =>
      }
      return state;
    }
  }

  // ---------- visible text ----------

  const TAIL_CHARS: nat := 4096

  /** The last `max` characters of a text, or all of it. */
  function LastChars(text: string, max: nat): string {
    if |text| <= max then text else text[|text| - max..]
  }

  method BoundTail(buffer: string, max: nat) returns (bounded: string)
    ensures bounded == LastChars(buffer, max)
  {
    bounded := buffer;
    if |buffer| > max {
      var excess := |buffer| - max;
      bounded := if excess < |buffer| then buffer[excess..] else [];
    }
  }

  class TextTracker {
    var full: string
    var tail: string

    ghost predicate Valid()
      reads this
    {
      tail == LastChars(full, TAIL_CHARS)
    }

    constructor ()
      ensures Valid() && full == ""
    {
      full, tail := "", "";
    }

    /** The tail is always the last characters of everything pushed, although it is trimmed at every push. */
    method Push(s: string)
      requires Valid()
      modifies this
      ensures Valid() && full == old(full) + s
    {
      if s == "" {
        return;
      }
      full := full + s;
      tail := BoundTail(tail + s, TAIL_CHARS);
    }
  }
}
