/**
 Guarded forwarding (`src/rules.rs:118-153`, `src/relay/pipeline.rs:361-447`): every upstream chunk goes to the client as it
 came, until a stream rule fires on what has been read so far. A panic in the parser or the guard only ends the
 monitoring. The contract of `ForwardResponse` speaks about the frames alone.
 */
module Forward {
  import opened Wrappers
  import opened Sse
  import opened Stream

  // ---------- the guard ----------

  datatype CutPattern = CutPattern(name: string, matches: string -> bool)

  datatype Rules = Rules(maxResponseChars: Option<nat>, cutPatterns: seq<CutPattern>)

  function FirstMatch(patterns: seq<CutPattern>, tail: string): Option<string> {
    if patterns == [] then None
    else if patterns[0].matches(tail) then Some(patterns[0].name)
    else FirstMatch(patterns[1..], tail)
  }

  /** The rule an untriggered guard names for what a parser has read. */
  function Verdict(rules: Rules, chars: nat, tail: string): Option<string> {
    if rules.maxResponseChars.Some? && chars > rules.maxResponseChars.value then Some("max_response_chars")
    else FirstMatch(rules.cutPatterns, tail)
  }

  /** The first pattern that matches. */
  predicate MatchesFirst(patterns: seq<CutPattern>, tail: string, i: nat) {
    && i < |patterns| && patterns[i].matches(tail)
    && forall j :: 0 <= j < i ==> !patterns[j].matches(tail)
  }

  /**
   The limit comes before the patterns; of the patterns that match, the first one is named; nothing is named exactly when the
   count is within the limit and no pattern matches.
   */
  lemma VerdictExactly(rules: Rules, chars: nat, tail: string)
    ensures var over := rules.maxResponseChars.Some? && chars > rules.maxResponseChars.value;
      && (over ==> Verdict(rules, chars, tail) == Some("max_response_chars"))
      && (Verdict(rules, chars, tail).None? <==> !over && forall p :: p in rules.cutPatterns ==> !p.matches(tail))
      && (!over ==> forall i: nat :: MatchesFirst(rules.cutPatterns, tail, i)
                      ==> Verdict(rules, chars, tail) == Some(rules.cutPatterns[i].name))
  {
    FirstMatchExactly(rules.cutPatterns, tail);
  }

  lemma {:induction false} FirstMatchExactly(patterns: seq<CutPattern>, tail: string)
    ensures FirstMatch(patterns, tail).None? <==> forall p :: p in patterns ==> !p.matches(tail)
    ensures forall i: nat :: MatchesFirst(patterns, tail, i) ==> FirstMatch(patterns, tail) == Some(patterns[i].name)
  {
    if patterns != [] && !patterns[0].matches(tail) {
      var rest := patterns[1..];
      FirstMatchExactly(rest, tail);
      assert patterns == [patterns[0]] + rest;
      forall i: nat | MatchesFirst(patterns, tail, i) ensures FirstMatch(patterns, tail) == Some(patterns[i].name) {
        assert forall j :: 0 <= j < |rest| ==> rest[j] == patterns[j + 1];
        assert MatchesFirst(rest, tail, i - 1);
      }
    }
  }

  class StreamGuard {
    const rules: Rules
    var triggered: bool

    constructor (rules: Rules)
      ensures this.rules == rules && !triggered
    {
      this.rules, triggered := rules, false;
    }

    /** Names a rule at most once, and then the first one that applies. */
    method Check(chars: nat, tail: string) returns (rule: Option<string>)
      modifies this`triggered
      ensures rule == if old(triggered) then None else Verdict(rules, chars, tail)
      ensures triggered == (old(triggered) || rule.Some?)
    {
      if triggered {
        return None;
      }
      if rules.maxResponseChars.Some? {
        if chars > rules.maxResponseChars.value {
          triggered := true;
          return Some("max_response_chars");
        }
      }
      for i := 0 to |rules.cutPatterns|
        invariant !triggered
        invariant FirstMatch(rules.cutPatterns, tail) == FirstMatch(rules.cutPatterns[i..], tail)
      {
        if rules.cutPatterns[i].matches(tail) {
          triggered := true;
          return Some(rules.cutPatterns[i].name);
        }
      }
      return None;
    }
  }

  // ---------- the frames of a response ----------

  /**
   One upstream frame: a data chunk with its decoded form, whether monitoring it panics, and whether the client is still
   there to take the next message; a frame without data; or the error the read ended with.
   */
  datatype Frame =
    | Data(raw: seq<byte>, decoded: seq<byte>, panics: bool, accepted: bool)
    | NoData
    | ReadError(message: string)

  datatype Call<!S> = Call(monitored: bool, rules: Rules, sink: Sink<S>, first: S, decode: Decoder, identity: bool,
                           cutTail: string -> seq<byte>)

  /** What the parser has been fed, and what the client has been sent, after some frames. */
  function Seen(frames: seq<Frame>): seq<byte> {
    if frames == [] then []
    else Seen(frames[..|frames| - 1]) + (match frames[|frames| - 1] case Data(_, decoded, _, _) => decoded case _ => [])
  }

  function Raws(frames: seq<Frame>): seq<seq<byte>> {
    if frames == [] then []
    else Raws(frames[..|frames| - 1]) + (match frames[|frames| - 1] case Data(raw, _, _, _) => [raw] case _ => [])
  }

  predicate Panicked(frames: seq<Frame>) {
    frames != [] && (Panicked(frames[..|frames| - 1]) || (frames[|frames| - 1].Data? && frames[|frames| - 1].panics))
  }

  /** The rule that fires on the last of some frames: a reader of the decoded bytes so far would be cut by it. */
  function Fires<S>(call: Call<S>, frames: seq<Frame>): Option<string> {
    if frames == [] || !frames[|frames| - 1].Data? || !call.monitored || Panicked(frames) then None
    else
      ReadVerdict(call, Running(call.sink, call.first, call.decode, Seen(frames)))
  }

  /** The rule that cuts a reader whose parser is in this state. */
  function ReadVerdict<S>(call: Call<S>, state: S): Option<string> {
    Verdict(call.rules, call.sink.chars(state), call.sink.tail(state))
  }

  /** Whether forwarding ends at the last of some frames. */
  predicate Ends<S>(call: Call<S>, frames: seq<Frame>) {
    frames != [] &&
    (Fires(call, frames).Some?
     || frames[|frames| - 1].ReadError?
     || (frames[|frames| - 1].Data? && !frames[|frames| - 1].accepted))
  }

  predicate EndsAt<S>(call: Call<S>, frames: seq<Frame>, k: nat)
    requires k < |frames|
  {
    Ends(call, frames[..k + 1])
  }

  /** How many frames are passed over before the one that ends forwarding. */
  ghost predicate StopsAt<S>(call: Call<S>, frames: seq<Frame>, stop: nat) {
    && stop <= |frames|
    && (forall k :: 0 <= k < stop ==> !EndsAt(call, frames, k))
    && (stop < |frames| ==> EndsAt(call, frames, stop))
  }

  /** What the client gets in place of the chunk that fired a rule. */
  function Tail<S>(call: Call<S>, rule: string, accepted: bool): seq<seq<byte>> {
    if call.identity && call.cutTail(rule) != [] && accepted then [call.cutTail(rule)] else []
  }

  lemma OneMore<S>(call: Call<S>, done: seq<Frame>, raw: seq<byte>, decoded: seq<byte>, panics: bool, accepted: bool)
    ensures var now := done + [Data(raw, decoded, panics, accepted)];
            && Seen(now) == Seen(done) + decoded
            && (Panicked(now) <==> Panicked(done) || panics)
            && Fires(call, now)
            == if !call.monitored || Panicked(done) || panics then None
               else ReadVerdict(call, Running(call.sink, call.first, call.decode, Seen(done) + decoded))
  {
    var now := done + [Data(raw, decoded, panics, accepted)];
    assert now[..|done|] == done;
  }

  // ---------- the loop ----------

  /** The local state of `forward_response`. */
  class Forwarder<S> {
    const call: Call<S>
    const parser: StreamOrBody<S>
    const guard: StreamGuard
    var monitoring: bool
    var sent: seq<seq<byte>>
    var cutRule: Option<string>
    var error: Option<string>
    /** The frames handled so far, all of them passed over. */
    ghost var done: seq<Frame>

    ghost predicate Valid()
      reads this, parser, parser.splitter, guard
    {
      && cutRule.None?
      && sent == Raws(done)
      && (monitoring <==> call.monitored && !Panicked(done))
      && (error.Some? <==> call.monitored && Panicked(done))
      && parser.sink == call.sink && parser.first == call.first && parser.splitter.decode == call.decode
      && guard.rules == call.rules
      && (monitoring ==> parser.Valid() && !guard.triggered && parser.fed == Seen(done))
    }

    constructor (call: Call<S>)
      ensures Valid() && done == [] && this.call == call
      ensures fresh(parser) && fresh(parser.splitter) && fresh(guard)
    {
      this.call := call;
      parser := new StreamOrBody(call.sink, call.first, call.decode);
      guard := new StreamGuard(call.rules);
      monitoring, sent, cutRule, error, done := call.monitored, [], None, None, [];
    }

    /** One chunk through the parser and the guard, inside `fail_open`: a panic ends the monitoring and nothing else. */
    method Observe(raw: seq<byte>, decoded: seq<byte>, panics: bool, accepted: bool)
      requires Valid()
      modifies this`monitoring, this`cutRule, this`error
      modifies parser`mode, parser`predetect, parser`jsonBody, parser`state, parser`fed, parser.splitter, guard`triggered
      ensures var now := done + [Data(raw, decoded, panics, accepted)];
              && cutRule == Fires(call, now)
              && (monitoring <==> call.monitored && !Panicked(now))
              && (error.Some? <==> call.monitored && Panicked(now))
              && (monitoring ==> parser.Valid() && parser.fed == Seen(now) && guard.triggered == cutRule.Some?)
    {
      OneMore(call, done, raw, decoded, panics, accepted);
      if monitoring {
        if panics {
          monitoring := false;
          if error.None? {
            error := Some("response parser panicked");
          }
        } else {
          parser.Feed(decoded);
          cutRule := guard.Check(parser.sink.chars(parser.state), parser.sink.tail(parser.state));
        }
      }
    }

    /** One turn of the loop; `ended` tells that it was the last. */
    method OnData(raw: seq<byte>, decoded: seq<byte>, panics: bool, accepted: bool) returns (ended: bool)
      requires Valid()
      modifies this
      modifies parser`mode, parser`predetect, parser`jsonBody, parser`state, parser`fed, parser.splitter, guard`triggered
      ensures var now := old(done) + [Data(raw, decoded, panics, accepted)];
              && (ended <==> Fires(call, now).Some? || !accepted)
              && (!ended ==> Valid() && done == now)
              && (ended ==>
                    && cutRule == Fires(call, now)
                    && sent == Raws(old(done)) + (if cutRule.Some? then Tail(call, cutRule.value, accepted) else [])
                    && (error.Some? <==> (call.monitored && Panicked(now)) || cutRule.None?))
    {
      ghost var now := done + [Data(raw, decoded, panics, accepted)];
      assert now[..|done|] == done;
      Observe(raw, decoded, panics, accepted);
      if cutRule.Some? {
        var tail := if call.identity then call.cutTail(cutRule.value) else [];
        if tail != [] && accepted {
          sent := sent + [tail];
        }
        return true;
      }
      if !accepted {
        if error.None? {
          error := Some("client disconnected");
        }
        return true;
      }
      sent := sent + [raw];
      done := now;
      return false;
    }

    method OnNoData()
      requires Valid()
      modifies this`done
      ensures Valid() && done == old(done) + [NoData]
    {
      done := done + [NoData];
      assert done[..|old(done)|] == old(done);
    }
  }

  /** The frames forwarding looked at. */
  function Handled(frames: seq<Frame>, stop: nat): seq<Frame> {
    if stop < |frames| then frames[..stop + 1] else frames
  }

  lemma DataEnds<S>(call: Call<S>, frames: seq<Frame>, k: nat)
    requires k < |frames|
    ensures frames[k].Data? ==>
              (EndsAt(call, frames, k) <==> Fires(call, frames[..k + 1]).Some? || !frames[k].accepted)
    ensures frames[k].ReadError? ==> EndsAt(call, frames, k) && Fires(call, frames[..k + 1]).None?
    ensures frames[k].NoData? ==> !EndsAt(call, frames, k)
    ensures frames[..k + 1] == frames[..k] + [frames[k]]
  {
    assert frames[..k + 1][|frames[..k + 1]| - 1] == frames[k];
  }

  /**
   The client receives whole upstream chunks, unchanged and in order, up to the first one at which a rule fires on what has
   been read so far, the client is gone or the read fails; then, when a rule fired, the cut tail.
   */
  method ForwardResponse<S>(call: Call<S>, frames: seq<Frame>)
    returns (sent: seq<seq<byte>>, cutRule: Option<string>, error: Option<string>, stop: nat)
    ensures StopsAt(call, frames, stop)
    ensures cutRule == if stop < |frames| then Fires(call, frames[..stop + 1]) else None
    ensures sent == Raws(frames[..stop])
                    + (if cutRule.Some? && frames[stop].Data? then Tail(call, cutRule.value, frames[stop].accepted) else [])
    ensures !call.identity ==> sent == Raws(frames[..stop])
    ensures error.Some? <==> (call.monitored && Panicked(Handled(frames, stop))) || (stop < |frames| && cutRule.None?)
  {
    var state := new Forwarder(call);
    stop := 0;
    while stop < |frames|
      invariant stop <= |frames|
      invariant state.Valid() && state.done == frames[..stop] && state.call == call
      invariant forall k :: 0 <= k < stop ==> !EndsAt(call, frames, k)
      invariant fresh(state) && fresh(state.parser) && fresh(state.parser.splitter) && fresh(state.guard)
      decreases |frames| - stop
    {
      DataEnds(call, frames, stop);
      match frames[stop] {
        case ReadError(message) =>
          return state.sent, None, Some(message), stop;
        case NoData =>
          state.OnNoData();
        case Data(raw, decoded, panics, accepted) =>
          var ended := state.OnData(raw, decoded, panics, accepted);
          if ended {
            return state.sent, state.cutRule, state.error, stop;
          }
      }
      stop := stop + 1;
    }
    assert frames[..stop] == frames;
    return state.sent, None, state.error, stop;
  }
}
