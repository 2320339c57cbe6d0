/** Which responses end a turn (`src/hooks/mod.rs:300-320` over the summaries of the three wires). */
module TurnLaws {
  import opened Wrappers
  import opened Usage
  import opened Sse
  import opened Reports
  import Session
  import SessionLaws
  import Stream
  import Anthropic
  import AnthropicLaws
  import Responses
  import ResponsesLaws
  import Chat
  import ChatLaws

  /** After a stream, the end of the turn fires exactly when the last stop reason is one of two. */
  lemma AnthropicEndsTheTurn(json: JsonText, s: Session.State, events: seq<Event>)
    ensures var summary := Anthropic.IntoSummary(Stream.Consume(Anthropic.TheSink(json), Anthropic.EMPTY, events));
      var stop := Latest(events, AnthropicLaws.Stop(json));
      SessionLaws.Fires(Session.RecordResponse(s, summary), Session.TurnEnd)
      <==> stop == Some("end_turn") || stop == Some("stop_sequence")
  {
    AnthropicLaws.SummaryOfStream(json, events);
    SessionLaws.ResponseFires(s, Anthropic.IntoSummary(Stream.Consume(Anthropic.TheSink(json), Anthropic.EMPTY, events)));
  }

  /** Exactly when the last status is `completed` and no item that was brought is a call. */
  lemma ResponsesEndTheTurn(json: JsonText, s: Session.State, events: seq<Event>)
    ensures var summary := Responses.IntoSummary(Stream.Consume(Responses.TheSink(json), Responses.EMPTY, events));
      SessionLaws.Fires(Session.RecordResponse(s, summary), Session.TurnEnd)
      <==> && Latest(events, ResponsesLaws.Status(json)) == Some("completed")
           && forall item :: item in ResponsesLaws.AllItems(json, events) ==> !ResponsesLaws.IsCall(item)
  {
    ResponsesLaws.SummaryOfStream(json, events);
    SessionLaws.ResponseFires(s, Responses.IntoSummary(Stream.Consume(Responses.TheSink(json), Responses.EMPTY, events)));
  }

  /** Exactly when the last finish reason is `stop`. */
  lemma ChatEndsTheTurn(json: JsonText, s: Session.State, events: seq<Event>)
    ensures var summary := Chat.IntoSummary(Stream.Consume(Chat.TheSink(json), Chat.EMPTY, events));
      SessionLaws.Fires(Session.RecordResponse(s, summary), Session.TurnEnd)
      <==> Latest(events, ChatLaws.Finish(json)) == Some("stop")
  {
    ChatLaws.SummaryOfStream(json, events);
    SessionLaws.ResponseFires(s, Chat.IntoSummary(Stream.Consume(Chat.TheSink(json), Chat.EMPTY, events)));
  }
}
