/** What a stream reports about itself: of each thing, the last event that says anything about it. */
module Reports {
  import opened Wrappers
  import opened Json
  import opened Usage
  import opened Sse
  import Stream

  /** The last thing said, if anything is. */
  function Latest<T>(events: seq<Event>, read: Event -> Option<T>): Option<T> {
    if events == [] then None
    else Or(read(events[|events| - 1]), Latest(events[..|events| - 1], read))
  }

  /** The kind of an event: its document's type, or else the event's own name. */
  function KindOf(value: Value, event: Event): string {
    OrEmpty(Or(value.GetStr("type"), event.kind))
  }

  /** A number, or a text, of a part that may not be there. */
  function NatIn(part: Option<Value>, key: string): Option<nat> {
    match part case Some(v) => v.GetNat(key) case None => None
  }

  function StrIn(part: Option<Value>, key: string): Option<string> {
    match part case Some(v) => v.GetStr(key) case None => None
  }

  /** A reading of documents, as a reading of events; what does not parse says nothing. */
  function Said<T>(json: JsonText, read: (string, Value) -> Option<T>): Event -> Option<T> {
    (event: Event) =>
      match ParseEventJson(json, event.data) case Some(value) => read(KindOf(value, event), value) case None => None
  }

  /** Exactly the last event that says something is the one that counts. */
  lemma {:induction false} LatestExactly<T>(events: seq<Event>, read: Event -> Option<T>, k: nat)
    requires k < |events| && read(events[k]).Some?
    requires forall j :: k < j < |events| ==> read(events[j]) == None
    ensures Latest(events, read) == read(events[k])
  {
    if k < |events| - 1 {
      LatestExactly(events[..|events| - 1], read, k);
    }
  }

  lemma {:induction false} NothingSaid<T>(events: seq<Event>, read: Event -> Option<T>)
    ensures Latest(events, read) == None <==> forall e :: e in events ==> read(e) == None
  {
    if events != [] {
      NothingSaid(events[..|events| - 1], read);
      assert events == events[..|events| - 1] + [events[|events| - 1]];
    }
  }

  /** Everything said, in order. */
  function Sayings<T>(events: seq<Event>, read: Event -> Option<T>): seq<T> {
    if events == [] then [] else
    Sayings(events[..|events| - 1], read) + (match read(events[|events| - 1]) case Some(said) => [said] case None => [])
  }

  lemma SayingsSnoc<T>(events: seq<Event>, e: Event, read: Event -> Option<T>)
    ensures Sayings(events + [e], read) == Sayings(events, read) + (match read(e) case Some(said) => [said] case None => [])
    ensures Latest(events + [e], read) == Or(read(e), Latest(events, read))
  {
    assert (events + [e])[..|events|] == events;
  }

  /** What holds at first, and from event to event, holds of a stream. */
  lemma {:induction false} StreamKeeps<S(!new)>(sink: Stream.Sink<S>, first: S, events: seq<Event>,
                                                holds: (S, seq<Event>) -> bool)
    requires holds(first, [])
    requires forall s, before, e :: holds(s, before) ==> holds(sink.onEvent(s, e), before + [e])
    ensures holds(Stream.Consume(sink, first, events), events)
  {
    if events != [] {
      StreamKeeps(sink, first, events[..|events| - 1], holds);
      assert events == events[..|events| - 1] + [events[|events| - 1]];
    }
  }

  /** The reasoning a summary states: the number reported, or else a quarter of what was thought, as an estimate. */
  predicate StatesReasoning(tokens: Tokens, exact: Option<nat>, thoughtChars: nat) {
    match exact
    case Some(n) => tokens.reasoning == Some(n) && !tokens.reasoningEstimated
    case None =>
      if thoughtChars == 0 then tokens.reasoning == None && !tokens.reasoningEstimated
      else tokens.reasoningEstimated && tokens.reasoning.Some?
           && 4 * tokens.reasoning.value <= thoughtChars < 4 * tokens.reasoning.value + 4
  }

  // ---------- what is picked from a list ----------

  function Picks<A, B>(list: seq<A>, pick: A -> Option<B>): seq<B> {
    if list == [] then [] else
    Picks(list[..|list| - 1], pick) + (match pick(list[|list| - 1]) case Some(b) => [b] case None => [])
  }

  ghost predicate PickedAt<A, B>(picked: seq<B>, list: seq<A>, pick: A -> Option<B>, at: seq<nat>) {
    && |at| == |picked| && Increasing(at)
    && (forall i: nat :: i in at <==> i < |list| && pick(list[i]).Some?)
    && (forall k :: 0 <= k < |at| ==> at[k] < |list| && pick(list[at[k]]) == Some(picked[k]))
  }

  /** Picked from the elements of a list for which there is something to pick, from all of them and in their order. */
  ghost predicate ArePicked<A, B>(picked: seq<B>, list: seq<A>, pick: A -> Option<B>) {
    exists at: seq<nat> :: PickedAt(picked, list, pick, at)
  }

  lemma PickedOnwards<A, B>(picked: seq<B>, list: seq<A>, pick: A -> Option<B>, at: seq<nat>, last: A)
    requires PickedAt(picked, list, pick, at)
    ensures match pick(last)
      case Some(b) => PickedAt(picked + [b], list + [last], pick, at + [|list|])
      case None => PickedAt(picked, list + [last], pick, at)
  {
    var all := list + [last];
    assert forall k :: 0 <= k < |at| ==> at[k] in at && all[at[k]] == list[at[k]];
  }

  lemma {:induction false} PicksArePicked<A, B>(list: seq<A>, pick: A -> Option<B>)
    ensures ArePicked(Picks(list, pick), list, pick)
  {
    if list == [] {
      assert PickedAt([], list, pick, []);
    } else {
      var front, last := list[..|list| - 1], list[|list| - 1];
      PicksArePicked(front, pick);
      var at: seq<nat> :| PickedAt(Picks(front, pick), front, pick, at);
      PickedOnwards(Picks(front, pick), front, pick, at, last);
      assert list == front + [last];
      assert Picks(front, pick) + [] == Picks(front, pick);
    }
  }
}
