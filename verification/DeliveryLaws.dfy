/**
 What a delivery hands the agent (`src/hooks/mod.rs:420-520`, `src/transform.rs:310-465`): the whole outbox, in order, at the
 final item of the conversation, each ping with its text and images, and their ids beside the body.
 */
module DeliveryLaws {
  import opened Wrappers
  import opened Json
  import opened Pings
  import opened Injection
  import opened Session
  import opened PingLaws
  import opened Texts
  import InjectionLaws
  import SessionLaws

  /** Values that show pings one behind the other, in order, and nothing else. */
  ghost predicate ShowAll(wire: Wire, values: seq<Value>, pings: seq<Ping>)
    decreases |pings|
  {
    if pings == [] then values == [] else
    var last := pings[|pings| - 1];
    exists cut :: 0 <= cut <= |values| && ShowAll(wire, values[..cut], pings[..|pings| - 1])
               && Shown(wire, values[cut..], last.text, last.attachments)
  }

  lemma {:induction false} AdditionsShowAll(wire: Wire, pings: seq<Ping>, anchor: nat)
    ensures ShowAll(wire, AllAdditions(Maker(wire), PinAll(pings, anchor)), pings)
  {
    if pings != [] {
      var front, last := pings[..|pings| - 1], pings[|pings| - 1];
      var shown, more := AllAdditions(Maker(wire), PinAll(front, anchor)), Maker(wire)(IntoPinned(last, anchor));
      AdditionsShowAll(wire, front, anchor);
      assert PinAll(pings, anchor)[..|front|] == PinAll(front, anchor);
      AdditionShowsPing(wire, IntoPinned(last, anchor));
      assert (shown + more)[..|shown|] == shown && (shown + more)[|shown|..] == more;
    }
  }

  // ---------- the additions at the final item ----------

  lemma {:induction false} AllAt(pings: seq<PinnedPing>, anchor: nat)
    requires forall p :: p in pings ==> p.anchor == anchor
    ensures At(pings, anchor) == pings
  {
    if pings != [] {
      AllAt(pings[..|pings| - 1], anchor);
      assert pings[|pings| - 1] in pings;
      assert pings == pings[..|pings| - 1] + [pings[|pings| - 1]];
    }
  }

  lemma {:induction false} AdditionsConcat(make: PinnedPing -> seq<Value>, kept: seq<PinnedPing>, pings: seq<PinnedPing>)
    ensures AllAdditions(make, kept + pings) == AllAdditions(make, kept) + AllAdditions(make, pings)
  {
    if pings == [] {
      assert kept + [] == kept;
    } else {
      var front, last := pings[..|pings| - 1], pings[|pings| - 1];
      AdditionsConcat(make, kept, front);
      SplitLast(kept, pings);
      AdditionsSnoc(make, kept + front, last);
      AdditionsSnoc(make, front, last);
      Regrouped(AllAdditions(make, kept), AllAdditions(make, front), make(last));
    }
  }

  lemma AdditionsSnoc(make: PinnedPing -> seq<Value>, front: seq<PinnedPing>, last: PinnedPing)
    ensures AllAdditions(make, front + [last]) == AllAdditions(make, front) + make(last)
  {
    assert (front + [last])[..|front|] == front;
  }

  /** What is added at the final item: what old pins there add, and then the outbox. */
  lemma FinalAdditions(wire: Wire, kept: seq<PinnedPing>, pings: seq<Ping>, anchor: nat)
    ensures AllAdditions(Maker(wire), At(kept + PinAll(pings, anchor), anchor))
         == AllAdditions(Maker(wire), At(kept, anchor)) + AllAdditions(Maker(wire), PinAll(pings, anchor))
  {
    InjectionLaws.AtConcat(kept, PinAll(pings, anchor), anchor);
    AllAt(PinAll(pings, anchor), anchor);
    AdditionsConcat(Maker(wire), At(kept, anchor), PinAll(pings, anchor));
  }

  // ---------- the delivered conversation ----------

  /** A suffix of a sequence. */
  predicate EndsIn<T(==)>(whole: seq<T>, tail: seq<T>) {
    |tail| <= |whole| && whole[|whole| - |tail|..] == tail
  }

  /**
   The outbox stands at the end of a conversation whose client sent `last` as its final item: on Responses and Chat in front
   of it, or at the very end when it is a tool output; on Anthropic inside it, behind its last tool result.
   */
  ghost predicate StandsAtTheEnd(wire: Wire, last: Value, after: seq<Value>, shown: seq<Value>) {
    if wire.AnthropicMessages? then
      && Blocks(last).Some? && after != [] && after[|after| - 1].GetArray("content").Some?
      && var blocks := Blocks(last).value;
         EndsIn(after[|after| - 1].GetArray("content").value, shown + blocks[InsertionPoint(blocks)..])
    else if IsToolOutput(wire, last) then EndsIn(after, shown)
    else EndsIn(after, shown + [last])
  }

  lemma EndsInConcat<T>(front: seq<T>, tail: seq<T>)
    ensures EndsIn(front + tail, tail)
  {
  }

  lemma LongerEnd<T>(front: seq<T>, whole: seq<T>, tail: seq<T>)
    requires EndsIn(whole, tail)
    ensures EndsIn(front + whole, tail)
  {
    assert (front + whole)[|front + whole| - |tail|..] == whole[|whole| - |tail|..];
  }

  lemma AroundEnds(item: Value, isOutput: bool, kept: seq<Value>, shown: seq<Value>)
    ensures EndsIn(Around(item, isOutput, kept + shown), if isOutput then shown else shown + [item])
  {
    if isOutput {
      assert [item] + (kept + shown) == ([item] + kept) + shown;
      EndsInConcat([item] + kept, shown);
    } else {
      assert (kept + shown) + [item] == kept + (shown + [item]);
      EndsInConcat(kept, shown + [item]);
    }
  }

  lemma SplicedEnds(blocks: seq<Value>, kept: seq<Value>, shown: seq<Value>)
    ensures EndsIn(Spliced(blocks, kept + shown), shown + blocks[InsertionPoint(blocks)..])
  {
    var k := InsertionPoint(blocks);
    assert Spliced(blocks, kept + shown) == (blocks[..k] + kept) + (shown + blocks[k..]);
    EndsInConcat(blocks[..k] + kept, shown + blocks[k..]);
  }

  lemma ItemsEnd(wire: Wire, items: seq<Value>, kept: seq<PinnedPing>, pings: seq<Ping>)
    requires items != [] && !wire.AnthropicMessages?
    ensures var anchor := |items| - 1;
      StandsAtTheEnd(wire, items[anchor], Woven(wire, items, kept + PinAll(pings, anchor)),
                     AllAdditions(Maker(wire), PinAll(pings, anchor)))
  {
    var anchor := |items| - 1;
    var pins := kept + PinAll(pings, anchor);
    var before := AllAdditions(Maker(wire), At(kept, anchor));
    var shown := AllAdditions(Maker(wire), PinAll(pings, anchor));
    FinalAdditions(wire, kept, pings, anchor);
    assert AddedAt(Maker(wire), pins)(anchor) == before + shown;
    AroundEnds(items[anchor], IsToolOutput(wire, items[anchor]), before, shown);
    LongerEnd(WovenItems(OutputTest(wire), AddedAt(Maker(wire), pins), items, anchor),
              Around(items[anchor], OutputTest(wire)(items[anchor]), before + shown),
              if IsToolOutput(wire, items[anchor]) then shown else shown + [items[anchor]]);
  }

  lemma MessageEnds(messages: seq<Value>, kept: seq<PinnedPing>, pings: seq<Ping>)
    requires messages != [] && pings != [] && Blocks(messages[|messages| - 1]).Some?
    ensures var anchor := |messages| - 1;
      StandsAtTheEnd(AnthropicMessages, messages[anchor], Woven(AnthropicMessages, messages, kept + PinAll(pings, anchor)),
                     AllAdditions(Maker(AnthropicMessages), PinAll(pings, anchor)))
  {
    var anchor := |messages| - 1;
    var pins, last := kept + PinAll(pings, anchor), messages[anchor];
    var before := AllAdditions(Maker(AnthropicMessages), At(kept, anchor));
    var shown := AllAdditions(Maker(AnthropicMessages), PinAll(pings, anchor));
    FinalAdditions(AnthropicMessages, kept, pings, anchor);
    InjectionLaws.AtConcat(kept, PinAll(pings, anchor), anchor);
    AllAt(PinAll(pings, anchor), anchor);
    assert At(pins, anchor) != [];
    var blocks := Blocks(last).value;
    var content := Array(Spliced(blocks, before + shown));
    assert WovenMessage(last, At(pins, anchor)) == last.With("content", content);
    GetWith(last, "content", content, "content");
    SplicedEnds(blocks, before, shown);
  }

  /**
   A delivery that succeeds hands over the whole outbox: the body it returns shows every waiting ping, text and images, in
   order, at the final item, and the ids beside it are theirs.
   */
  lemma DeliveryShowsTheOutbox(s: State, wire: Wire, body: Body)
    requires AttachPings(RealInjector(), s, wire, body).1.Some? && s.outbox != []
    ensures body.Parsed? && Items(wire, body.root).Some? && Items(wire, body.root).value != []
    ensures var delivery, items := AttachPings(RealInjector(), s, wire, body).1.value, Items(wire, body.root).value;
      && delivery.body.Parsed? && Items(wire, delivery.body.root).Some?
      && (exists shown :: ShowAll(wire, shown, s.outbox)
            && StandsAtTheEnd(wire, items[|items| - 1], Items(wire, delivery.body.root).value, shown))
      && |delivery.ids| == |s.outbox| && forall i :: 0 <= i < |s.outbox| ==> delivery.ids[i] == s.outbox[i].id
  {
    SessionLaws.AttachExactly(s, wire, body);
    var items := Items(wire, body.root).value;
    var anchor := |items| - 1;
    SessionLaws.AttachUnfolds(RealInjector(), s, wire, body, |items|);
    if Injected(wire, body, s.delivered + PinAll(s.outbox, anchor)).Some? {
      InjectedStands(s, s.delivered, wire, body, anchor);
    } else {
      InjectedStands(s, [], wire, body, anchor);
    }
  }

  /** The injection, as the injector performs it. */
  function Injected(wire: Wire, body: Body, pins: seq<PinnedPing>): Option<Body> {
    RealInjector().inject(wire, body, pins)
  }

  lemma InjectedStands(s: State, kept: seq<PinnedPing>, wire: Wire, body: Body, anchor: nat)
    requires body.Parsed? && Items(wire, body.root).Some? && |Items(wire, body.root).value| == anchor + 1 && s.outbox != []
    requires Injected(wire, body, kept + PinAll(s.outbox, anchor)).Some?
    ensures var after, items := Injected(wire, body, kept + PinAll(s.outbox, anchor)).value, Items(wire, body.root).value;
      && after.Parsed? && Items(wire, after.root).Some?
      && exists shown :: ShowAll(wire, shown, s.outbox)
           && StandsAtTheEnd(wire, items[anchor], Items(wire, after.root).value, shown)
  {
    var items, pins := Items(wire, body.root).value, kept + PinAll(s.outbox, anchor);
    var shown := AllAdditions(Maker(wire), PinAll(s.outbox, anchor));
    assert pins[|kept|] in pins && pins[|kept|].anchor == anchor;
    AdditionsShowAll(wire, s.outbox, anchor);
    WithItemsReads(wire, body.root, Woven(wire, items, pins));
    if wire.AnthropicMessages? {
      MessageEnds(items, kept, s.outbox);
    } else {
      ItemsEnd(wire, items, kept, s.outbox);
    }
    assert ShowAll(wire, shown, s.outbox) && StandsAtTheEnd(wire, items[anchor], Woven(wire, items, pins), shown);
  }

  // ---------- which bodies can be delivered with ----------

  /** A conversation a ping can go into: not empty, and on Anthropic ending in a user message with text or blocks. */
  predicate Carries(wire: Wire, root: Value) {
    match wire
    case OpenAiResponses =>
      root.GetStr("input").Some? || (root.GetArray("input").Some? && root.GetArray("input").value != [])
    case OpenAiChat => root.GetArray("messages").Some? && root.GetArray("messages").value != []
    case AnthropicMessages =>
      && root.GetArray("messages").Some?
      && var messages := root.GetArray("messages").value;
         && messages != []
         && var last := messages[|messages| - 1];
            last.GetStr("role") == Some("user") && (last.GetStr("content").Some? || last.GetArray("content").Some?)
    case Opaque => false
  }

  /** What waits is delivered exactly with a body that parses to such a conversation, whatever was delivered before. */
  lemma DeliveredExactlyWhen(s: State, wire: Wire, body: Body)
    requires s.outbox != []
    ensures AttachPings(RealInjector(), s, wire, body).1.Some? <==> body.Parsed? && Carries(wire, body.root)
  {
    SessionLaws.AttachExactly(s, wire, body);
    if body.Parsed? {
      CarriesExactly(wire, body.root);
    }
  }

  lemma CarriesExactly(wire: Wire, root: Value)
    ensures Carries(wire, root)
       <==> && Items(wire, root).Some? && Items(wire, root).value != []
            && AnchorFits(wire, Items(wire, root).value, |Items(wire, root).value| - 1)
  {
  }
}
