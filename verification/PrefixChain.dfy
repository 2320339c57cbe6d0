/**
 The point of pinning (`src/hooks/mod.rs:490-517` over `src/transform.rs:326-440`): along a whole run, every body
 handed back by an attachment extends the previous one, so the provider's prompt cache keeps hitting. One-shot signals are
 not pinned, so bodies are compared with the places of their one-shot pieces erased (`View`); an Anthropic string content is
 compared in its one-block form.
 */
module PrefixChain {
  import opened Wrappers
  import opened Json
  import opened Pings
  import opened Injection
  import opened InjectionLaws
  import opened Session
  import opened Ledger
  import opened Protocol
  import opened ProtocolLaws
  import SessionLaws

  // ---------- one attachment ----------

  /** The batch of a first attempt: old pins are durable, new ones as their pings are. */
  function BatchMarks(s: State, anchor: nat): seq<Mark> {
    seq(|s.delivered|, i requires 0 <= i < |s.delivered| => Mark(s.delivered[i], Durable)) + NewMarks(s.outbox, anchor)
  }

  function NewMarks(pings: seq<Ping>, anchor: nat): seq<Mark> {
    seq(|pings|, i requires 0 <= i < |pings| =>
      Mark(IntoPinned(pings[i], anchor), if pings[i].transient then OneShot else Durable))
  }

  lemma BatchPins(s: State, anchor: nat)
    ensures Pins(BatchMarks(s, anchor)) == s.delivered + PinAll(s.outbox, anchor)
    ensures forall m :: m in BatchMarks(s, anchor) ==> m.origin != Client
  {
  }

  /** Erasing the one-shot pings of the batch leaves exactly the pins put on record. */
  lemma BatchDurables(s: State, anchor: nat)
    ensures Pins(KeepMarks(BatchMarks(s, anchor), {Client, Durable})) == s.delivered + DurablePins(s.outbox, anchor)
  {
    var front := seq(|s.delivered|, i requires 0 <= i < |s.delivered| => Mark(s.delivered[i], Durable));
    KeepAllDurable(front);
    NewDurables(s.outbox, anchor);
    KeepMarksConcat(front, NewMarks(s.outbox, anchor), {Client, Durable});
    PinsConcat(front, KeepMarks(NewMarks(s.outbox, anchor), {Client, Durable}));
    assert Pins(front) == s.delivered;
  }

  lemma PinsConcat(a: seq<Mark>, b: seq<Mark>)
    ensures Pins(a + b) == Pins(a) + Pins(b)
  {
  }

  lemma {:induction false} KeepAllDurable(marks: seq<Mark>)
    requires forall m :: m in marks ==> m.origin == Durable
    ensures KeepMarks(marks, {Client, Durable}) == marks
  {
    if marks != [] {
      KeepAllDurable(marks[..|marks| - 1]);
    }
  }

  lemma {:induction false} NewDurables(pings: seq<Ping>, anchor: nat)
    ensures Pins(KeepMarks(NewMarks(pings, anchor), {Client, Durable})) == DurablePins(pings, anchor)
  {
    if pings != [] {
      var shorter := pings[..|pings| - 1];
      assert NewMarks(pings, anchor)[..|pings| - 1] == NewMarks(shorter, anchor);
      NewDurables(shorter, anchor);
    }
  }

  lemma {:induction false} KeepMarksConcat(a: seq<Mark>, b: seq<Mark>, origins: set<Origin>)
    ensures KeepMarks(a + b, origins) == KeepMarks(a, origins) + KeepMarks(b, origins)
  {
    if b == [] {
      assert a + b == a;
    } else {
      assert (a + b)[..|a + b| - 1] == a + b[..|b| - 1];
      KeepMarksConcat(a, b[..|b| - 1], origins);
    }
  }

  /** What an attachment returned, with its one-shot pieces erased. */
  ghost predicate Shows(wire: Wire, s: State, items: seq<Value>, out: seq<Value>, view: seq<Value>)
    requires items != []
  {
    var marks := BatchMarks(s, |items| - 1);
    if wire.AnthropicMessages? then
      && |out| == |view| == |items|
      && forall i :: 0 <= i < |items| ==> ShowsMessage(items[i], MarksAt(marks, i), out[i], view[i])
    else
      var pieces := ItemPieces(OutputTest(wire), InsertedAt(Maker(wire), marks), items, |items|);
      out == Values(pieces) && view == Values(Keep(pieces, {Client, Durable}))
  }

  ghost predicate ShowsMessage(message: Value, marks: seq<Mark>, out: Value, view: Value) {
    match Blocks(message)
    case Some(blocks) =>
      && OneBlock(out) == message.With("content", Array(Values(BlockPieces(blocks, marks))))
      && view == message.With("content", Array(Values(Keep(BlockPieces(blocks, marks), {Client, Durable}))))
    case None => out == message && view == message
  }

  /** A successful attachment to a conversation, in terms of the pins it leaves on record. */
  ghost predicate ShowsItsPins(s: State, wire: Wire, items: seq<Value>, attached: (State, Option<Delivery>))
    requires items != []
  {
    var (after, r) := attached;
    && r.Some? && r.value.body.Parsed? && Items(wire, r.value.body.root).Some?
    && after.delivered == s.delivered + DurablePins(s.outbox, |items| - 1)
    && Shows(wire, s, items, Items(wire, r.value.body.root).value, Canonical(wire, items, after.delivered))
  }

  /**
   The body an attachment returns, once its one-shot pieces are erased, is the canonical conversation of the pins the
   attachment leaves on record.
   */
  lemma ReturnedBodyShowsItsPins(s: State, wire: Wire, body: Body)
    requires SessionLaws.CanAttach(s, wire, body)
    requires Accepts(wire, Items(wire, body.root).value, s.delivered + PinAll(s.outbox, |Items(wire, body.root).value| - 1))
    ensures ShowsItsPins(s, wire, Items(wire, body.root).value, AttachPings(RealInjector(), s, wire, body))
  {
    var items := Items(wire, body.root).value;
    ReturnedBody(s, wire, body, items);
    ShowsFrom(s, wire, items, AttachPings(RealInjector(), s, wire, body));
  }

  lemma ShowsFrom(s: State, wire: Wire, items: seq<Value>, attached: (State, Option<Delivery>))
    requires !wire.Opaque? && items != []
    requires attached.1.Some? && attached.1.value.body.Parsed?
    ensures Accepts(wire, items, s.delivered + PinAll(s.outbox, |items| - 1))
            && Items(wire, attached.1.value.body.root) == Some(Woven(wire, items, s.delivered + PinAll(s.outbox, |items| - 1)))
            && attached.0.delivered == s.delivered + DurablePins(s.outbox, |items| - 1)
        ==> ShowsItsPins(s, wire, items, attached)
  {
    BatchShows(s, wire, items);
  }

  lemma ReturnedBody(s: State, wire: Wire, body: Body, items: seq<Value>)
    requires SessionLaws.CanAttach(s, wire, body) && items == Items(wire, body.root).value
    requires Accepts(wire, items, s.delivered + PinAll(s.outbox, |items| - 1))
    ensures var (after, r) := AttachPings(RealInjector(), s, wire, body);
            && r.Some? && r.value.body.Parsed?
            && Items(wire, r.value.body.root) == Some(Woven(wire, items, s.delivered + PinAll(s.outbox, |items| - 1)))
            && after.delivered == s.delivered + DurablePins(s.outbox, |items| - 1)
  {
    SessionLaws.AttachByAcceptance(s, wire, body);
    InjectedItems(wire, body, s.delivered + PinAll(s.outbox, |items| - 1));
  }

  lemma InjectedItems(wire: Wire, body: Body, pins: seq<PinnedPing>)
    requires ConversationLen(wire, body).Some? && pins != [] && Accepts(wire, Items(wire, body.root).value, pins)
    ensures Inject(wire, body, pins).Some? && Inject(wire, body, pins).value.Parsed?
    ensures Items(wire, Inject(wire, body, pins).value.root) == Some(Woven(wire, Items(wire, body.root).value, pins))
  {
    WithItemsReads(wire, body.root, Woven(wire, Items(wire, body.root).value, pins));
  }

  lemma BatchShows(s: State, wire: Wire, items: seq<Value>)
    requires !wire.Opaque? && items != []
    ensures Accepts(wire, items, s.delivered + PinAll(s.outbox, |items| - 1))
        ==> Shows(wire, s, items, Woven(wire, items, s.delivered + PinAll(s.outbox, |items| - 1)),
                  Canonical(wire, items, s.delivered + DurablePins(s.outbox, |items| - 1)))
  {
    if Accepts(wire, items, s.delivered + PinAll(s.outbox, |items| - 1)) {
      AcceptedBatchShows(s, wire, items, s.delivered + DurablePins(s.outbox, |items| - 1));
    }
  }

  lemma AcceptedBatchShows(s: State, wire: Wire, items: seq<Value>, durable: seq<PinnedPing>)
    requires !wire.Opaque? && items != []
    requires Accepts(wire, items, s.delivered + PinAll(s.outbox, |items| - 1))
    requires durable == s.delivered + DurablePins(s.outbox, |items| - 1)
    ensures Shows(wire, s, items, Woven(wire, items, s.delivered + PinAll(s.outbox, |items| - 1)),
                  Canonical(wire, items, durable))
  {
    var marks := BatchMarks(s, |items| - 1);
    BatchPins(s, |items| - 1);
    BatchDurables(s, |items| - 1);
    if wire.AnthropicMessages? {
      MessagesShow(items, marks, durable);
    } else {
      WovenIsRendered(wire, items, marks);
      KeptPieces(wire, items, marks, {Client, Durable});
      WovenIsRendered(wire, items, KeepMarks(marks, {Client, Durable}));
    }
  }

  lemma MessagesShow(messages: seq<Value>, marks: seq<Mark>, durable: seq<PinnedPing>)
    requires Accepts(AnthropicMessages, messages, Pins(marks))
    requires Pins(KeepMarks(marks, {Client, Durable})) == durable
    ensures var out, view := Woven(AnthropicMessages, messages, Pins(marks)), Canonical(AnthropicMessages, messages, durable);
            && |out| == |view| == |messages|
            && forall i :: 0 <= i < |messages| ==> ShowsMessage(messages[i], MarksAt(marks, i), out[i], view[i])
  {
    CanonicalIsInjected(AnthropicMessages, messages, Pins(marks));
    forall i | 0 <= i < |messages|
      ensures ShowsMessage(messages[i], MarksAt(marks, i), Woven(AnthropicMessages, messages, Pins(marks))[i],
                           Canonical(AnthropicMessages, messages, durable)[i])
    {
      MessageShows(messages, marks, durable, i);
    }
  }

  lemma MessageShows(messages: seq<Value>, marks: seq<Mark>, durable: seq<PinnedPing>, i: nat)
    requires i < |messages| && Accepts(AnthropicMessages, messages, Pins(marks))
    requires Pins(KeepMarks(marks, {Client, Durable})) == durable
    ensures |Woven(AnthropicMessages, messages, Pins(marks))| == |messages|
    ensures ShowsMessage(messages[i], MarksAt(marks, i), Woven(AnthropicMessages, messages, Pins(marks))[i],
                         CanonicalMessage(messages[i], At(durable, i)))
  {
    var here := MarksAt(marks, i);
    WovenMessageAt(messages, Pins(marks), |messages|);
    MarksAtPins(marks, i);
    MarksAtKeep(marks, i, {Client, Durable});
    MarksAtPins(KeepMarks(marks, {Client, Durable}), i);
    CanonicalMessageIsWoven(messages[i], Pins(here));
    if Blocks(messages[i]).Some? {
      var blocks := Blocks(messages[i]).value;
      BlockPiecesRender(blocks, here);
      BlockPiecesKeep(blocks, here, {Client, Durable});
      BlockPiecesRender(blocks, KeepMarks(here, {Client, Durable}));
    }
  }

  // ---------- erasing a returned body ----------

  /** A successful attachment: the session and conversation it was made for, and the body it handed back. */
  datatype Sent = Sent(session: State, items: seq<Value>, body: Body)

  function Origins(pieces: seq<Piece>): seq<Origin> {
    seq(|pieces|, i requires 0 <= i < |pieces| => pieces[i].origin)
  }

  /** The values whose place is not that of a one-shot piece. */
  function WithoutOneShot(values: seq<Value>, origins: seq<Origin>): seq<Value>
    requires |values| == |origins|
  {
    if values == [] then [] else
    WithoutOneShot(values[..|values| - 1], origins[..|origins| - 1])
    + (if origins[|origins| - 1] == OneShot then [] else [values[|values| - 1]])
  }

  function EraseMessage(message: Value, origins: seq<Origin>): Value {
    match Blocks(message)
    case Some(blocks) =>
      if |blocks| == |origins| then message.With("content", Array(WithoutOneShot(blocks, origins))) else message
    case None => message
  }

  /** The origins of the pieces an attachment puts into one message, or into the whole conversation. */
  function MessageOrigins(message: Value, marks: seq<Mark>): seq<Origin> {
    match Blocks(message) case Some(blocks) => Origins(BlockPieces(blocks, marks)) case None => []
  }

  /** The returned items without the places of one-shot pings; Anthropic string content in its one-block form. */
  function Erased(wire: Wire, s: State, items: seq<Value>, out: seq<Value>): seq<Value>
    requires items != []
  {
    var marks := BatchMarks(s, |items| - 1);
    if wire.AnthropicMessages? then
      if |out| == |items|
      then seq(|out|, i requires 0 <= i < |out| => EraseMessage(out[i], MessageOrigins(items[i], MarksAt(marks, i))))
      else out
    else
      var origins := Origins(ItemPieces(OutputTest(wire), InsertedAt(Maker(wire), marks), items, |items|));
      if |out| == |origins| then WithoutOneShot(out, origins) else out
  }

  function Conversation(wire: Wire, body: Body): Option<seq<Value>> {
    if body.Parsed? then Items(wire, body.root) else None
  }

  /** A body that was handed back, read as its items with the one-shot places erased. */
  function View(wire: Wire, sent: Sent): seq<Value> {
    match Conversation(wire, sent.body)
    case Some(out) => if sent.items == [] then out else Erased(wire, sent.session, sent.items, out)
    case None => []
  }

  function Views(wire: Wire, all: seq<Sent>): seq<seq<Value>> {
    seq(|all|, i requires 0 <= i < |all| => View(wire, all[i]))
  }

  lemma {:induction false} PiecesWithoutOneShot(pieces: seq<Piece>)
    ensures WithoutOneShot(Values(pieces), Origins(pieces)) == Values(Keep(pieces, {Client, Durable}))
  {
    if pieces != [] {
      var shorter, last := pieces[..|pieces| - 1], pieces[|pieces| - 1];
      PiecesWithoutOneShot(shorter);
      assert Values(pieces)[..|pieces| - 1] == Values(shorter) && Origins(pieces)[..|pieces| - 1] == Origins(shorter);
      ValuesConcat(Keep(shorter, {Client, Durable}), if last.origin == OneShot then [] else [last]);
    }
  }

  lemma MessageErases(message: Value, marks: seq<Mark>, out: Value, view: Value)
    requires ShowsMessage(message, marks, out, view)
    ensures EraseMessage(out, MessageOrigins(message, marks)) == view
  {
    if Blocks(message).Some? {
      var pieces := BlockPieces(Blocks(message).value, marks);
      GetWith(message, "content", Array(Values(pieces)), "content");
      SameBlocks(message, out, Values(pieces));
      PiecesWithoutOneShot(pieces);
      var kept := Array(WithoutOneShot(Values(pieces), Origins(pieces)));
      WithTwice(message, "content", Array(Values(pieces)), kept);
      WithTwice(out, "content", Array(Values(pieces)), kept);
    }
  }

  /** A message whose one-block form has given blocks has those blocks. */
  lemma SameBlocks(message: Value, out: Value, blocks: seq<Value>)
    requires message.Get("content").Some? && OneBlock(out) == message.With("content", Array(blocks))
    ensures Blocks(out) == Some(blocks) && out.With("content", Array(blocks)) == message.With("content", Array(blocks))
  {
    GetWith(message, "content", Array(blocks), "content");
    if Blocks(out).Some? {
      GetWith(out, "content", Array(Blocks(out).value), "content");
    }
  }

  /** What a returned body shows is what erasing it gives. */
  lemma ShownIsErased(wire: Wire, s: State, items: seq<Value>, out: seq<Value>, view: seq<Value>)
    requires items != [] && Shows(wire, s, items, out, view)
    ensures Erased(wire, s, items, out) == view
  {
    var marks := BatchMarks(s, |items| - 1);
    if wire.AnthropicMessages? {
      forall i: nat | i < |items| ensures EraseMessage(out[i], MessageOrigins(items[i], MarksAt(marks, i))) == view[i] {
        MessageErases(items[i], MarksAt(marks, i), out[i], view[i]);
      }
    } else {
      PiecesWithoutOneShot(ItemPieces(OutputTest(wire), InsertedAt(Maker(wire), marks), items, |items|));
    }
  }

  // ---------- a whole run ----------

  /** The conversation sent last, once a step is taken. */
  function Newest(last: seq<Value>, step: Step): seq<Value> {
    match step
    case Attach(wire, body) => (match Conversation(wire, body) case Some(items) => items case None => last)
    case _ => last
  }

  /**
   What may come next in a steady schedule: an attachment to a conversation that strictly extends the last one on the same
   wire, and whose final message can carry pings if any wait; a request that is no compaction; or any other step.
   */
  predicate Continues(s: State, wire: Wire, last: seq<Value>, step: Step) {
    match step
    case Attach(w, body) =>
      && w == wire && Conversation(wire, body).Some? && last < Newest(last, step)
      && (s.outbox == [] || AnchorFits(wire, Newest(last, step), |Newest(last, step)| - 1))
    case Request(_, len, _) => !Compacts(s, len)
    case _ => true
  }

  ghost predicate Steady(cfg: Config, sys: System, wire: Wire, last: seq<Value>, steps: seq<Step>)
    decreases |steps|
  {
    steps == [] ||
    (&& Enabled(sys, steps[0]) && Continues(sys.session, wire, last, steps[0])
     && Steady(cfg, Next(Production(cfg), sys, steps[0]), wire, Newest(last, steps[0]), steps[1..]))
  }

  /** What a step hands back: a body, if it is an attachment that succeeds. */
  function Handed(s: State, step: Step): seq<Sent> {
    match step
    case Attach(wire, body) =>
      (match AttachPings(RealInjector(), s, wire, body).1
       case Some(delivery) => [Sent(s, Newest([], step), delivery.body)]
       case None => [])
    case _ => []
  }

  /** The bodies handed back along a schedule, in order, as far as its steps can be taken. */
  function Returned(cfg: Config, sys: System, steps: seq<Step>): seq<Sent>
    decreases |steps|
  {
    if steps == [] || !Enabled(sys, steps[0]) then [] else
    Handed(sys.session, steps[0]) + Returned(cfg, Next(Production(cfg), sys, steps[0]), steps[1..])
  }

  ghost predicate Chain(first: seq<Value>, rest: seq<seq<Value>>)
    decreases |rest|
  {
    rest == [] || (first <= rest[0] && Chain(rest[0], rest[1..]))
  }

  /** One steady attachment: every old pin still fits, and the new view extends the old one. */
  lemma AttachmentExtends(s: State, wire: Wire, last: seq<Value>, body: Body)
    requires Conversation(wire, body).Some? && last < Conversation(wire, body).value
    requires Accepts(wire, last, s.delivered)
    requires s.outbox == [] || AnchorFits(wire, Conversation(wire, body).value, |Conversation(wire, body).value| - 1)
    ensures var items := Conversation(wire, body).value;
            var (after, r) := AttachPings(RealInjector(), s, wire, body);
            && Accepts(wire, items, after.delivered)
            && Canonical(wire, last, s.delivered) <= Canonical(wire, items, after.delivered)
            && (r.Some? <==> s.outbox != [] || s.delivered != [])
            && (r.Some? ==> Accepts(wire, items, s.delivered + PinAll(s.outbox, |items| - 1)))
  {
    var items := Conversation(wire, body).value;
    var anchor := |items| - 1;
    OldPinsStillFit(s, wire, last, items);
    DurablesFit(s, wire, items);
    SteadyAttach(s, wire, items, body);
    ViewGrows(wire, last, items, s.delivered, s.outbox);
  }

  lemma SteadyAttach(s: State, wire: Wire, items: seq<Value>, body: Body)
    requires items != [] && Conversation(wire, body) == Some(items)
    requires Accepts(wire, items, s.delivered + PinAll(s.outbox, |items| - 1))
    ensures var (after, r) := AttachPings(RealInjector(), s, wire, body);
            && after.delivered == s.delivered + DurablePins(s.outbox, |items| - 1)
            && (r.Some? <==> s.outbox != [] || s.delivered != [])
  {
    if s.outbox != [] || s.delivered != [] {
      FirstAttemptAttaches(s, wire, items, body);
    } else {
      NothingToAttach(RealInjector(), s, wire, body);
      assert s.delivered + DurablePins(s.outbox, |items| - 1) == s.delivered;
    }
  }

  lemma FirstAttemptAttaches(s: State, wire: Wire, items: seq<Value>, body: Body)
    requires items != [] && Conversation(wire, body) == Some(items)
    requires Accepts(wire, items, s.delivered + PinAll(s.outbox, |items| - 1))
    requires s.outbox != [] || s.delivered != []
    ensures AttachPings(RealInjector(), s, wire, body).1.Some?
    ensures AttachPings(RealInjector(), s, wire, body).0 == CommitPinned(s, s.delivered, |items| - 1)
  {
    ConversationIsSeen(wire, body, items, s.delivered + PinAll(s.outbox, |items| - 1));
    SessionLaws.AttachUnfolds(RealInjector(), s, wire, body, |items|);
  }

  /** The production injector sees the conversation, and injects what it accepts. */
  lemma ConversationIsSeen(wire: Wire, body: Body, items: seq<Value>, pins: seq<PinnedPing>)
    requires Conversation(wire, body) == Some(items) && Accepts(wire, items, pins)
    ensures RealInjector().conversationLen(wire, body) == Some(|items|)
    ensures RealInjector().inject(wire, body, pins).Some?
  {
    SessionLaws.InjectsWhenAccepted(wire, body, pins);
  }

  lemma NothingToAttach(injector: Injector, s: State, wire: Wire, body: Body)
    requires s.outbox == [] && s.delivered == []
    ensures AttachPings(injector, s, wire, body) == (s, None)
  {
  }

  lemma ViewGrows(wire: Wire, last: seq<Value>, items: seq<Value>, pins: seq<PinnedPing>, pings: seq<Ping>)
    requires last < items
    ensures Canonical(wire, last, pins) <= Canonical(wire, items, pins + DurablePins(pings, |items| - 1))
  {
    DurablesAtEnd(pings, |items| - 1);
    CanonicalPrefix(wire, last, items, pins, DurablePins(pings, |items| - 1));
  }

  /** Appending items never makes an accepted pin unacceptable, and the final item takes what is waiting. */
  lemma OldPinsStillFit(s: State, wire: Wire, last: seq<Value>, items: seq<Value>)
    requires last < items && Accepts(wire, last, s.delivered)
    requires s.outbox == [] || AnchorFits(wire, items, |items| - 1)
    ensures Accepts(wire, items, s.delivered)
    ensures Accepts(wire, items, s.delivered + PinAll(s.outbox, |items| - 1))
  {
    forall p | p in s.delivered
      ensures AnchorFits(wire, items, p.anchor)
    {
      assert items[p.anchor] == last[p.anchor];
    }
    SessionLaws.NewPinsAccepted(wire, items, s.outbox);
  }

  lemma DurablesFit(s: State, wire: Wire, items: seq<Value>)
    requires items != [] && Accepts(wire, items, s.delivered)
    requires s.outbox == [] || AnchorFits(wire, items, |items| - 1)
    ensures Accepts(wire, items, s.delivered + DurablePins(s.outbox, |items| - 1))
  {
    DurablesAtEnd(s.outbox, |items| - 1);
    MorePinsFit(wire, items, s.delivered, DurablePins(s.outbox, |items| - 1), |items| - 1);
  }

  lemma MorePinsFit(wire: Wire, items: seq<Value>, pins: seq<PinnedPing>, more: seq<PinnedPing>, anchor: nat)
    requires Accepts(wire, items, pins) && forall p :: p in more ==> p.anchor == anchor && AnchorFits(wire, items, anchor)
    ensures Accepts(wire, items, pins + more)
  {
  }

  lemma DurablesAtEnd(pings: seq<Ping>, anchor: nat)
    ensures forall p :: p in DurablePins(pings, anchor) ==> p.anchor == anchor && pings != []
  {
    DurablePinsTraced(pings, 0, anchor);
  }

  /** The body of a steady attachment, erased, is the canonical conversation of the pins it leaves on record. */
  lemma SteadyView(s: State, wire: Wire, last: seq<Value>, body: Body)
    requires Conversation(wire, body).Some? && last < Conversation(wire, body).value
    requires Accepts(wire, last, s.delivered)
    requires s.outbox == [] || AnchorFits(wire, Conversation(wire, body).value, |Conversation(wire, body).value| - 1)
    requires s.outbox != [] || s.delivered != []
    ensures AttachPings(RealInjector(), s, wire, body).1.Some?
    ensures var items, attached := Conversation(wire, body).value, AttachPings(RealInjector(), s, wire, body);
      && IsShown(wire, Sent(s, items, attached.1.value.body))
      && View(wire, Sent(s, items, attached.1.value.body)) == Canonical(wire, items, attached.0.delivered)
  {
    SteadyShows(s, wire, last, body);
    ViewOfShown(s, wire, Conversation(wire, body).value, AttachPings(RealInjector(), s, wire, body));
  }

  lemma SteadyShows(s: State, wire: Wire, last: seq<Value>, body: Body)
    requires Conversation(wire, body).Some? && last < Conversation(wire, body).value
    requires Accepts(wire, last, s.delivered)
    requires s.outbox == [] || AnchorFits(wire, Conversation(wire, body).value, |Conversation(wire, body).value| - 1)
    requires s.outbox != [] || s.delivered != []
    ensures ShowsItsPins(s, wire, Conversation(wire, body).value, AttachPings(RealInjector(), s, wire, body))
  {
    SteadyFits(s, wire, last, body);
    ReturnedBodyShowsItsPins(s, wire, body);
  }

  lemma SteadyFits(s: State, wire: Wire, last: seq<Value>, body: Body)
    requires Conversation(wire, body).Some? && last < Conversation(wire, body).value
    requires Accepts(wire, last, s.delivered)
    requires s.outbox == [] || AnchorFits(wire, Conversation(wire, body).value, |Conversation(wire, body).value| - 1)
    requires s.outbox != [] || s.delivered != []
    ensures SessionLaws.CanAttach(s, wire, body)
    ensures Accepts(wire, Items(wire, body.root).value, s.delivered + PinAll(s.outbox, |Items(wire, body.root).value| - 1))
  {
    OldPinsStillFit(s, wire, last, Conversation(wire, body).value);
  }

  /** A body handed back holds exactly the client's items, the durable pings and the one-shot ones, each at its place. */
  ghost predicate IsShown(wire: Wire, sent: Sent) {
    && sent.items != [] && Conversation(wire, sent.body).Some?
    && Shows(wire, sent.session, sent.items, Conversation(wire, sent.body).value, View(wire, sent))
  }

  lemma ViewOfShown(s: State, wire: Wire, items: seq<Value>, attached: (State, Option<Delivery>))
    requires items != [] && ShowsItsPins(s, wire, items, attached)
    ensures IsShown(wire, Sent(s, items, attached.1.value.body))
    ensures View(wire, Sent(s, items, attached.1.value.body)) == Canonical(wire, items, attached.0.delivered)
  {
    var out := Items(wire, attached.1.value.body.root).value;
    ShownIsErased(wire, s, items, out, Canonical(wire, items, attached.0.delivered));
  }

  /** The pins a step leaves fit the newest conversation, whose view extends the old one and is what was handed back. */
  ghost predicate Grows(wire: Wire, last: seq<Value>, s: State, items: seq<Value>, after: State, handed: seq<Sent>) {
    && Accepts(wire, items, after.delivered)
    && Canonical(wire, last, s.delivered) <= Canonical(wire, items, after.delivered)
    && |handed| <= 1
    && forall sent :: sent in handed ==> IsShown(wire, sent) && View(wire, sent) == Canonical(wire, items, after.delivered)
  }

  lemma AttachGrows(s: State, wire: Wire, last: seq<Value>, body: Body)
    requires Continues(s, wire, last, Attach(wire, body)) && Accepts(wire, last, s.delivered)
    ensures Grows(wire, last, s, Newest(last, Attach(wire, body)), AttachPings(RealInjector(), s, wire, body).0,
                  Handed(s, Attach(wire, body)))
  {
    AttachmentExtends(s, wire, last, body);
    if s.outbox != [] || s.delivered != [] {
      SteadyView(s, wire, last, body);
    }
  }

  lemma StepGrows(cfg: Config, sys: System, wire: Wire, last: seq<Value>, step: Step)
    requires Enabled(sys, step) && Continues(sys.session, wire, last, step) && Accepts(wire, last, sys.session.delivered)
    ensures Grows(wire, last, sys.session, Newest(last, step), Next(Production(cfg), sys, step).session,
                  Handed(sys.session, step))
  {
    if step.Attach? {
      AttachGrows(sys.session, wire, last, step.body);
    } else {
      QuietStepKeepsPins(cfg, sys, step);
    }
  }

  /** Along a steady run the bodies handed back, erased, form a chain of prefixes. */
  lemma {:induction false} SteadyRunsChain(cfg: Config, sys: System, wire: Wire, last: seq<Value>, steps: seq<Step>)
    requires Steady(cfg, sys, wire, last, steps)
    requires Accepts(wire, last, sys.session.delivered)
    ensures Chain(Canonical(wire, last, sys.session.delivered), Views(wire, Returned(cfg, sys, steps)))
    decreases |steps|
  {
    if steps != [] {
      var next, items := Next(Production(cfg), sys, steps[0]), Newest(last, steps[0]);
      StepGrows(cfg, sys, wire, last, steps[0]);
      SteadyRunsChain(cfg, next, wire, items, steps[1..]);
      ViewsConcat(wire, Handed(sys.session, steps[0]), Returned(cfg, next, steps[1..]));
      ChainFrom(Canonical(wire, last, sys.session.delivered), Canonical(wire, items, next.session.delivered),
                Views(wire, Handed(sys.session, steps[0])), Views(wire, Returned(cfg, next, steps[1..])));
    }
  }

  lemma QuietStepKeepsPins(cfg: Config, sys: System, step: Step)
    requires Enabled(sys, step) && !step.Attach?
    requires step.Request? ==> !Compacts(sys.session, step.len)
    ensures Next(Production(cfg), sys, step).session.delivered == sys.session.delivered
  {
    if step.Apply? {
      OutcomeShape(cfg, sys.session, sys.tasks[step.task].hook, sys.tasks[step.task].pc.outcome);
    }
  }

  lemma ViewsConcat(wire: Wire, a: seq<Sent>, b: seq<Sent>)
    ensures Views(wire, a + b) == Views(wire, a) + Views(wire, b)
  {
  }

  lemma ChainFrom(earlier: seq<Value>, first: seq<Value>, handed: seq<seq<Value>>, rest: seq<seq<Value>>)
    requires earlier <= first && Chain(first, rest) && |handed| <= 1
    requires forall view :: view in handed ==> view == first
    ensures Chain(earlier, handed + rest)
  {
    if handed == [] {
      assert handed + rest == rest;
      ChainEarlier(earlier, first, rest);
    } else {
      assert handed[0] in handed;
      assert (handed + rest)[1..] == rest;
    }
  }

  lemma ChainEarlier(earlier: seq<Value>, first: seq<Value>, rest: seq<seq<Value>>)
    requires earlier <= first && Chain(first, rest)
    ensures Chain(earlier, rest)
  {
  }

  lemma {:induction false} ChainOrders(first: seq<Value>, rest: seq<seq<Value>>, j: nat)
    requires Chain(first, rest) && j < |rest|
    ensures first <= rest[j]
    decreases j
  {
    if j > 0 {
      ChainOrders(rest[0], rest[1..], j - 1);
    }
  }

  lemma {:induction false} ChainIsOrdered(first: seq<Value>, rest: seq<seq<Value>>, i: nat, j: nat)
    requires Chain(first, rest) && i < j < |rest|
    ensures rest[i] <= rest[j]
    decreases i
  {
    if i == 0 {
      ChainOrders(rest[0], rest[1..], j - 1);
    } else {
      ChainIsOrdered(rest[0], rest[1..], i - 1, j - 1);
    }
  }

  /** Every body handed back along a steady run is shown. */
  lemma {:induction false} ReturnedBodiesAreShown(cfg: Config, sys: System, wire: Wire, last: seq<Value>, steps: seq<Step>)
    requires Steady(cfg, sys, wire, last, steps) && Accepts(wire, last, sys.session.delivered)
    ensures forall sent :: sent in Returned(cfg, sys, steps) ==> IsShown(wire, sent)
    decreases |steps|
  {
    if steps != [] {
      var next := Next(Production(cfg), sys, steps[0]);
      StepGrows(cfg, sys, wire, last, steps[0]);
      ReturnedBodiesAreShown(cfg, next, wire, Newest(last, steps[0]), steps[1..]);
    }
  }

  /**
   Along every steady run, from a fresh session and whatever hooks, deliveries and wakes happen in between: the items of each
   body handed back, with the places of one-shot pings erased, are a prefix of those of every later one.
   */
  lemma ReturnedBodiesExtendEachOther(cfg: Config, wire: Wire, steps: seq<Step>, i: nat, j: nat)
    requires Steady(cfg, START, wire, [], steps)
    requires i < j < |Returned(cfg, START, steps)|
    ensures var all := Returned(cfg, START, steps);
      && IsShown(wire, all[i]) && IsShown(wire, all[j])
      && View(wire, all[i]) <= View(wire, all[j])
  {
    SteadyRunsChain(cfg, START, wire, [], steps);
    ReturnedBodiesAreShown(cfg, START, wire, [], steps);
    ChainIsOrdered(Canonical(wire, [], []), Views(wire, Returned(cfg, START, steps)), i, j);
  }

  // ---------- an old pin behind a first tool output ----------

  /**
   A ping attached behind a tool output stands in front of another one as soon as the client appends it: the body of the next
   attachment has the ping between the two outputs.
   */
  lemma AnOldPinComesToSplit(s: State, wire: Wire, first: Body, second: Body, output: Value, another: Value)
    requires wire.OpenAiResponses? || wire.OpenAiChat?
    requires |s.outbox| == 1 && !s.outbox[0].transient && s.delivered == []
    requires Conversation(wire, first) == Some([output]) && Conversation(wire, second) == Some([output, another])
    requires IsToolOutput(wire, output) && IsToolOutput(wire, another)
    ensures var after := AttachPings(RealInjector(), s, wire, first).0;
      var pieces := ItemPieces(OutputTest(wire), InsertedAt(Maker(wire), BatchMarks(after, 1)), [output, another], 2);
      && after.delivered == [IntoPinned(s.outbox[0], 0)] && after.outbox == []
      && AttachPings(RealInjector(), after, wire, second).1.Some?
      && Conversation(wire, AttachPings(RealInjector(), after, wire, second).1.value.body) == Some(Values(pieces))
      && Splits(OutputTest(wire), pieces)
  {
    assert AnchorFits(wire, [output], 0);
    SessionLaws.NewPinsAccepted(wire, [output], s.outbox);
    assert s.delivered + PinAll(s.outbox, 0) == PinAll(s.outbox, 0);
    FirstAttemptAttaches(s, wire, [output], first);
    var after := AttachPings(RealInjector(), s, wire, first).0;
    OneDurablePin(s.outbox, 0);
    assert after == CommitPinned(s, s.delivered, 0);
    assert s.delivered + DurablePins(s.outbox, 0) == DurablePins(s.outbox, 0);
    OldPinSplits(after, wire, second, output, another);
  }

  lemma OneDurablePin(pings: seq<Ping>, anchor: nat)
    requires |pings| == 1 && !pings[0].transient
    ensures DurablePins(pings, anchor) == [IntoPinned(pings[0], anchor)]
  {
  }

  lemma OldPinSplits(s: State, wire: Wire, body: Body, output: Value, another: Value)
    requires wire.OpenAiResponses? || wire.OpenAiChat?
    requires |s.delivered| == 1 && s.delivered[0].anchor == 0 && s.outbox == []
    requires Conversation(wire, body) == Some([output, another])
    requires IsToolOutput(wire, output) && IsToolOutput(wire, another)
    ensures var pieces := ItemPieces(OutputTest(wire), InsertedAt(Maker(wire), BatchMarks(s, 1)), [output, another], 2);
      && AttachPings(RealInjector(), s, wire, body).1.Some?
      && Conversation(wire, AttachPings(RealInjector(), s, wire, body).1.value.body) == Some(Values(pieces))
      && Splits(OutputTest(wire), pieces)
  {
    var items, marks := [output, another], BatchMarks(s, 1);
    BatchPins(s, 1);
    assert s.delivered + PinAll(s.outbox, 1) == s.delivered;
    ReturnedBody(s, wire, body, items);
    WovenIsRendered(wire, items, marks);
    assert marks[0] in marks && marks[0].pin == s.delivered[0];
    PingsSplitOutputsExactlyWhen(wire, items, marks);
  }
}
