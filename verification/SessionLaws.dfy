/**
 What one locked section promises its caller (`src/hooks/mod.rs:408-441`, `488-540`, `544-595`), read off a
 session whose books are balanced.
 */
module SessionLaws {
  import opened Wrappers
  import opened Json
  import opened Pings
  import opened Injection
  import opened Session
  import opened Ledger
  import opened Texts
  import Extract
  import Usage

  /** A durable ping is committed under an id no earlier committed ping had. */
  lemma AtMostOnce(cfg: Config, s: State, books: Books, i: nat, j: nat)
    requires Balanced(cfg, s, books)
    requires i < j < |books.committed| && !books.committed[j].transient
    ensures books.committed[i].id != books.committed[j].id
  {
    var all := books.committed + s.outbox;
    assert all[i] == books.committed[i] && all[j] == books.committed[j];
    assert NewId()(all[i], all[j]);
  }

  /** Waiting durable pings have ids of their own, none of them on record as delivered. */
  lemma WaitingIsUndelivered(cfg: Config, s: State, books: Books, j: nat)
    requires Balanced(cfg, s, books)
    requires j < |s.outbox| && !s.outbox[j].transient
    ensures s.outbox[j].id !in s.deliveredIds
    ensures forall i :: 0 <= i < |s.outbox| && i != j && !s.outbox[i].transient ==> s.outbox[i].id != s.outbox[j].id
  {
    var all, n := books.committed + s.outbox, |books.committed|;
    forall i | 0 <= i < n + j
      ensures all[i].id != s.outbox[j].id
    {
      assert all[n + j] == s.outbox[j];
      assert NewId()(all[i], all[n + j]);
    }
    forall p | p in books.committed
      ensures p.id != s.outbox[j].id
    {
      var i :| 0 <= i < n && books.committed[i] == p;
      assert all[i] == p;
    }
    forall i | 0 <= i < |s.outbox| && i != j && !s.outbox[i].transient
      ensures s.outbox[i].id != s.outbox[j].id
    {
      assert all[n + i] == s.outbox[i] && all[n + j] == s.outbox[j];
      if i > j {
        assert NewId()(all[n + j], all[n + i]);
      }
    }
  }

  /** Two different pins on record never carry one id, and every pinned id is on record as delivered. */
  lemma PinsAreDistinct(cfg: Config, s: State, books: Books, i: nat, j: nat)
    requires Balanced(cfg, s, books)
    requires i < j < |s.delivered|
    ensures s.delivered[i].id != s.delivered[j].id
    ensures s.delivered[i].id in s.deliveredIds && s.delivered[j].id in s.deliveredIds
  {
    AtMostOnce(cfg, s, books, books.origins[i], books.origins[j]);
    assert books.committed[books.origins[i]] in books.committed && books.committed[books.origins[j]] in books.committed;
  }

  /** A signal that replaces a waiting one is never refused by the cap. */
  lemma ReplacementIsAdmitted(cfg: Config, s: State, books: Books, hook: string, message: string,
                              attachments: seq<Image>, waiting: Ping)
    requires Balanced(cfg, s, books)
    requires message != "" || attachments != []
    requires waiting in s.outbox && waiting.hook == hook && waiting.transient
    ensures var after := ApplyOutcome(cfg, s, hook, Signal(message, attachments)).outbox;
            && after != []
            && after[|after| - 1] == SignalPing(cfg.digests, hook, message, attachments)
            && |after| == |s.outbox|
            && forall p :: p in after[..|after| - 1] ==> p.hook != hook || !p.transient
  {
    var outcome := Signal(message, attachments);
    var keep, drop := Kept(hook, outcome), Dropped(hook, outcome);
    RetainSplits(s.outbox, keep, drop);
    RetainSame(s.outbox, keep, NotSignalOf(hook));
    RetainHolds(s.outbox, keep);
    RetainHolds(s.outbox, drop);
    AtMostOneDropped(s.outbox, hook, outcome);
    assert waiting in Retain(s.outbox, drop);
    assert |multiset(s.outbox)| == |s.outbox|;
    OutcomeShape(cfg, s, hook, outcome);
  }

  /** A session with at most one waiting signal per hook loses at most one ping to a new signal. */
  lemma {:induction false} AtMostOneDropped(pings: seq<Ping>, hook: string, outcome: Outcome)
    requires outcome.Signal? && Pairwise(pings, NotSameSignal())
    ensures |Retain(pings, Dropped(hook, outcome))| <= 1
  {
    if pings != [] {
      var shorter, last := pings[..|pings| - 1], pings[|pings| - 1];
      assert pings == shorter + [last];
      PairwiseSnoc(shorter, last, NotSameSignal());
      AtMostOneDropped(shorter, hook, outcome);
      RetainHolds(shorter, Dropped(hook, outcome));
      if Drops(hook, outcome, last) {
        assert forall p :: p in shorter ==> NotSameSignal()(p, last);
        RetainNone(shorter, Dropped(hook, outcome));
      }
    }
  }

  /** The positions of a list at which `keep` holds, in order, and what stands there. */
  ghost predicate Selects(pings: seq<Ping>, keep: Ping -> bool, kept: seq<Ping>, at: seq<nat>) {
    && |at| == |kept| && Increasing(at)
    && (forall k :: 0 <= k < |at| ==> at[k] < |pings| && kept[k] == pings[at[k]] && keep(kept[k]))
    && (forall i: nat :: i < |pings| && keep(pings[i]) ==> i in at)
  }

  function Positions(pings: seq<Ping>, keep: Ping -> bool): seq<nat> {
    if pings == [] then [] else
    Positions(pings[..|pings| - 1], keep) + (if keep(pings[|pings| - 1]) then [|pings| - 1] else [])
  }

  lemma {:induction false} RetainSelects(pings: seq<Ping>, keep: Ping -> bool)
    ensures Selects(pings, keep, Retain(pings, keep), Positions(pings, keep))
  {
    if pings != [] {
      RetainSelects(pings[..|pings| - 1], keep);
      SelectsSnoc(pings[..|pings| - 1], pings[|pings| - 1], keep, Retain(pings[..|pings| - 1], keep),
                  Positions(pings[..|pings| - 1], keep), pings, Retain(pings, keep), Positions(pings, keep));
    }
  }

  lemma SelectsSnoc(pings: seq<Ping>, last: Ping, keep: Ping -> bool, kept: seq<Ping>, at: seq<nat>,
                    all: seq<Ping>, allKept: seq<Ping>, more: seq<nat>)
    requires Selects(pings, keep, kept, at) && all == pings + [last]
    requires allKept == kept + (if keep(last) then [last] else [])
    requires more == at + (if keep(last) then [|pings|] else [])
    ensures Selects(all, keep, allKept, more)
  {
    forall k | 0 <= k < |at| ensures all[at[k]] == pings[at[k]] && more[k] == at[k] {}
    forall i: nat | i < |all| && keep(all[i]) ensures i in more {
      if i < |pings| {
        assert all[i] == pings[i] && i in at;
      } else {
        assert more[|at|] == i;
      }
    }
  }

  /** A pass takes out exactly its own hook's pings: every other hook's stays, in order and as often as it was there. */
  lemma PassClears(cfg: Config, s: State, hook: string)
    ensures forall p :: p in ApplyOutcome(cfg, s, hook, Pass).outbox <==> p in s.outbox && p.hook != hook
    ensures exists at :: Selects(s.outbox, NotOf(hook), ApplyOutcome(cfg, s, hook, Pass).outbox, at)
  {
    RetainHolds(s.outbox, NotOf(hook));
    RetainSelects(s.outbox, NotOf(hook));
    assert Selects(s.outbox, NotOf(hook), ApplyOutcome(cfg, s, hook, Pass).outbox, Positions(s.outbox, NotOf(hook)));
  }

  /**
   A failure that is waiting or was delivered shuts out every failure whose name and message run together to the same text,
   whichever hook it comes from and whatever fix it names: the session does not change.
   */
  lemma FailureShutsOutItsNamesake(cfg: Config, s: State, hook: string, message: string, fix: Option<string>,
                                   other: string, otherMessage: string, otherFix: Option<string>)
    requires hook + message == other + otherMessage
    requires var first := FailurePing(cfg.digests, hook, message, fix);
      (exists p :: p in s.outbox && p.id == first.id) || first.id in s.deliveredIds
    ensures ApplyOutcome(cfg, s, other, Fail(otherMessage, otherFix)) == s
    ensures !Admits(cfg, s, other, Fail(otherMessage, otherFix))
  {
    assert FailurePing(cfg.digests, other, otherMessage, otherFix).id == FailurePing(cfg.digests, hook, message, fix).id;
  }

  /**
   With no collision and room under the cap, after one failure is admitted another that would have been is refused
   exactly when the two run together to one text.
   */
  lemma SecondFailureIsRefusedExactlyWhen(cfg: Config, s: State, hook: string, message: string, fix: Option<string>,
                                          other: string, otherMessage: string, otherFix: Option<string>)
    requires !Collide(cfg.digests.failure, hook + message, other + otherMessage)
    requires Admits(cfg, s, hook, Fail(message, fix)) && Admits(cfg, s, other, Fail(otherMessage, otherFix))
    requires s.deliveredCount + |s.outbox| + 1 < cfg.maxPerSession as int
    ensures var after := ApplyOutcome(cfg, s, hook, Fail(message, fix));
      !Admits(cfg, after, other, Fail(otherMessage, otherFix)) <==> hook + message == other + otherMessage
  {
    var first, after := FailurePing(cfg.digests, hook, message, fix), ApplyOutcome(cfg, s, hook, Fail(message, fix));
    assert after.outbox == s.outbox + [first] && first in after.outbox;
    FailureIdsAgreeExactlyWhen(cfg.digests, hook, message, fix, other, otherMessage, otherFix);
  }

  // ---------- when an attachment succeeds, and what it leaves ----------

  /** Something to attach, and a conversation to attach it to. */
  predicate CanAttach(s: State, wire: Wire, body: Body) {
    (s.outbox != [] || s.delivered != []) && ConversationLen(wire, body).Some? && ConversationLen(wire, body).value > 0
  }

  lemma NewPinsAccepted(wire: Wire, items: seq<Value>, pings: seq<Ping>)
    requires items != []
    ensures Accepts(wire, items, PinAll(pings, |items| - 1)) <==> pings == [] || AnchorFits(wire, items, |items| - 1)
  {
    var pins := PinAll(pings, |items| - 1);
    if pings != [] {
      assert pins[0] in pins;
    }
  }

  /**
   With something to attach and a non-empty conversation, an attachment succeeds exactly when nothing new is
   waiting or the final item can carry pings; so on Responses and Chat it always does. The old pins survive exactly
   when all of them still fit. A refusal leaves the outbox, the ids and the count as they were.
   */
  lemma AttachExactly(s: State, wire: Wire, body: Body)
    ensures var (after, r) := AttachPings(RealInjector(), s, wire, body);
            && (r.Some? <==> CanAttach(s, wire, body)
                             && (s.outbox == [] || AnchorFits(wire, Items(wire, body.root).value, |Items(wire, body.root).value| - 1)))
            && (CanAttach(s, wire, body) && !wire.AnthropicMessages? ==> r.Some?)
            && (r.None? ==> after == s.(delivered := after.delivered))
            && (CanAttach(s, wire, body) ==>
                  (s.delivered <= after.delivered <==>
                    || s.delivered == []
                    || Accepts(wire, Items(wire, body.root).value, s.delivered + PinAll(s.outbox, |Items(wire, body.root).value| - 1))))
            && (!CanAttach(s, wire, body) ==> after == s)
  {
    if CanAttach(s, wire, body) {
      var items := Items(wire, body.root).value;
      AttachByAcceptance(s, wire, body);
      var (after, r) := AttachPings(RealInjector(), s, wire, body);
      Verdict(s, wire, items, after, r.Some?);
    }
  }

  /** What the three ways an attachment can go say about the pins and about success. */
  lemma Verdict(s: State, wire: Wire, items: seq<Value>, after: State, done: bool)
    requires items != []
    requires if Accepts(wire, items, s.delivered + PinAll(s.outbox, |items| - 1)) then
               after == CommitPinned(s, s.delivered, |items| - 1) && done
             else if Accepts(wire, items, PinAll(s.outbox, |items| - 1)) then
               after == CommitPinned(s, [], |items| - 1) && done
             else
               after == s.(delivered := []) && !done
    ensures done <==> s.outbox == [] || AnchorFits(wire, items, |items| - 1)
    ensures s.delivered <= after.delivered <==>
              s.delivered == [] || Accepts(wire, items, s.delivered + PinAll(s.outbox, |items| - 1))
    ensures !done ==> after == s.(delivered := after.delivered)
  {
    NewPinsAccepted(wire, items, s.outbox);
    OldAcceptedImpliesNew(wire, items, s.delivered, PinAll(s.outbox, |items| - 1));
    if done && s.delivered <= DurablePins(s.outbox, |items| - 1) {
      SurvivingPinsFit(s, |items| - 1, wire, items);
    }
  }

  lemma OldAcceptedImpliesNew(wire: Wire, items: seq<Value>, kept: seq<PinnedPing>, pins: seq<PinnedPing>)
    ensures Accepts(wire, items, kept + pins) ==> Accepts(wire, items, pins)
  {
    assert forall p :: p in pins ==> p in kept + pins;
  }

  /** An attachment with the real injector, in terms of which pins the conversation accepts. */
  lemma AttachByAcceptance(s: State, wire: Wire, body: Body)
    requires CanAttach(s, wire, body)
    ensures var items := Items(wire, body.root).value;
            var anchor := |items| - 1;
            var (after, r) := AttachPings(RealInjector(), s, wire, body);
            if Accepts(wire, items, s.delivered + PinAll(s.outbox, anchor)) then
              && after == CommitPinned(s, s.delivered, anchor)
              && Inject(wire, body, s.delivered + PinAll(s.outbox, anchor)).Some?
              && r == Some(Delivery(Inject(wire, body, s.delivered + PinAll(s.outbox, anchor)).value, Ids(s.outbox)))
            else if Accepts(wire, items, PinAll(s.outbox, anchor)) then
              after == CommitPinned(s, [], anchor) && r.Some?
            else
              after == s.(delivered := []) && r.None?
  {
    var items := Items(wire, body.root).value;
    var pins := PinAll(s.outbox, |items| - 1);
    AttachUnfolds(RealInjector(), s, wire, body, |items|);
    InjectsWhenAccepted(wire, body, s.delivered + pins);
    InjectsWhenAccepted(wire, body, pins);
    assert [] + pins == pins;
  }

  lemma AttachUnfolds(injector: Injector, s: State, wire: Wire, body: Body, len: nat)
    requires s.outbox != [] || s.delivered != []
    requires injector.conversationLen(wire, body) == Some(len) && len > 0
    ensures var first := injector.inject(wire, body, s.delivered + PinAll(s.outbox, len - 1));
            var second := injector.inject(wire, body, [] + PinAll(s.outbox, len - 1));
            AttachPings(injector, s, wire, body)
            == if first.Some? then (CommitPinned(s, s.delivered, len - 1), Some(Delivery(first.value, Ids(s.outbox))))
               else if second.Some? then (CommitPinned(s, [], len - 1), Some(Delivery(second.value, Ids(s.outbox))))
               else (s.(delivered := []), None)
  {
  }

  lemma InjectsWhenAccepted(wire: Wire, body: Body, pins: seq<PinnedPing>)
    requires ConversationLen(wire, body).Some?
    ensures Inject(wire, body, pins).Some? <==> Accepts(wire, Items(wire, body.root).value, pins)
  {
  }

  /** Old pins that reappear among the new ones fit the body, since the new ones do. */
  lemma SurvivingPinsFit(s: State, anchor: nat, wire: Wire, items: seq<Value>)
    requires anchor + 1 == |items|
    requires s.outbox == [] || AnchorFits(wire, items, anchor)
    requires s.delivered <= DurablePins(s.outbox, anchor)
    ensures Accepts(wire, items, s.delivered + PinAll(s.outbox, anchor))
  {
    DurablePinsTraced(s.outbox, 0, anchor);
    assert forall k :: 0 <= k < |s.delivered| ==> s.delivered[k] == DurablePins(s.outbox, anchor)[k];
    NewPinsAccepted(wire, items, s.outbox);
  }

  // ---------- what a request and its response fire ----------

  /** The prompt on record and its fingerprint belong together. */
  predicate PromptMatches(cfg: Config, s: State) {
    s.lastPromptFingerprint == match s.lastPrompt case Some(p) => Some(cfg.digests.prompt(p)) case None => None
  }

  function Events(triggers: seq<Trigger>): set<HookEvent> {
    if triggers == [] then {} else Events(triggers[..|triggers| - 1]) + {triggers[|triggers| - 1].event}
  }

  predicate Fires(triggers: seq<Trigger>, event: HookEvent) {
    event in Events(triggers)
  }

  function Rank(event: HookEvent): nat {
    match event
    case SessionStart => 0 case Compaction => 1 case Prompt => 2
    case ToolResult => 3 case ToolCall => 4 case TurnEnd => 5
  }

  /** Events come in a fixed order, each at most once. */
  predicate InOrder(triggers: seq<Trigger>) {
    triggers == [] ||
    (var front := triggers[..|triggers| - 1];
     InOrder(front) && AllBefore(front, Rank(triggers[|triggers| - 1].event)))
  }

  predicate AllBefore(triggers: seq<Trigger>, rank: nat) {
    forall event :: event in Events(triggers) ==> Rank(event) < rank
  }

  /** What a request fires exactly, and what its triggers carry. */
  ghost predicate FiresFor(cfg: Config, s: State, isNew: bool, len: Option<nat>, seen: Option<Extract.Extracted>,
                           triggers: seq<Trigger>) {
    && InOrder(triggers)
    && (Fires(triggers, SessionStart) <==> isNew)
    && (Fires(triggers, Compaction) <==>
          s.prevConversationLen.Some? && len.Some? && len.value < s.prevConversationLen.value)
    && (Fires(triggers, Prompt) <==>
          seen.Some? && seen.value.prompt.Some? && s.lastPromptFingerprint != Some(cfg.digests.prompt(seen.value.prompt.value)))
    && (Fires(triggers, ToolResult) <==> seen.Some? && seen.value.hasToolResult)
    && !Fires(triggers, ToolCall) && !Fires(triggers, TurnEnd)
    && AllCarry(triggers, if seen.Some? then seen.value.prompt else None)
  }

  /** A request's trigger carries the prompt, if it is for one, and nothing else. */
  predicate CarriesPrompt(t: Trigger, prompt: Option<string>) {
    t == Trigger(t.event, if t.event.Prompt? then prompt else None, [], None)
  }

  predicate AllCarry(triggers: seq<Trigger>, prompt: Option<string>) {
    forall t :: t in triggers ==> CarriesPrompt(t, prompt)
  }

  /** A trigger that may fire behind others, all of which come before it. */
  lemma MayFire(triggers: seq<Trigger>, fires: bool, t: Trigger)
    requires InOrder(triggers) && AllBefore(triggers, Rank(t.event))
    ensures var all := triggers + (if fires then [t] else []);
      && InOrder(all) && AllBefore(all, Rank(t.event) + 1)
      && Events(all) == Events(triggers) + (if fires then {t.event} else {})
  {
    if fires {
      assert (triggers + [t])[..|triggers|] == triggers;
    } else {
      assert triggers + [] == triggers;
    }
  }

  lemma TwoMayFire(start: Trigger, compaction: Trigger, first: bool, second: bool)
    requires start.event == SessionStart && compaction.event == Compaction
    ensures var all := (if first then [start] else []) + (if second then [compaction] else []);
      && InOrder(all) && AllBefore(all, Rank(Prompt))
      && Events(all) == (if first then {SessionStart} else {}) + (if second then {Compaction} else {})
  {
    var one := if first then [start] else [];
    assert [] + one == one;
    MayFire([], first, start);
    MayFire(one, second, compaction);
  }

  /** The events of four triggers in the order of a request, each of which may fire. */
  lemma FourMayFire(start: Trigger, compaction: Trigger, prompt: Trigger, result: Trigger, first: bool, second: bool, third: bool,
                    fourth: bool)
    requires start.event == SessionStart && compaction.event == Compaction && prompt.event == Prompt && result.event == ToolResult
    ensures var all := (if first then [start] else []) + (if second then [compaction] else []) + (if third then [prompt] else [])
                       + (if fourth then [result] else []);
      && InOrder(all)
      && Events(all) == (if first then {SessionStart} else {}) + (if second then {Compaction} else {})
                        + (if third then {Prompt} else {}) + (if fourth then {ToolResult} else {})
  {
    TwoMayFire(start, compaction, first, second);
    TwoMoreFire((if first then [start] else []) + (if second then [compaction] else []), prompt, result, third, fourth);
  }

  lemma TwoMoreFire(triggers: seq<Trigger>, prompt: Trigger, result: Trigger, third: bool, fourth: bool)
    requires InOrder(triggers) && AllBefore(triggers, Rank(Prompt)) && prompt.event == Prompt && result.event == ToolResult
    ensures var all := triggers + (if third then [prompt] else []) + (if fourth then [result] else []);
      InOrder(all) && Events(all) == Events(triggers) + (if third then {Prompt} else {}) + (if fourth then {ToolResult} else {})
  {
    MayFire(triggers, third, prompt);
    MayFire(triggers + (if third then [prompt] else []), fourth, result);
  }

  lemma FiresByEvents(cfg: Config, s: State, isNew: bool, len: Option<nat>, seen: Option<Extract.Extracted>,
                      triggers: seq<Trigger>)
    requires InOrder(triggers) && AllCarry(triggers, if seen.Some? then seen.value.prompt else None)
    requires Events(triggers) == (if isNew then {SessionStart} else {}) + (if Compacts(s, len) then {Compaction} else {})
      + (if NewPrompt(cfg, s, seen).Some? then {Prompt} else {})
      + (if seen.Some? && seen.value.hasToolResult then {ToolResult} else {})
    ensures FiresFor(cfg, s, isNew, len, seen, triggers)
  {
  }

  lemma SeenCarry(cfg: Config, s: State, isNew: bool, len: Option<nat>, seen: Option<Extract.Extracted>)
    ensures AllCarry(RecordSeen(cfg, s, isNew, len, seen).1, if seen.Some? then seen.value.prompt else None)
  {
  }

  lemma SeenFires(cfg: Config, s: State, isNew: bool, len: Option<nat>, seen: Option<Extract.Extracted>)
    ensures FiresFor(cfg, s, isNew, len, seen, RecordSeen(cfg, s, isNew, len, seen).1)
  {
    var prompt := NewPrompt(cfg, s, seen);
    FourMayFire(Plain(SessionStart), Plain(Compaction), Trigger(Prompt, prompt, [], None), Plain(ToolResult),
                isNew, Compacts(s, len), prompt.Some?, seen.Some? && seen.value.hasToolResult);
    SeenCarry(cfg, s, isNew, len, seen);
    FiresByEvents(cfg, s, isNew, len, seen, RecordSeen(cfg, s, isNew, len, seen).1);
  }

  /** What a response fires: its tool calls by name, and the end of the turn with the prompt on record and the text. */
  lemma ResponseFires(s: State, summary: Usage.Summary)
    ensures var triggers := RecordResponse(s, summary);
      && InOrder(triggers)
      && (Fires(triggers, ToolCall) <==> summary.toolCalls != []) && (Fires(triggers, TurnEnd) <==> summary.turnEnd)
      && forall k :: 0 <= k < |triggers| ==>
           match triggers[k].event
           case ToolCall =>
             && triggers[k].prompt == None && triggers[k].text == None && |triggers[k].toolCalls| == |summary.toolCalls|
             && forall i :: 0 <= i < |summary.toolCalls| ==> triggers[k].toolCalls[i] == summary.toolCalls[i].name
           case TurnEnd => triggers[k] == Trigger(TurnEnd, s.lastPrompt, [], Some(summary.text))
           case _ => false
  {
    MayFire([], summary.toolCalls != [], Trigger(ToolCall, None, Names(summary.toolCalls), None));
    var calls := if summary.toolCalls != [] then [Trigger(ToolCall, None, Names(summary.toolCalls), None)] else [];
    assert [] + calls == calls;
    MayFire(calls, summary.turnEnd, Trigger(TurnEnd, s.lastPrompt, [], Some(summary.text)));
  }

  /**
   A prompt fires exactly when its fingerprint is new to the session; sent again it never fires; and the turn that ends next is
   reported with a prompt of that very fingerprint.
   */
  lemma PromptFiresOnce(cfg: Config, s: State, isNew: bool, len: Option<nat>, seen: Extract.Extracted, again: Option<nat>)
    requires PromptMatches(cfg, s) && seen.prompt.Some?
    ensures var (after, triggers) := RecordSeen(cfg, s, isNew, len, Some(seen));
      var fingerprint := cfg.digests.prompt(seen.prompt.value);
      && PromptMatches(cfg, after)
      && (Fires(triggers, Prompt) <==> s.lastPromptFingerprint != Some(fingerprint))
      && !Fires(RecordSeen(cfg, after, false, again, Some(seen)).1, Prompt)
      && after.lastPrompt.Some? && cfg.digests.prompt(after.lastPrompt.value) == fingerprint
      && forall summary: Usage.Summary :: summary.turnEnd ==>
           var fired := RecordResponse(after, summary);
           fired != [] && fired[|fired| - 1] == Trigger(TurnEnd, after.lastPrompt, [], Some(summary.text))
  {
    SeenFires(cfg, s, isNew, len, Some(seen));
    SeenFires(cfg, RecordSeen(cfg, s, isNew, len, Some(seen)).0, false, again, Some(seen));
  }

  // ---------- what wakes an agent ----------

  /** A session is woken exactly when something waits and nothing that waits has attachments. */
  lemma WakesExactlyWhen(s: State)
    ensures SweepSnapshot(s).Some? <==> s.outbox != [] && forall p :: p in s.outbox ==> p.attachments == []
  {
  }

  /** A text signal wakes an idle agent like a failure does: once queued, its message is the text of the wake. */
  lemma ATextSignalWakes(cfg: Config, s: State, hook: string, message: string)
    requires s.outbox == [] && message != "" && s.deliveredCount < cfg.maxPerSession as int
    ensures SweepSnapshot(ApplyOutcome(cfg, s, hook, Signal(message, []))) == Some(message)
  {
    var signal := SignalPing(cfg.digests, hook, message, []);
    assert Retain([], NotSignalOf(hook)) == [];
    assert ApplyOutcome(cfg, s, hook, Signal(message, [])).outbox == [signal];
  }

  // ---------- the sweep's two sections ----------

  function TextsOf(pings: seq<Ping>): seq<string> {
    seq(|pings|, i requires 0 <= i < |pings| => pings[i].text)
  }

  lemma {:induction false} TextsAreJoined(pings: seq<Ping>)
    ensures Joins(JoinTexts(pings), TextsOf(pings), "\n\n")
  {
    if pings == [] {
      JoinsNothing("\n\n");
    } else if |pings| == 1 {
      JoinsOne(pings[0].text, "\n\n");
      assert TextsOf(pings) == [pings[0].text];
    } else {
      var shorter, last := pings[..|pings| - 1], pings[|pings| - 1];
      TextsAreJoined(shorter);
      JoinsOneMore(JoinTexts(shorter), TextsOf(shorter), "\n\n", last.text);
      assert TextsOf(pings) == TextsOf(shorter) + [last.text];
    }
  }

  /** The text of a wake holds the text of every waiting ping, in order and at a place of its own, a blank line between two. */
  lemma WakeTextHoldsWhatWaits(s: State)
    requires SweepSnapshot(s).Some?
    ensures Joins(SweepSnapshot(s).value, TextsOf(s.outbox), "\n\n")
  {
    TextsAreJoined(s.outbox);
  }

  /** With the outbox untouched during the wake, what is committed is exactly what the wake text holds. */
  lemma QuietWakeCommitsItsText(s: State, later: State, books: Books)
    requires SweepSnapshot(s).Some? && later.outbox == s.outbox
    ensures Joins(SweepSnapshot(s).value, TextsOf(AfterWake(later, books).committed[|books.committed|..]), "\n\n")
  {
    TextsAreJoined(s.outbox);
    assert (books.committed + later.outbox)[|books.committed|..] == s.outbox;
  }

  /**
   The outbox is not locked during the wake. A failure queued in between is put on record as delivered and taken
   out of the outbox although the text that was sent does not hold it, and no later request will carry it.
   */
  lemma PingQueuedDuringWakeIsLost(cfg: Config, s: State, hook: string, reason: string, fix: Option<string>)
    requires SweepSnapshot(s).Some?
    requires Admits(cfg, s, hook, Fail(reason, fix))
    ensures var lost := FailurePing(cfg.digests, hook, reason, fix);
            var committed := SweepCommit(ApplyOutcome(cfg, s, hook, Fail(reason, fix)));
            && lost !in s.outbox
            && lost.id in committed.deliveredIds
            && committed.outbox == []
            && committed.delivered == s.delivered
            && !Admits(cfg, committed, hook, Fail(reason, fix))
  {
    var lost := FailurePing(cfg.digests, hook, reason, fix);
    var after := ApplyOutcome(cfg, s, hook, Fail(reason, fix));
    assert lost in after.outbox;
  }
}
