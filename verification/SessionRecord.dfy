/**
 The mutable `SessionState` (`src/hooks/state.rs:19-62`) and the locked sections of `src/hooks/mod.rs` that change
 it, with the source's own statements, loops and u32 arithmetic. `WithinCap` is what keeps the u32 sums in range.
 */
module SessionRecord {
  import opened Wrappers
  import opened Pings
  import opened Injection
  import opened Session
  import Extract
  import Usage

  /** `usize as u32`. */
  function Truncate(n: nat): u32 {
    (n % 0x1_0000_0000) as u32
  }

  class SessionState {
    var outbox: seq<Ping>
    var delivered: seq<PinnedPing>
    var deliveredIds: set<string>
    var deliveredCount: u32
    var prevConversationLen: Option<nat>
    var lastPromptFingerprint: Option<string>
    var lastPrompt: Option<string>
    var hookRuns: map<string, HookRun>

    ghost function Now(): State
      reads this
    {
      State(outbox, delivered, deliveredIds, deliveredCount as int, prevConversationLen, lastPromptFingerprint,
            lastPrompt, hookRuns)
    }

    /** What keeps every u32 sum of this record in range. */
    ghost predicate WithinCap(cap: u32)
      reads this
    {
      deliveredCount as int + |outbox| <= cap as int
    }

    constructor ()
      ensures Now() == FRESH
      ensures forall cap :: WithinCap(cap)
    {
      outbox, delivered, deliveredIds, deliveredCount := [], [], {}, 0;
      prevConversationLen, lastPromptFingerprint, lastPrompt, hookRuns := None, None, None, map[];
    }

    /** `Vec::retain` on the outbox. */
    method RetainOutbox(keep: Ping -> bool)
      modifies this`outbox
      ensures outbox == Retain(old(outbox), keep)
      ensures |outbox| <= |old(outbox)|
    {
      var kept := [];
      for i := 0 to |outbox|
        invariant outbox == old(outbox)
        invariant kept == Retain(outbox[..i], keep) && |kept| <= i
      {
        assert outbox[..i + 1][..i] == outbox[..i];
        if keep(outbox[i]) {
          kept := kept + [outbox[i]];
        }
      }
      assert outbox[..|outbox|] == outbox;
      outbox := kept;
    }

    method ApplyOutcome(cfg: Config, hook: string, outcome: Outcome)
      requires WithinCap(cfg.maxPerSession)
      modifies this`outbox
      ensures WithinCap(cfg.maxPerSession)
      ensures Now() == Session.ApplyOutcome(cfg, old(Now()), hook, outcome)
    {
      match outcome {
        case Signal(message, attachments) =>
          if message == "" && attachments == [] {
            return;
          }
          var candidate := SignalPing(cfg.digests, hook, message, attachments);
          RetainOutbox(NotSignalOf(hook));
          if deliveredCount + Truncate(|outbox|) < cfg.maxPerSession {
            outbox := outbox + [candidate];
          }
        case Pass =>
          RetainOutbox(NotOf(hook));
        case Fail(reason, fix) =>
          var candidate := FailurePing(cfg.digests, hook, reason, fix);
          var duplicate := (exists p :: p in outbox && p.id == candidate.id) || candidate.id in deliveredIds;
          var atCap := deliveredCount + Truncate(|outbox|) >= cfg.maxPerSession;
          if !duplicate && !atCap {
            outbox := outbox + [candidate];
          }
        case _ =>
      }
    }

    /** Puts the taken pings on record as delivered: their ids, their durable pins, their number. */
    method RecordDelivered(pings: seq<Ping>, anchor: nat)
      requires deliveredCount as int + |pings| < 0x1_0000_0000
      modifies this`delivered, this`deliveredIds, this`deliveredCount
      ensures delivered == old(delivered) + DurablePins(pings, anchor)
      ensures deliveredIds == old(deliveredIds) + IdSet(pings)
      ensures deliveredCount as int == old(deliveredCount) as int + |pings|
    {
      deliveredIds := deliveredIds + IdSet(pings);
      var durable := [];
      for i := 0 to |pings|
        invariant durable == DurablePins(pings[..i], anchor)
        invariant delivered == old(delivered) && deliveredCount == old(deliveredCount)
      {
        assert pings[..i + 1][..i] == pings[..i];
        if !pings[i].transient {
          durable := durable + [IntoPinned(pings[i], anchor)];
        }
      }
      assert pings[..|pings|] == pings;
      delivered := delivered + durable;
      deliveredCount := deliveredCount + Truncate(|pings|);
    }

    /** Injects the pins on record and the taken pings; records the taken pings when that worked. */
    method AttemptDelivery(injector: Injector, wire: Wire, body: Body, taken: seq<Ping>, anchor: nat) returns (r: Option<Delivery>)
      requires deliveredCount as int + |taken| < 0x1_0000_0000
      modifies this`delivered, this`deliveredIds, this`deliveredCount
      ensures var was := old(Now()).(outbox := taken);
              var done := Attempt(injector, was, was.delivered, wire, body, anchor);
              && r.Some? == done.Some?
              && (r.Some? ==> r.value == done.value.1 && Now().(outbox := []) == done.value.0)
              && (r.None? ==> Now() == old(Now()))
    {
      var out := injector.inject(wire, body, delivered + PinAll(taken, anchor));
      if out.None? {
        return None;
      }
      RecordDelivered(taken, anchor);
      return Some(Delivery(out.value, Ids(taken)));
    }

    method AttachPings(injector: Injector, cap: u32, wire: Wire, body: Body) returns (r: Option<Delivery>)
      requires WithinCap(cap)
      modifies this`outbox, this`delivered, this`deliveredIds, this`deliveredCount
      ensures WithinCap(cap)
      ensures (Now(), r) == Session.AttachPings(injector, old(Now()), wire, body)
    {
      if outbox == [] && delivered == [] {
        return None;
      }
      var len := injector.conversationLen(wire, body);
      if len.None? || len.value == 0 {
        return None;
      }
      var taken := outbox;
      outbox := [];
      r := AttemptDelivery(injector, wire, body, taken, len.value - 1);
      if r.Some? {
        return;
      }
      delivered := [];
      r := AttemptDelivery(injector, wire, body, taken, len.value - 1);
      if r.None? {
        outbox := outbox + taken;
        assert outbox == old(outbox);
      }
    }

    /** The second locked section of `idle_sweep`. */
    method SweepCommit(cap: u32)
      requires WithinCap(cap)
      modifies this`outbox, this`deliveredIds, this`deliveredCount
      ensures WithinCap(cap)
      ensures Now() == Session.SweepCommit(old(Now()))
    {
      deliveredIds := deliveredIds + IdSet(outbox);
      deliveredCount := deliveredCount + Truncate(|outbox|);
      outbox := [];
    }

    method RecordRequest(cfg: Config, isNew: bool, wire: Wire, body: Body) returns (triggers: seq<Trigger>)
      modifies this`delivered, this`prevConversationLen, this`lastPromptFingerprint, this`lastPrompt
      ensures (Now(), triggers) == Session.RecordRequest(cfg, old(Now()), isNew, wire, body)
    {
      triggers := RecordSeen(cfg, isNew, Extract.ConversationLength(wire, body), Extract.LastItem(wire, body));
    }

    method RecordSeen(cfg: Config, isNew: bool, newLen: Option<nat>, extracted: Option<Extract.Extracted>)
      returns (triggers: seq<Trigger>)
      modifies this`delivered, this`prevConversationLen, this`lastPromptFingerprint, this`lastPrompt
      ensures (Now(), triggers) == Session.RecordSeen(cfg, old(Now()), isNew, newLen, extracted)
    {
      triggers := [];
      if isNew {
        triggers := triggers + [Plain(SessionStart)];
      }
      if prevConversationLen.Some? && newLen.Some? {
        if newLen.value < prevConversationLen.value {
          delivered := [];
          triggers := triggers + [Plain(Compaction)];
        }
      }
      if newLen.Some? {
        prevConversationLen := newLen;
      }
      ghost var was := old(Now());
      ghost var before := (if isNew then [Plain(SessionStart)] else [])
                          + (if Compacts(was, newLen) then [Plain(Compaction)] else []);
      assert triggers == before;
      if extracted.Some? {
        if extracted.value.prompt.Some? {
          var prompt := extracted.value.prompt.value;
          var fingerprint := cfg.digests.prompt(prompt);
          if lastPromptFingerprint != Some(fingerprint) {
            lastPromptFingerprint := Some(fingerprint);
            lastPrompt := Some(prompt);
            triggers := triggers + [Trigger(Prompt, Some(prompt), [], None)];
          }
        }
        if extracted.value.hasToolResult {
          triggers := triggers + [Plain(ToolResult)];
        }
      }
      ghost var prompt := NewPrompt(cfg, was, extracted);
      assert triggers == before + (if prompt.Some? then [Trigger(Prompt, prompt, [], None)] else [])
                         + (if extracted.Some? && extracted.value.hasToolResult then [Plain(ToolResult)] else []);
    }

    /** What a finished response fires; it reads the record and changes nothing here. */
    method RecordResponse(summary: Usage.Summary) returns (triggers: seq<Trigger>)
      ensures triggers == Session.RecordResponse(Now(), summary)
    {
      triggers := [];
      if summary.toolCalls != [] {
        triggers := triggers + [Trigger(ToolCall, None, Names(summary.toolCalls), None)];
      }
      if summary.turnEnd {
        triggers := triggers + [Trigger(TurnEnd, lastPrompt, [], Some(summary.text))];
      }
    }

    /** The check-and-acquire at the head of `trigger_hook`. */
    method TakeSlot(hook: string, trigger: Trigger) returns (owner: bool)
      modifies this`hookRuns
      ensures (Now(), owner) == Session.TakeSlot(old(Now()), hook, trigger)
    {
      var run := if hook in hookRuns then hookRuns[hook] else HookRun(false, None);
      if run.running {
        hookRuns := hookRuns[hook := run.(rerun := Some(trigger))];
        return false;
      }
      hookRuns := hookRuns[hook := run.(running := true)];
      return true;
    }

    /** The locked section at the end of each pass of `trigger_hook`'s loop. */
    method NextTrigger(hook: string) returns (next: Option<Trigger>)
      modifies this`hookRuns
      ensures (Now(), next) == Session.NextTrigger(old(Now()), hook)
    {
      var run := if hook in hookRuns then hookRuns[hook] else HookRun(false, None);
      next := run.rerun;
      hookRuns := hookRuns[hook := if next.Some? then run.(rerun := None) else run.(running := false)];
    }
  }
}
