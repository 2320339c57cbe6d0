/**
 The hook engine's state for one session and every locked section that touches it (`src/hooks/state.rs`,
 `src/hooks/mod.rs:206-595`), as functions from state to state. Module `SessionRecord` holds the source's
 mutable record, each of whose methods is proved to do what the function of the same name here says.
 */
module Session {
  import opened Wrappers
  import opened Pings
  import opened Injection
  import Extract
  import Usage

  newtype u32 = x: int | 0 <= x < 0x1_0000_0000

  datatype HookEvent = SessionStart | Prompt | ToolCall | ToolResult | TurnEnd | Compaction

  datatype Trigger = Trigger(event: HookEvent, prompt: Option<string>, toolCalls: seq<string>, text: Option<string>)

  datatype Outcome =
    | Pass
    | Noop
    | Signal(message: string, attachments: seq<Image>)
    | Fail(reason: string, fix: Option<string>)
    | Timeout
    | Error(detail: string)

  /** One hook's slot: whether a runner owns it, and the one coalesced trigger waiting behind that runner. */
  datatype HookRun = HookRun(running: bool, rerun: Option<Trigger>)

  datatype Config = Config(maxPerSession: u32, digests: Digests)

  /** The two pinning primitives, as the engine is handed them (`trait PinInjector`). */
  datatype Injector = Injector(conversationLen: (Wire, Body) -> Option<nat>,
                               inject: (Wire, Body, seq<PinnedPing>) -> Option<Body>)

  /** The injector used in production: the real JSON insertion. */
  function RealInjector(): Injector {
    Injector((wire, body) => ConversationLen(wire, body), (wire, body, pins) => Inject(wire, body, pins))
  }

  datatype State = State(
    outbox: seq<Ping>,
    delivered: seq<PinnedPing>,
    deliveredIds: set<string>,
    deliveredCount: nat,
    prevConversationLen: Option<nat>,
    lastPromptFingerprint: Option<string>,
    lastPrompt: Option<string>,
    hookRuns: map<string, HookRun>)

  const FRESH := State([], [], {}, 0, None, None, None, map[])

  // ---------- outbox operations ----------

  function Retain(outbox: seq<Ping>, keep: Ping -> bool): seq<Ping> {
    if outbox == [] then []
    else Retain(outbox[..|outbox| - 1], keep)
         + (if keep(outbox[|outbox| - 1]) then [outbox[|outbox| - 1]] else [])
  }

  function NotSignalOf(hook: string): Ping -> bool {
    (p: Ping) => p.hook != hook || !p.transient
  }

  function NotOf(hook: string): Ping -> bool {
    (p: Ping) => p.hook != hook
  }

  predicate IsDuplicate(s: State, candidate: Ping) {
    (exists p :: p in s.outbox && p.id == candidate.id) || candidate.id in s.deliveredIds
  }

  // ---------- hook outcomes ----------

  function ApplySignal(cfg: Config, s: State, hook: string, message: string, attachments: seq<Image>): State {
    if message == "" && attachments == [] then s else
    var kept := Retain(s.outbox, NotSignalOf(hook));
    s.(outbox := if s.deliveredCount + |kept| < cfg.maxPerSession as int
                 then kept + [SignalPing(cfg.digests, hook, message, attachments)] else kept)
  }

  function ApplyFail(cfg: Config, s: State, hook: string, reason: string, fix: Option<string>): State {
    var candidate := FailurePing(cfg.digests, hook, reason, fix);
    if IsDuplicate(s, candidate) || s.deliveredCount + |s.outbox| >= cfg.maxPerSession as int then s
    else s.(outbox := s.outbox + [candidate])
  }

  function ApplyOutcome(cfg: Config, s: State, hook: string, outcome: Outcome): State {
    match outcome
    case Signal(message, attachments) => ApplySignal(cfg, s, hook, message, attachments)
    case Pass => s.(outbox := Retain(s.outbox, NotOf(hook)))
    case Fail(reason, fix) => ApplyFail(cfg, s, hook, reason, fix)
    case _ => s
  }

  // ---------- delivery ----------

  datatype Delivery = Delivery(body: Body, ids: seq<string>)

  function PinAll(pings: seq<Ping>, anchor: nat): seq<PinnedPing> {
    seq(|pings|, i requires 0 <= i < |pings| => IntoPinned(pings[i], anchor))
  }

  /** The pins of the durable pings of a batch, in order. */
  function DurablePins(pings: seq<Ping>, anchor: nat): seq<PinnedPing> {
    if pings == [] then []
    else DurablePins(pings[..|pings| - 1], anchor)
         + (if pings[|pings| - 1].transient then [] else [IntoPinned(pings[|pings| - 1], anchor)])
  }

  function Ids(pings: seq<Ping>): seq<string> {
    seq(|pings|, i requires 0 <= i < |pings| => pings[i].id)
  }

  function IdSet(pings: seq<Ping>): set<string> {
    set p | p in pings :: p.id
  }

  /** The whole outbox goes out pinned at `anchor`, behind the pins in `kept`. */
  function CommitPinned(s: State, kept: seq<PinnedPing>, anchor: nat): State {
    s.(outbox := [],
       delivered := kept + DurablePins(s.outbox, anchor),
       deliveredIds := s.deliveredIds + IdSet(s.outbox),
       deliveredCount := s.deliveredCount + |s.outbox|)
  }

  /** One attempt: inject the pins in `kept` and the outbox, and on success put the outbox on record. */
  function Attempt(injector: Injector, s: State, kept: seq<PinnedPing>, wire: Wire, body: Body, anchor: nat)
    : Option<(State, Delivery)>
  {
    match injector.inject(wire, body, kept + PinAll(s.outbox, anchor))
    case Some(out) => Some((CommitPinned(s, kept, anchor), Delivery(out, Ids(s.outbox))))
    case None => None
  }

  /** First with every old pin; if those no longer fit this body, without them; else the outbox is put back. */
  function AttachPings(injector: Injector, s: State, wire: Wire, body: Body): (State, Option<Delivery>) {
    if s.outbox == [] && s.delivered == [] then (s, None)
    else match injector.conversationLen(wire, body)
      case None => (s, None)
      case Some(len) =>
        if len == 0 then (s, None) else
        match Attempt(injector, s, s.delivered, wire, body, len - 1)
        case Some(done) => (done.0, Some(done.1))
        case None =>
          match Attempt(injector, s, [], wire, body, len - 1)
          case Some(done) => (done.0, Some(done.1))
          case None => (s.(delivered := []), None)
  }

  /** The text of a wake, joined as the harness receives it. */
  function JoinTexts(pings: seq<Ping>): string {
    if pings == [] then ""
    else if |pings| == 1 then pings[0].text
    else JoinTexts(pings[..|pings| - 1]) + "\n\n" + pings[|pings| - 1].text
  }

  /** The first locked section of `idle_sweep`, for a session that is idle and has a wake target. */
  function SweepSnapshot(s: State): Option<string> {
    if s.outbox == [] || (exists p :: p in s.outbox && p.attachments != []) then None
    else Some(JoinTexts(s.outbox))
  }

  /** The second locked section, after a wake that reported success. */
  function SweepCommit(s: State): State {
    s.(outbox := [],
       deliveredIds := s.deliveredIds + IdSet(s.outbox),
       deliveredCount := s.deliveredCount + |s.outbox|)
  }

  // ---------- requests and responses ----------

  function Plain(event: HookEvent): Trigger {
    Trigger(event, None, [], None)
  }

  /** Whether the request's conversation is shorter than the last one seen. */
  predicate Compacts(s: State, len: Option<nat>) {
    s.prevConversationLen.Some? && len.Some? && len.value < s.prevConversationLen.value
  }

  function NewPrompt(cfg: Config, s: State, extracted: Option<Extract.Extracted>): Option<string> {
    match extracted
    case Some(Extracted(Some(prompt), _)) =>
      if s.lastPromptFingerprint == Some(cfg.digests.prompt(prompt)) then None else Some(prompt)
    case _ => None
  }

  /** `record_request` on what the request's body was seen to hold, with what it decided to fire. */
  function RecordSeen(cfg: Config, s: State, isNew: bool, len: Option<nat>, extracted: Option<Extract.Extracted>)
    : (State, seq<Trigger>)
  {
    var prompt := NewPrompt(cfg, s, extracted);
    (s.(delivered := if Compacts(s, len) then [] else s.delivered,
        prevConversationLen := if len.Some? then len else s.prevConversationLen,
        lastPromptFingerprint := if prompt.Some? then Some(cfg.digests.prompt(prompt.value)) else s.lastPromptFingerprint,
        lastPrompt := if prompt.Some? then prompt else s.lastPrompt),
     (if isNew then [Plain(SessionStart)] else [])
     + (if Compacts(s, len) then [Plain(Compaction)] else [])
     + (if prompt.Some? then [Trigger(Prompt, prompt, [], None)] else [])
     + (if extracted.Some? && extracted.value.hasToolResult then [Plain(ToolResult)] else []))
  }

  function RecordRequest(cfg: Config, s: State, isNew: bool, wire: Wire, body: Body): (State, seq<Trigger>) {
    RecordSeen(cfg, s, isNew, Extract.ConversationLength(wire, body), Extract.LastItem(wire, body))
  }

  function Names(calls: seq<Usage.ToolCall>): seq<string> {
    seq(|calls|, i requires 0 <= i < |calls| => calls[i].name)
  }

  /** `record_response`: what a finished response fires. */
  function RecordResponse(s: State, summary: Usage.Summary): seq<Trigger> {
    (if summary.toolCalls != [] then [Trigger(ToolCall, None, Names(summary.toolCalls), None)] else [])
    + (if summary.turnEnd then [Trigger(TurnEnd, s.lastPrompt, [], Some(summary.text))] else [])
  }

  // ---------- the hook slot ----------

  /** `hook_runs.entry(hook).or_default()` */
  function RunIn(hookRuns: map<string, HookRun>, hook: string): HookRun {
    if hook in hookRuns then hookRuns[hook] else HookRun(false, None)
  }

  function RunOf(s: State, hook: string): HookRun {
    RunIn(s.hookRuns, hook)
  }

  /** Become the runner, or leave the trigger as the coalesced rerun of whoever is. */
  function TakeSlot(s: State, hook: string, trigger: Trigger): (State, bool) {
    if RunOf(s, hook).running
    then (s.(hookRuns := s.hookRuns[hook := RunOf(s, hook).(rerun := Some(trigger))]), false)
    else (s.(hookRuns := s.hookRuns[hook := RunOf(s, hook).(running := true)]), true)
  }

  /** After a run: take the waiting trigger, or give the slot up. */
  function NextTrigger(s: State, hook: string): (State, Option<Trigger>) {
    var run := RunOf(s, hook);
    if run.rerun.Some? then (s.(hookRuns := s.hookRuns[hook := run.(rerun := None)]), run.rerun)
    else (s.(hookRuns := s.hookRuns[hook := run.(running := false)]), None)
  }
}
