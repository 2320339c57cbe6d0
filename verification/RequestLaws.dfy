/**
 What requests fire over whole runs (`src/hooks/mod.rs:206-320`): a compaction and a prompt are judged against the latest
 request that told a length, or a prompt, however many other steps came in between.
 */
module RequestLaws {
  import opened Wrappers
  import opened Injection
  import opened Session
  import opened Protocol
  import opened Usage
  import Extract
  import SessionLaws

  function LengthIn(step: Step): Option<nat> {
    match step case Request(_, len, _) => len case _ => None
  }

  function PromptIn(step: Step): Option<string> {
    match step case Request(_, _, Some(seen)) => seen.prompt case _ => None
  }

  /** The length of the conversation in the latest request of a run that tells one. */
  function LatestLength(steps: seq<Step>): Option<nat> {
    if steps == [] then None else Or(LatestLength(steps[1..]), LengthIn(steps[0]))
  }

  /** The prompt in the latest request of a run that has one. */
  function LatestPrompt(steps: seq<Step>): Option<string> {
    if steps == [] then None else Or(LatestPrompt(steps[1..]), PromptIn(steps[0]))
  }

  function Fingerprint(cfg: Config, prompt: Option<string>): Option<string> {
    match prompt case Some(p) => Some(cfg.digests.prompt(p)) case None => None
  }

  lemma StepRemembers(env: Env, sys: System, step: Step)
    requires Enabled(sys, step)
    ensures var after := Next(env, sys, step).session;
      && after.prevConversationLen == Or(LengthIn(step), sys.session.prevConversationLen)
      && after.lastPromptFingerprint == Or(Fingerprint(env.cfg, PromptIn(step)), sys.session.lastPromptFingerprint)
      && (SessionLaws.PromptMatches(env.cfg, sys.session) ==> SessionLaws.PromptMatches(env.cfg, after))
  {
    match step {
      case Attach(wire, body) => AttachRemembers(env.injector, sys.session, wire, body);
      case _ =>
    }
  }

  lemma AttachRemembers(injector: Injector, s: State, wire: Wire, body: Body)
    ensures var after := AttachPings(injector, s, wire, body).0;
      && after.prevConversationLen == s.prevConversationLen && after.lastPromptFingerprint == s.lastPromptFingerprint
      && after.lastPrompt == s.lastPrompt
  {
  }

  lemma {:induction false} RunRemembers(env: Env, sys: System, steps: seq<Step>)
    requires Runs(env, sys, steps) && SessionLaws.PromptMatches(env.cfg, sys.session)
    ensures var after := After(env, sys, steps).session;
      && after.prevConversationLen == Or(LatestLength(steps), sys.session.prevConversationLen)
      && after.lastPromptFingerprint == Or(Fingerprint(env.cfg, LatestPrompt(steps)), sys.session.lastPromptFingerprint)
      && SessionLaws.PromptMatches(env.cfg, after)
    decreases |steps|
  {
    if steps != [] {
      StepRemembers(env, sys, steps[0]);
      RunRemembers(env, Next(env, sys, steps[0]), steps[1..]);
    }
  }

  /**
   In every run: the next request fires a compaction exactly when it tells a length below the latest one told, and a prompt
   exactly when it has one whose fingerprint is not that of the latest; and the end of a turn is reported with a prompt of the
   latest one's fingerprint.
   */
  lemma RequestsInEveryRun(env: Env, steps: seq<Step>, isNew: bool, len: Option<nat>, seen: Option<Extract.Extracted>)
    requires Runs(env, START, steps)
    ensures var session := After(env, START, steps).session;
      var triggers := RecordSeen(env.cfg, session, isNew, len, seen).1;
      && (SessionLaws.Fires(triggers, Compaction) <==>
            LatestLength(steps).Some? && len.Some? && len.value < LatestLength(steps).value)
      && (SessionLaws.Fires(triggers, Prompt) <==>
            seen.Some? && seen.value.prompt.Some?
            && Fingerprint(env.cfg, seen.value.prompt) != Fingerprint(env.cfg, LatestPrompt(steps)))
      && Fingerprint(env.cfg, session.lastPrompt) == Fingerprint(env.cfg, LatestPrompt(steps))
  {
    RunRemembers(env, START, steps);
    SessionLaws.SeenFires(env.cfg, After(env, START, steps).session, isNew, len, seen);
  }
}
