/**
 The gap in the idle sweep (`src/hooks/mod.rs:544-595`): the text of a wake is joined under the lock, the wake runs without
 it, and what is then committed is whatever waits. Over every run, this says exactly when the two agree.
 */
module WakeLaws {
  import opened Wrappers
  import opened Pings
  import opened Injection
  import opened Session
  import opened Ledger
  import opened Protocol
  import opened ProtocolLaws
  import SessionLaws
  import Texts

  // ---------- what a run puts in the outbox, and takes from it ----------

  /** The ping a step queues, if it applies an outcome that is admitted. */
  function Admission(env: Env, sys: System, step: Step): seq<Ping>
    requires Enabled(sys, step)
  {
    match step
    case Apply(i) =>
      var task := sys.tasks[i];
      if Admits(env.cfg, sys.session, task.hook, task.pc.outcome) && Candidate(env.cfg, task.hook, task.pc.outcome).Some?
      then [Candidate(env.cfg, task.hook, task.pc.outcome).value] else []
    case _ => []
  }

  function Admissions(env: Env, sys: System, steps: seq<Step>): seq<Ping>
    requires Runs(env, sys, steps)
    decreases |steps|
  {
    if steps == [] then []
    else Admission(env, sys, steps[0]) + Admissions(env, Next(env, sys, steps[0]), steps[1..])
  }

  /**
   Whether a step takes a waiting ping: a pass of its hook, or a new signal of its hook if it is one, an attachment that
   succeeds, or another wake that returns with success.
   */
  predicate Takes(env: Env, sys: System, step: Step, p: Ping)
    requires Enabled(sys, step)
  {
    match step
    case Apply(i) => Drops(sys.tasks[i].hook, sys.tasks[i].pc.outcome, p)
    case Attach(wire, body) => AttachPings(env.injector, sys.session, wire, body).1.Some?
    case WakeReturns(_, delivered) => delivered
    case _ => false
  }

  predicate Untaken(env: Env, sys: System, steps: seq<Step>, p: Ping)
    requires Runs(env, sys, steps)
    decreases |steps|
  {
    steps == [] || (!Takes(env, sys, steps[0], p) && Untaken(env, Next(env, sys, steps[0]), steps[1..], p))
  }

  /** Some step of a run queues the ping, and no later one takes it. */
  predicate AdmittedAndKept(env: Env, sys: System, steps: seq<Step>, p: Ping)
    requires Runs(env, sys, steps)
    decreases |steps|
  {
    steps != [] &&
    var next := Next(env, sys, steps[0]);
    (p in Admission(env, sys, steps[0]) && Untaken(env, next, steps[1..], p)) || AdmittedAndKept(env, next, steps[1..], p)
  }

  lemma StepMoves(env: Env, sys: System, step: Step, p: Ping)
    requires Enabled(sys, step)
    ensures p in Next(env, sys, step).session.outbox
       <==> (p in sys.session.outbox && !Takes(env, sys, step, p)) || p in Admission(env, sys, step)
  {
    match step {
      case Apply(i) =>
        var task := sys.tasks[i];
        OutcomeShape(env.cfg, sys.session, task.hook, task.pc.outcome);
        RetainHolds(sys.session.outbox, Kept(task.hook, task.pc.outcome));
      case Attach(wire, body) => AttachTakesAllOrNone(env.injector, sys.session, wire, body);
      case _ =>
    }
  }

  lemma AttachTakesAllOrNone(injector: Injector, s: State, wire: Wire, body: Body)
    ensures var (after, r) := AttachPings(injector, s, wire, body); after.outbox == if r.Some? then [] else s.outbox
  {
  }

  /** A ping waits after a run exactly when it waited before or was queued in it, and no step since has taken it. */
  lemma {:induction false} WaitsExactlyWhen(env: Env, sys: System, steps: seq<Step>, p: Ping)
    requires Runs(env, sys, steps)
    ensures p in After(env, sys, steps).session.outbox
       <==> (p in sys.session.outbox && Untaken(env, sys, steps, p)) || AdmittedAndKept(env, sys, steps, p)
    decreases |steps|
  {
    if steps != [] {
      StepMoves(env, sys, steps[0], p);
      WaitsExactlyWhen(env, Next(env, sys, steps[0]), steps[1..], p);
    }
  }

  /** Whatever waits after a run waited before it or was admitted in it. */
  lemma {:induction false} WaitingWasAdmitted(env: Env, sys: System, steps: seq<Step>, p: Ping)
    requires Runs(env, sys, steps) && p in After(env, sys, steps).session.outbox
    ensures p in sys.session.outbox || p in Admissions(env, sys, steps)
    decreases |steps|
  {
    if steps != [] {
      var next := Next(env, sys, steps[0]);
      WaitingWasAdmitted(env, next, steps[1..], p);
      StepMoves(env, sys, steps[0], p);
    }
  }

  // ---------- the wake under way ----------

  /** Where a wake under way stands in the list of wakes after some steps; nowhere once it has returned. */
  function Standing(steps: seq<Step>, k: nat): Option<nat> {
    if steps == [] then Some(k) else
    match steps[0]
    case WakeReturns(j, _) => if j == k then None else Standing(steps[1..], if j < k then k - 1 else k)
    case _ => Standing(steps[1..], k)
  }

  lemma {:induction false} WakeKeepsItsText(env: Env, sys: System, steps: seq<Step>, k: nat)
    requires Runs(env, sys, steps) && k < |sys.wakes| && Standing(steps, k).Some?
    ensures var j := Standing(steps, k).value;
      j < |After(env, sys, steps).wakes| && After(env, sys, steps).wakes[j] == sys.wakes[k]
    decreases |steps|
  {
    if steps != [] {
      var next := Next(env, sys, steps[0]);
      match steps[0] {
        case WakeReturns(j, _) => WakeKeepsItsText(env, next, steps[1..], if j < k then k - 1 else k);
        case _ => WakeKeepsItsText(env, next, steps[1..], k);
      }
    }
  }

  /** A wake: the run before its snapshot, and the run between the snapshot and its return, at which it stands at `at`. */
  ghost predicate IsWake(cfg: Config, before: seq<Step>, between: seq<Step>, at: nat) {
    && Runs(Production(cfg), START, before)
    && Enabled(After(Production(cfg), START, before), Snapshot)
    && var sys := After(Production(cfg), START, before);
       Runs(Production(cfg), Next(Production(cfg), sys, Snapshot), between) && Standing(between, |sys.wakes|) == Some(at)
  }

  /** The system at the snapshot, and the one the wake returns to. */
  function AtSnapshot(cfg: Config, before: seq<Step>): System
    requires Runs(Production(cfg), START, before)
  {
    After(Production(cfg), START, before)
  }

  function AtReturn(cfg: Config, before: seq<Step>, between: seq<Step>): System
    requires Runs(Production(cfg), START, before) && Enabled(AtSnapshot(cfg, before), Snapshot)
    requires Runs(Production(cfg), Next(Production(cfg), AtSnapshot(cfg, before), Snapshot), between)
  {
    After(Production(cfg), Next(Production(cfg), AtSnapshot(cfg, before), Snapshot), between)
  }

  /** The text of the wake that stands at `at`. */
  function TextSent(late: System, at: nat): string {
    if at < |late.wakes| then late.wakes[at] else ""
  }

  /** A ping is one of those a text holds, each at a place of its own. */
  ghost predicate HasPlace(text: string, pings: seq<Ping>, p: Ping) {
    exists at, i :: Texts.Stands(text, SessionLaws.TextsOf(pings), "\n\n", at) && 0 <= i < |pings| && pings[i] == p
  }

  lemma PlaceExactly(text: string, pings: seq<Ping>, p: Ping)
    requires Texts.Joins(text, SessionLaws.TextsOf(pings), "\n\n")
    ensures HasPlace(text, pings, p) <==> p in pings
  {
    var at :| Texts.Stands(text, SessionLaws.TextsOf(pings), "\n\n", at);
    if p in pings {
      var i :| 0 <= i < |pings| && pings[i] == p;
      assert Texts.Stands(text, SessionLaws.TextsOf(pings), "\n\n", at) && pings[i] == p;
    }
  }

  /**
   A wake is sent with the texts of exactly the pings that waited at its snapshot, a blank line between two; when it returns
   with success, whatever waits then is committed.
   */
  lemma WakeSendsAndCommits(cfg: Config, before: seq<Step>, between: seq<Step>, at: nat)
    requires IsWake(cfg, before, between, at)
    ensures var sys, late := AtSnapshot(cfg, before), AtReturn(cfg, before, between);
      && at < |late.wakes| && Texts.Joins(TextSent(late, at), SessionLaws.TextsOf(sys.session.outbox), "\n\n")
      && Enabled(late, WakeReturns(at, true))
      && var done := Next(Production(cfg), late, WakeReturns(at, true));
         done.past.books.committed == late.past.books.committed + late.session.outbox && done.session.outbox == []
  {
    var sys := AtSnapshot(cfg, before);
    WakeKeepsItsText(Production(cfg), Next(Production(cfg), sys, Snapshot), between, |sys.wakes|);
    SessionLaws.WakeTextHoldsWhatWaits(sys.session);
  }

  /**
   A ping is committed by a wake although its text did not hold it exactly when it did not wait at the snapshot, some step in
   between queued it, and no step after that one - a pass or a replacement, an attachment, another wake - took it again.
   */
  lemma UnsentExactlyWhen(cfg: Config, before: seq<Step>, between: seq<Step>, at: nat, p: Ping)
    requires IsWake(cfg, before, between, at)
    ensures var sys, late := AtSnapshot(cfg, before), AtReturn(cfg, before, between);
      p in late.session.outbox && !HasPlace(TextSent(late, at), sys.session.outbox, p)
      <==> p !in sys.session.outbox && AdmittedAndKept(Production(cfg), Next(Production(cfg), sys, Snapshot), between, p)
  {
    var sys, late := AtSnapshot(cfg, before), AtReturn(cfg, before, between);
    WakeSendsAndCommits(cfg, before, between, at);
    PlaceExactly(TextSent(late, at), sys.session.outbox, p);
    WaitsExactlyWhen(Production(cfg), Next(Production(cfg), sys, Snapshot), between, p);
  }

  /** So in every run what a wake commits was all in the text it was sent with, exactly when there is no such ping. */
  lemma WakeCommitsItsTextExactlyWhen(cfg: Config, before: seq<Step>, between: seq<Step>, at: nat)
    requires IsWake(cfg, before, between, at)
    ensures var sys, late := AtSnapshot(cfg, before), AtReturn(cfg, before, between);
      (forall p :: p in late.session.outbox ==> HasPlace(TextSent(late, at), sys.session.outbox, p))
      <==> (forall p :: AdmittedAndKept(Production(cfg), Next(Production(cfg), sys, Snapshot), between, p)
                        ==> p in sys.session.outbox)
  {
    forall p {
      UnsentExactlyWhen(cfg, before, between, at, p);
    }
  }

  /** With no outcome admitted in between, everything committed was sent. */
  lemma QuietWakeCommitsItsText(cfg: Config, before: seq<Step>, between: seq<Step>, at: nat)
    requires IsWake(cfg, before, between, at)
    requires Admissions(Production(cfg), Next(Production(cfg), AtSnapshot(cfg, before), Snapshot), between) == []
    ensures var sys, late := AtSnapshot(cfg, before), AtReturn(cfg, before, between);
      forall p :: p in late.session.outbox ==> HasPlace(TextSent(late, at), sys.session.outbox, p)
  {
    var sys, late := AtSnapshot(cfg, before), AtReturn(cfg, before, between);
    WakeSendsAndCommits(cfg, before, between, at);
    forall p | p in late.session.outbox ensures HasPlace(TextSent(late, at), sys.session.outbox, p) {
      PlaceExactly(TextSent(late, at), sys.session.outbox, p);
      WaitingWasAdmitted(Production(cfg), Next(Production(cfg), AtSnapshot(cfg, before), Snapshot), between, p);
    }
  }

  // ---------- what is lost ----------

  lemma StepKeepsIds(env: Env, sys: System, step: Step)
    requires Enabled(sys, step)
    ensures sys.session.deliveredIds <= Next(env, sys, step).session.deliveredIds
  {
    match step {
      case Apply(i) => OutcomeShape(env.cfg, sys.session, sys.tasks[i].hook, sys.tasks[i].pc.outcome);
      case Attach(wire, body) => AttachKeepsIds(env.injector, sys.session, wire, body);
      case _ =>
    }
  }

  lemma AttachKeepsIds(injector: Injector, s: State, wire: Wire, body: Body)
    ensures s.deliveredIds <= AttachPings(injector, s, wire, body).0.deliveredIds
  {
  }

  lemma {:induction false} RunKeepsIds(env: Env, sys: System, steps: seq<Step>)
    requires Runs(env, sys, steps)
    ensures sys.session.deliveredIds <= After(env, sys, steps).session.deliveredIds
    decreases |steps|
  {
    if steps != [] {
      StepKeepsIds(env, sys, steps[0]);
      RunKeepsIds(env, Next(env, sys, steps[0]), steps[1..]);
    }
  }

  /**
   A failure that a wake commits without having sent it was admitted in between, and it is gone for good: however the session
   goes on, no failure with its id ever waits again.
   */
  lemma UnsentFailureIsLost(cfg: Config, before: seq<Step>, between: seq<Step>, at: nat, rest: seq<Step>, p: Ping)
    requires IsWake(cfg, before, between, at)
    requires var late := AtReturn(cfg, before, between);
      p in late.session.outbox && !HasPlace(TextSent(late, at), AtSnapshot(cfg, before).session.outbox, p)
    requires Enabled(AtReturn(cfg, before, between), WakeReturns(at, true))
    requires Runs(Production(cfg), Next(Production(cfg), AtReturn(cfg, before, between), WakeReturns(at, true)), rest)
    ensures p in Admissions(Production(cfg), Next(Production(cfg), AtSnapshot(cfg, before), Snapshot), between)
    ensures var done := Next(Production(cfg), AtReturn(cfg, before, between), WakeReturns(at, true));
      p in done.past.books.committed
      && forall q :: q in After(Production(cfg), done, rest).session.outbox && !q.transient ==> q.id != p.id
  {
    WakeSendsAndCommits(cfg, before, between, at);
    PlaceExactly(TextSent(AtReturn(cfg, before, between), at), AtSnapshot(cfg, before).session.outbox, p);
    WaitingWasAdmitted(Production(cfg), Next(Production(cfg), AtSnapshot(cfg, before), Snapshot), between, p);
    ReturnIsSound(cfg, before, between, at);
    CommittedNeverWaits(cfg, AtReturn(cfg, before, between), at, rest, p);
  }

  lemma ReturnIsSound(cfg: Config, before: seq<Step>, between: seq<Step>, at: nat)
    requires IsWake(cfg, before, between, at)
    ensures Sound(Production(cfg), AtReturn(cfg, before, between))
  {
    RealInjectorChecksAnchors();
    ReachedIsSound(cfg, before);
    StepIsSound(Production(cfg), AtSnapshot(cfg, before), Snapshot);
    EveryRunIsSound(Production(cfg), Next(Production(cfg), AtSnapshot(cfg, before), Snapshot), between);
  }

  lemma CommittedNeverWaits(cfg: Config, late: System, at: nat, rest: seq<Step>, p: Ping)
    requires Sound(Production(cfg), late) && Enabled(late, WakeReturns(at, true)) && p in late.session.outbox
    requires Runs(Production(cfg), Next(Production(cfg), late, WakeReturns(at, true)), rest)
    ensures var done := Next(Production(cfg), late, WakeReturns(at, true));
      p in done.past.books.committed
      && forall q :: q in After(Production(cfg), done, rest).session.outbox && !q.transient ==> q.id != p.id
  {
    var done := Next(Production(cfg), late, WakeReturns(at, true));
    RealInjectorChecksAnchors();
    StepIsSound(Production(cfg), late, WakeReturns(at, true));
    assert p.id in done.session.deliveredIds;
    DeliveredNeverWaits(cfg, done, rest, p.id);
  }

  /** An id on record as delivered stays there, and no failure waits under it. */
  lemma DeliveredNeverWaits(cfg: Config, sys: System, rest: seq<Step>, id: string)
    requires Sound(Production(cfg), sys) && Runs(Production(cfg), sys, rest) && id in sys.session.deliveredIds
    ensures forall q :: q in After(Production(cfg), sys, rest).session.outbox && !q.transient ==> q.id != id
  {
    RealInjectorChecksAnchors();
    EveryRunIsSound(Production(cfg), sys, rest);
    RunKeepsIds(Production(cfg), sys, rest);
    var end := After(Production(cfg), sys, rest);
    forall q | q in end.session.outbox && !q.transient ensures q.id != id {
      var j: nat :| j < |end.session.outbox| && end.session.outbox[j] == q;
      SessionLaws.WaitingIsUndelivered(cfg, end.session, end.past.books, j);
    }
  }

  /** Such a failure exists in every run in which one is applied, and admitted, while the wake is under way. */
  lemma FailureAppliedDuringAWakeIsUnsent(cfg: Config, before: seq<Step>, i: nat)
    requires Runs(Production(cfg), START, before) && Enabled(After(Production(cfg), START, before), Snapshot)
    requires var sys := After(Production(cfg), START, before);
      && Enabled(sys, Apply(i)) && sys.tasks[i].pc.outcome.Fail?
      && Admits(cfg, sys.session, sys.tasks[i].hook, sys.tasks[i].pc.outcome)
    ensures var sys := AtSnapshot(cfg, before);
      var p := Candidate(cfg, sys.tasks[i].hook, sys.tasks[i].pc.outcome).value;
      && IsWake(cfg, before, [Apply(i)], |sys.wakes|)
      && var late := AtReturn(cfg, before, [Apply(i)]);
         p in late.session.outbox && !HasPlace(TextSent(late, |sys.wakes|), sys.session.outbox, p)
  {
    var sys := AtSnapshot(cfg, before);
    var snapped, task := Next(Production(cfg), sys, Snapshot), sys.tasks[i];
    assert [Apply(i)][1..] == [];
    assert Runs(Production(cfg), snapped, [Apply(i)]);
    assert Standing([Apply(i)], |sys.wakes|) == Some(|sys.wakes|);
    OutcomeShape(cfg, sys.session, task.hook, task.pc.outcome);
    AfterOneStep(Production(cfg), snapped, Apply(i));
    WakeSendsAndCommits(cfg, before, [Apply(i)], |sys.wakes|);
    PlaceExactly(TextSent(AtReturn(cfg, before, [Apply(i)]), |sys.wakes|), sys.session.outbox,
                 Candidate(cfg, task.hook, task.pc.outcome).value);
  }

  lemma AfterOneStep(env: Env, sys: System, step: Step)
    requires Runs(env, sys, [step])
    ensures After(env, sys, [step]) == Next(env, sys, step)
  {
    assert [step][1..] == [];
  }
}
