/**
 What every interleaving of a session guarantees, stated about the reached state alone. The production injector is
 used throughout; `Protocol.EveryRunIsSound` does the work.
 */
module ProtocolLaws {
  import opened Wrappers
  import opened Pings
  import opened Session
  import opened Ledger
  import opened Protocol
  import SessionLaws

  function Production(cfg: Config): Env {
    Env(cfg, RealInjector())
  }

  lemma ReachedIsSound(cfg: Config, steps: seq<Step>)
    requires Runs(Production(cfg), START, steps)
    ensures Sound(Production(cfg), After(Production(cfg), START, steps))
  {
    StartIsSound(Production(cfg));
    RealInjectorChecksAnchors();
    EveryRunIsSound(Production(cfg), START, steps);
  }

  /**
   Delivery, in every reachable state: no durable ping is committed twice; those that wait have ids of their own, none of
   them delivered; every accepted ping is waiting, committed or cleared and exactly one of these; what was delivered and
   what waits stay under the cap; a hook has at most one undelivered signal; the pins on record are anchored in
   non-decreasing order and carry distinct ids.
   */
  lemma DeliveryInEveryRun(cfg: Config, steps: seq<Step>)
    requires Runs(Production(cfg), START, steps)
    ensures var sys := After(Production(cfg), START, steps);
            var s, books := sys.session, sys.past.books;
            && (forall i, j :: 0 <= i < j < |books.committed| && !books.committed[j].transient
                  ==> books.committed[i].id != books.committed[j].id)
            && (forall i :: 0 <= i < |s.outbox| && !s.outbox[i].transient ==> s.outbox[i].id !in s.deliveredIds)
            && (forall i, j :: 0 <= i < j < |s.outbox| && !s.outbox[i].transient && !s.outbox[j].transient
                  ==> s.outbox[i].id != s.outbox[j].id)
            && multiset(books.accepted) == multiset(s.outbox) + multiset(books.committed) + multiset(books.cleared)
            && s.deliveredCount == |books.committed|
            && s.deliveredCount + |s.outbox| <= cfg.maxPerSession as int
            && (forall i, j :: 0 <= i < j < |s.outbox| && s.outbox[i].transient && s.outbox[j].transient
                  ==> s.outbox[i].hook != s.outbox[j].hook)
            && (forall i, j :: 0 <= i < j < |s.delivered|
                  ==> s.delivered[i].anchor <= s.delivered[j].anchor && s.delivered[i].id != s.delivered[j].id)
  {
    ReachedIsSound(cfg, steps);
    var sys := After(Production(cfg), START, steps);
    var s, books := sys.session, sys.past.books;
    forall i, j | 0 <= i < j < |books.committed| && !books.committed[j].transient
      ensures books.committed[i].id != books.committed[j].id
    {
      SessionLaws.AtMostOnce(cfg, s, books, i, j);
    }
    forall j | 0 <= j < |s.outbox| && !s.outbox[j].transient
      ensures s.outbox[j].id !in s.deliveredIds
      ensures forall i :: 0 <= i < j && !s.outbox[i].transient ==> s.outbox[i].id != s.outbox[j].id
    {
      SessionLaws.WaitingIsUndelivered(cfg, s, books, j);
    }
    forall i, j | 0 <= i < j < |s.outbox| && s.outbox[i].transient && s.outbox[j].transient
      ensures s.outbox[i].hook != s.outbox[j].hook
    {
      assert NotSameSignal()(s.outbox[i], s.outbox[j]);
    }
    forall i, j | 0 <= i < j < |s.delivered|
      ensures s.delivered[i].anchor <= s.delivered[j].anchor && s.delivered[i].id != s.delivered[j].id
    {
      SessionLaws.PinsAreDistinct(cfg, s, books, i, j);
    }
  }

  ghost predicate IsNewestArrival(past: Past, a: nat) {
    a < |past.arrivals| && forall b :: a < b < |past.arrivals| ==> past.arrivals[b].hook != past.arrivals[a].hook
  }

  ghost predicate IsLastRun(past: Past, r: nat) {
    r < |past.runs| && forall q :: r < q < |past.runs| ==> past.runs[q].hook != past.runs[r].hook
  }

  ghost predicate ServedLast(past: Past, a: nat) {
    exists r: nat :: IsLastRun(past, r) && past.runs[r].arrival == a
  }

  /**
   The slot protocol, in every reachable state: two owners are never of one hook, a slot is busy exactly when it has an
   owner, a rerun waits only behind one; every run executes the trigger of an arrival of its hook, a hook's runs in the
   order of their arrivals and none twice, and an owner executes that of its run; and the newest arrival of a hook is
   waiting, or is what the hook ran last.
   */
  lemma SlotsInEveryRun(cfg: Config, steps: seq<Step>)
    requires Runs(Production(cfg), START, steps)
    ensures var sys := After(Production(cfg), START, steps);
            && (forall i, j :: 0 <= i < j < |sys.tasks| && Active(sys.tasks[i].pc) && Active(sys.tasks[j].pc)
                  ==> sys.tasks[i].hook != sys.tasks[j].hook)
            && (forall hook :: RunOf(sys.session, hook).running <==> OwnedBySomeTask(sys.tasks, hook))
            && (forall hook :: RunOf(sys.session, hook).rerun.Some? ==> RunOf(sys.session, hook).running)
            && (forall r :: 0 <= r < |sys.past.runs| ==>
                  && sys.past.runs[r].arrival < |sys.past.arrivals|
                  && sys.past.arrivals[sys.past.runs[r].arrival] == Arrival(sys.past.runs[r].hook, sys.past.runs[r].trigger))
            && (forall i :: 0 <= i < |sys.tasks| && Active(sys.tasks[i].pc) ==>
                  && sys.tasks[i].pc.run < |sys.past.runs|
                  && sys.past.runs[sys.tasks[i].pc.run].hook == sys.tasks[i].hook
                  && sys.past.runs[sys.tasks[i].pc.run].trigger == sys.tasks[i].trigger)
            && (forall q, r :: 0 <= q < r < |sys.past.runs| && sys.past.runs[q].hook == sys.past.runs[r].hook
                  ==> sys.past.runs[q].arrival < sys.past.runs[r].arrival)
            && (forall a: nat :: IsNewestArrival(sys.past, a) ==>
                  var hook := sys.past.arrivals[a].hook;
                  if hook in sys.past.waiting
                  then sys.past.waiting[hook] == a && RunOf(sys.session, hook).rerun == Some(sys.past.arrivals[a].trigger)
                  else ServedLast(sys.past, a))
  {
    ReachedIsSound(cfg, steps);
    var sys := After(Production(cfg), START, steps);
    forall hook | OwnedBySomeTask(sys.tasks, hook)
      ensures RunOf(sys.session, hook).running
    {
      var i :| 0 <= i < |sys.tasks| && sys.tasks[i].hook == hook && Active(sys.tasks[i].pc);
    }
    forall i | 0 <= i < |sys.tasks| && Active(sys.tasks[i].pc)
      ensures sys.tasks[i].pc.run < |sys.past.runs|
      ensures sys.past.runs[sys.tasks[i].pc.run].hook == sys.tasks[i].hook
      ensures sys.past.runs[sys.tasks[i].pc.run].trigger == sys.tasks[i].trigger
    {
      assert OwnerOnLatest(sys.past, sys.tasks[i]);
    }
    forall a: nat | IsNewestArrival(sys.past, a)
      ensures var hook := sys.past.arrivals[a].hook;
              if hook in sys.past.waiting
              then sys.past.waiting[hook] == a && RunOf(sys.session, hook).rerun == Some(sys.past.arrivals[a].trigger)
              else ServedLast(sys.past, a)
    {
      NewestIsServed(sys, a);
    }
  }

  lemma NewestIsServed(sys: System, a: nat)
    requires RunsInOrder(sys.past) && NothingForgotten(sys.past) && Reruns(sys.session.hookRuns, sys.past)
    requires IsNewestArrival(sys.past, a)
    ensures var hook := sys.past.arrivals[a].hook;
            if hook in sys.past.waiting
            then sys.past.waiting[hook] == a && RunOf(sys.session, hook).rerun == Some(sys.past.arrivals[a].trigger)
            else ServedLast(sys.past, a)
  {
    var hook := sys.past.arrivals[a].hook;
    assert Remembered(sys.past, a);
    if hook !in sys.past.waiting {
      var r :| 0 <= r < |sys.past.runs| && sys.past.runs[r].hook == hook && sys.past.runs[r].arrival >= a;
      var b := sys.past.runs[r].arrival;
      assert sys.past.arrivals[b].hook == hook;
      assert b == a;
      forall q | r < q < |sys.past.runs|
        ensures sys.past.runs[q].hook != hook
      {
        assert sys.past.arrivals[sys.past.runs[q].arrival].hook == sys.past.runs[q].hook;
      }
      assert IsLastRun(sys.past, r);
    }
  }

  /**
   No stale failure: whatever waits for hook `h` was produced by a run of `h` that started after every run of `h` known
   to have passed, however the runs, their outcomes and the deliveries interleave.
   */
  lemma NoStaleFailureInEveryRun(cfg: Config, steps: seq<Step>, p: Ping, q: nat)
    requires Runs(Production(cfg), START, steps)
    requires var sys := After(Production(cfg), START, steps);
             && p in sys.session.outbox
             && q < |sys.past.runs| && sys.past.runs[q].hook == p.hook && sys.past.runs[q].applied == Some(Pass)
    ensures var past := After(Production(cfg), START, steps).past;
            exists r :: q < r < |past.runs| && past.runs[r].hook == p.hook && past.runs[r].applied.Some?
                        && Candidate(cfg, p.hook, past.runs[r].applied.value) == Some(p)
  {
    ReachedIsSound(cfg, steps);
    var past := After(Production(cfg), START, steps).past;
    var r: nat :| Sourced(cfg, past, p, r);
    assert past.runs[r].applied != Some(Pass);
  }

  // ---------- the runner loop ends ----------

  function Weight(pc: Pc): nat {
    match pc
    case Arriving => 4
    case Running(_) => 3
    case Finishing(_, _) => 2
    case Releasing(_) => 1
    case Gone => 0
  }

  function Load(tasks: seq<Task>): nat {
    if tasks == [] then 0 else Load(tasks[..|tasks| - 1]) + Weight(tasks[|tasks| - 1].pc)
  }

  /** Work still owed: each task's remaining sections, and a run and a half for each waiting rerun. */
  function Measure(sys: System): nat {
    Load(sys.tasks) + 3 * |sys.past.waiting|
  }

  lemma {:induction false} LoadUpdate(tasks: seq<Task>, i: nat, task: Task)
    requires i < |tasks|
    ensures Load(tasks[i := task]) == Load(tasks) - Weight(tasks[i].pc) + Weight(task.pc)
  {
    var shorter := tasks[..|tasks| - 1];
    if i == |tasks| - 1 {
      assert tasks[i := task][..|tasks| - 1] == shorter;
    } else {
      assert tasks[i := task][..|tasks| - 1] == shorter[i := task];
      LoadUpdate(shorter, i, task);
    }
  }

  predicate IsHookStep(step: Step) {
    step.Arrive? || step.Finish? || step.Apply? || step.Release?
  }

  lemma ArriveLightens(sys: System, i: nat)
    requires Enabled(sys, Arrive(i)) && Reruns(sys.session.hookRuns, sys.past)
    ensures Measure(NextArrive(sys, i)) + 1 <= Measure(sys)
  {
    var task := sys.tasks[i];
    LoadUpdate(sys.tasks, i, task.(pc := Gone));
    LoadUpdate(sys.tasks, i, task.(pc := Running(|sys.past.runs|)));
    assert |sys.past.waiting[task.hook := |sys.past.arrivals|]| <= |sys.past.waiting| + 1;
  }

  lemma ReleaseLightens(sys: System, i: nat)
    requires Enabled(sys, Release(i)) && Reruns(sys.session.hookRuns, sys.past)
    ensures Measure(NextRelease(sys, i)) + 1 <= Measure(sys)
  {
    var task := sys.tasks[i];
    LoadUpdate(sys.tasks, i, task.(pc := Gone));
    if RunOf(sys.session, task.hook).rerun.Some? {
      LoadUpdate(sys.tasks, i, Task(task.hook, RunOf(sys.session, task.hook).rerun.value, Running(|sys.past.runs|)));
      OneFewerWaits(sys.past.waiting, task.hook);
    }
  }

  lemma OneFewerWaits(waiting: map<string, nat>, hook: string)
    requires hook in waiting
    ensures |waiting - {hook}| == |waiting| - 1
  {
    assert (waiting - {hook})[hook := waiting[hook]] == waiting;
  }

  lemma HookStepLightens(env: Env, sys: System, step: Step)
    requires Enabled(sys, step) && Reruns(sys.session.hookRuns, sys.past) && !step.Spawn?
    ensures Measure(Next(env, sys, step)) + (if IsHookStep(step) then 1 else 0) <= Measure(sys)
  {
    match step {
      case Arrive(i) => ArriveLightens(sys, i);
      case Finish(i, outcome) =>
        LoadUpdate(sys.tasks, i, sys.tasks[i].(pc := Finishing(sys.tasks[i].pc.run, outcome)));
      case Apply(i) =>
        LoadUpdate(sys.tasks, i, sys.tasks[i].(pc := Releasing(sys.tasks[i].pc.run)));
      case Release(i) => ReleaseLightens(sys, i);
      case _ =>
    }
  }

  function HookSteps(steps: seq<Step>): nat {
    if steps == [] then 0 else (if IsHookStep(steps[0]) then 1 else 0) + HookSteps(steps[1..])
  }

  function Spawns(steps: seq<Step>): nat {
    if steps == [] then 0 else (if steps[0].Spawn? then 1 else 0) + Spawns(steps[1..])
  }

  lemma {:induction false} HookStepsAreBounded(env: Env, sys: System, steps: seq<Step>)
    requires Sound(env, sys) && ChecksAnchors(env.injector) && Runs(env, sys, steps)
    ensures Measure(After(env, sys, steps)) + HookSteps(steps) <= Measure(sys) + 4 * Spawns(steps)
    decreases |steps|
  {
    if steps != [] {
      var next := Next(env, sys, steps[0]);
      StepIsSound(env, sys, steps[0]);
      HookStepsAreBounded(env, next, steps[1..]);
      if steps[0].Spawn? {
        assert next.tasks[..|next.tasks| - 1] == sys.tasks;
      } else {
        HookStepLightens(env, sys, steps[0]);
      }
    }
  }

  /** Every schedule takes at most four hook steps per spawned trigger, so with finitely many triggers the loops end. */
  lemma RunnerLoopsEnd(cfg: Config, steps: seq<Step>)
    requires Runs(Production(cfg), START, steps)
    ensures HookSteps(steps) <= 4 * Spawns(steps)
  {
    StartIsSound(Production(cfg));
    RealInjectorChecksAnchors();
    HookStepsAreBounded(Production(cfg), START, steps);
  }

  /** And they do not get stuck: a task that is not gone always has a step to take. */
  lemma UnfinishedTaskCanStep(cfg: Config, steps: seq<Step>, i: nat)
    requires Runs(Production(cfg), START, steps)
    requires var sys := After(Production(cfg), START, steps); i < |sys.tasks| && !sys.tasks[i].pc.Gone?
    ensures var sys := After(Production(cfg), START, steps);
            exists step :: IsHookStep(step) && Enabled(sys, step)
                           && step.task == i
  {
    ReachedIsSound(cfg, steps);
    var sys := After(Production(cfg), START, steps);
    assert OwnerOnLatest(sys.past, sys.tasks[i]);
    var step := match sys.tasks[i].pc
      case Arriving => Arrive(i)
      case Running(_) => Finish(i, Noop)
      case Finishing(_, _) => Apply(i)
      case _ => Release(i);
    assert IsHookStep(step) && Enabled(sys, step) && step.task == i;
  }

  /** Once every task is gone, no slot is held, nothing waits, and every hook's newest trigger is the one it ran last. */
  lemma QuietMeansServed(cfg: Config, steps: seq<Step>)
    requires Runs(Production(cfg), START, steps)
    requires forall i :: 0 <= i < |After(Production(cfg), START, steps).tasks|
                         ==> After(Production(cfg), START, steps).tasks[i].pc.Gone?
    ensures var sys := After(Production(cfg), START, steps);
            && (forall hook :: RunOf(sys.session, hook) == HookRun(false, None))
            && (forall a: nat :: IsNewestArrival(sys.past, a) ==> ServedLast(sys.past, a))
  {
    SlotsInEveryRun(cfg, steps);
    ReachedIsSound(cfg, steps);
    var sys := After(Production(cfg), START, steps);
    forall hook
      ensures RunOf(sys.session, hook) == HookRun(false, None)
      ensures hook !in sys.past.waiting
    {
      assert !OwnedBySomeTask(sys.tasks, hook);
    }
  }
}
