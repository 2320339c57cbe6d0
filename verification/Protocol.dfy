/**
 Every interleaving of one session: hook tasks contending for their slots (`src/hooks/mod.rs:324-393`), requests,
 responses, attachments, and the idle sweep with its lock released during the wake (`src/hooks/mod.rs:488-595`).
 A step is one locked section; a hook command's own run is the gap between `Running` and `Finishing`.
 */
module Protocol {
  import opened Wrappers
  import opened Pings
  import opened Injection
  import opened Session
  import opened Ledger
  import Extract

  /**
   Where a spawned `trigger_hook` task is: before its check-and-acquire; running its hook; holding the outcome it has
   not applied yet; between applying it and looking for a rerun; gone. `run` indexes `Past.runs`.
   */
  datatype Pc =
    | Arriving
    | Running(run: nat)
    | Finishing(run: nat, outcome: Outcome)
    | Releasing(run: nat)
    | Gone

  datatype Task = Task(hook: string, trigger: Trigger, pc: Pc)

  datatype Arrival = Arrival(hook: string, trigger: Trigger)

  /** One execution of a hook command: whose, on which trigger, for which arrival, and its outcome once that is applied. */
  datatype Run = Run(hook: string, trigger: Trigger, arrival: nat, applied: Option<Outcome>)

  /**
   History: the triggers in the order they reached the slot, the runs in the order they started, and for each hook
   with a waiting rerun the arrival that rerun came from.
   */
  datatype Past = Past(arrivals: seq<Arrival>, runs: seq<Run>, waiting: map<string, nat>, books: Books)

  datatype System = System(session: State, tasks: seq<Task>, wakes: seq<string>, past: Past)

  datatype Env = Env(cfg: Config, injector: Injector)

  datatype Step =
    | Spawn(hook: string, trigger: Trigger)
    | Arrive(task: nat)
    | Finish(task: nat, outcome: Outcome)
    | Apply(task: nat)
    | Release(task: nat)
    | Attach(wire: Wire, body: Body)
    | Request(isNew: bool, len: Option<nat>, extracted: Option<Extract.Extracted>)
    | Snapshot
    | WakeReturns(wake: nat, delivered: bool)

  const START := System(FRESH, [], [], Past([], [], map[], NO_BOOKS))

  predicate Active(pc: Pc) {
    pc.Running? || pc.Finishing? || pc.Releasing?
  }

  predicate Enabled(sys: System, step: Step) {
    match step
    case Arrive(i) => i < |sys.tasks| && sys.tasks[i].pc.Arriving?
    case Finish(i, _) => i < |sys.tasks| && sys.tasks[i].pc.Running?
    case Apply(i) => i < |sys.tasks| && sys.tasks[i].pc.Finishing? && sys.tasks[i].pc.run < |sys.past.runs|
    case Release(i) => i < |sys.tasks| && sys.tasks[i].pc.Releasing?
                       && (RunOf(sys.session, sys.tasks[i].hook).rerun.Some? ==> sys.tasks[i].hook in sys.past.waiting)
    case Snapshot => SweepSnapshot(sys.session).Some?
    case WakeReturns(k, _) => k < |sys.wakes|
    case _ => true
  }

  function NextArrive(sys: System, i: nat): System
    requires Enabled(sys, Arrive(i))
  {
    var task := sys.tasks[i];
    var (session, owner) := TakeSlot(sys.session, task.hook, task.trigger);
    var arrival := |sys.past.arrivals|;
    var past := sys.past.(arrivals := sys.past.arrivals + [Arrival(task.hook, task.trigger)]);
    if owner
    then sys.(session := session, tasks := sys.tasks[i := task.(pc := Running(|sys.past.runs|))],
              past := past.(runs := past.runs + [Run(task.hook, task.trigger, arrival, None)]))
    else sys.(session := session, tasks := sys.tasks[i := task.(pc := Gone)],
              past := past.(waiting := past.waiting[task.hook := arrival]))
  }

  function NextApply(env: Env, sys: System, i: nat): System
    requires Enabled(sys, Apply(i))
  {
    var task := sys.tasks[i];
    var run := sys.past.runs[task.pc.run];
    sys.(session := ApplyOutcome(env.cfg, sys.session, task.hook, task.pc.outcome),
         tasks := sys.tasks[i := task.(pc := Releasing(task.pc.run))],
         past := sys.past.(runs := sys.past.runs[task.pc.run := run.(applied := Some(task.pc.outcome))],
                           books := AfterOutcome(env.cfg, sys.session, sys.past.books, task.hook, task.pc.outcome)))
  }

  function NextRelease(sys: System, i: nat): System
    requires Enabled(sys, Release(i))
  {
    var task := sys.tasks[i];
    var (session, next) := NextTrigger(sys.session, task.hook);
    match next
    case Some(trigger) =>
      sys.(session := session,
           tasks := sys.tasks[i := Task(task.hook, trigger, Running(|sys.past.runs|))],
           past := sys.past.(runs := sys.past.runs + [Run(task.hook, trigger, sys.past.waiting[task.hook], None)],
                             waiting := sys.past.waiting - {task.hook}))
    case None => sys.(session := session, tasks := sys.tasks[i := task.(pc := Gone)])
  }

  function Next(env: Env, sys: System, step: Step): System
    requires Enabled(sys, step)
  {
    match step
    case Spawn(hook, trigger) => sys.(tasks := sys.tasks + [Task(hook, trigger, Arriving)])
    case Arrive(i) => NextArrive(sys, i)
    case Finish(i, outcome) =>
      sys.(tasks := sys.tasks[i := sys.tasks[i].(pc := Finishing(sys.tasks[i].pc.run, outcome))])
    case Apply(i) => NextApply(env, sys, i)
    case Release(i) => NextRelease(sys, i)
    case Attach(wire, body) =>
      sys.(session := AttachPings(env.injector, sys.session, wire, body).0,
           past := sys.past.(books := AfterAttach(env.injector, sys.session, sys.past.books, wire, body)))
    case Request(isNew, len, extracted) =>
      sys.(session := RecordSeen(env.cfg, sys.session, isNew, len, extracted).0,
           past := sys.past.(books := AfterSeen(sys.session, sys.past.books, len)))
    case Snapshot => sys.(wakes := sys.wakes + [SweepSnapshot(sys.session).value])
    case WakeReturns(k, delivered) =>
      var after := sys.(wakes := sys.wakes[..k] + sys.wakes[k + 1..]);
      if delivered
      then after.(session := SweepCommit(sys.session), past := sys.past.(books := AfterWake(sys.session, sys.past.books)))
      else after
  }

  /** Every step of a schedule is enabled when its turn comes. */
  predicate Runs(env: Env, sys: System, steps: seq<Step>)
    decreases |steps|
  {
    steps == [] || (Enabled(sys, steps[0]) && Runs(env, Next(env, sys, steps[0]), steps[1..]))
  }

  function After(env: Env, sys: System, steps: seq<Step>): System
    requires Runs(env, sys, steps)
    decreases |steps|
  {
    if steps == [] then sys else After(env, Next(env, sys, steps[0]), steps[1..])
  }

  // ---------- the slot protocol ----------

  ghost predicate OwnedBySomeTask(tasks: seq<Task>, hook: string) {
    exists i :: 0 <= i < |tasks| && tasks[i].hook == hook && Active(tasks[i].pc)
  }

  ghost predicate OneOwnerEach(tasks: seq<Task>) {
    forall i, j :: 0 <= i < j < |tasks| && Active(tasks[i].pc) && Active(tasks[j].pc) ==> tasks[i].hook != tasks[j].hook
  }

  /** One owner per busy slot, none for an idle one, and a rerun only behind an owner. */
  ghost predicate Slots(hookRuns: map<string, HookRun>, tasks: seq<Task>) {
    && OneOwnerEach(tasks)
    && (forall i :: 0 <= i < |tasks| && Active(tasks[i].pc) ==> RunIn(hookRuns, tasks[i].hook).running)
    && (forall hook :: RunIn(hookRuns, hook).running ==> OwnedBySomeTask(tasks, hook))
    && (forall hook :: RunIn(hookRuns, hook).rerun.Some? ==> RunIn(hookRuns, hook).running)
  }

  /** The waiting reruns, and the arrivals they came from. */
  ghost predicate Reruns(hookRuns: map<string, HookRun>, past: Past) {
    && (forall hook :: hook in past.waiting <==> RunIn(hookRuns, hook).rerun.Some?)
    && (forall hook :: hook in past.waiting ==>
          && past.waiting[hook] < |past.arrivals|
          && past.arrivals[past.waiting[hook]] == Arrival(hook, RunIn(hookRuns, hook).rerun.value))
  }

  /** The runs of one hook serve ever later arrivals of that hook, and a waiting rerun a later one still. */
  ghost predicate RunsInOrder(past: Past) {
    && (forall r :: 0 <= r < |past.runs| ==>
          && past.runs[r].arrival < |past.arrivals|
          && past.arrivals[past.runs[r].arrival] == Arrival(past.runs[r].hook, past.runs[r].trigger))
    && (forall q, r :: 0 <= q < r < |past.runs| && past.runs[q].hook == past.runs[r].hook
          ==> past.runs[q].arrival < past.runs[r].arrival)
    && (forall r :: 0 <= r < |past.runs| && past.runs[r].hook in past.waiting
          ==> past.runs[r].arrival < past.waiting[past.runs[r].hook])
  }

  ghost predicate RunReaches(past: Past, hook: string, a: nat) {
    exists r :: 0 <= r < |past.runs| && past.runs[r].hook == hook && past.runs[r].arrival >= a
  }

  ghost predicate Remembered(past: Past, a: nat)
    requires a < |past.arrivals|
  {
    var hook := past.arrivals[a].hook;
    if hook in past.waiting then a <= past.waiting[hook] else RunReaches(past, hook, a)
  }

  /** No arrival is newer than what its hook has waiting or, with nothing waiting, than what it ran last. */
  ghost predicate NothingForgotten(past: Past) {
    forall a :: 0 <= a < |past.arrivals| ==> Remembered(past, a)
  }

  /** An owner works on its hook's latest run, with that run's trigger; the outcome is applied before the release. */
  ghost predicate OwnerOnLatest(past: Past, task: Task) {
    Active(task.pc) ==>
      && task.pc.run < |past.runs|
      && past.runs[task.pc.run].hook == task.hook
      && (forall r :: task.pc.run < r < |past.runs| ==> past.runs[r].hook != task.hook)
      && (past.runs[task.pc.run].applied.Some? <==> task.pc.Releasing?)
      && past.runs[task.pc.run].arrival < |past.arrivals|
      && past.arrivals[past.runs[task.pc.run].arrival] == Arrival(task.hook, task.trigger)
  }

  ghost predicate Owners(past: Past, tasks: seq<Task>) {
    forall i :: 0 <= i < |tasks| ==> OwnerOnLatest(past, tasks[i])
  }

  // ---------- no stale failure ----------

  /** Whether run `r` put `p` in the outbox and no later run of that hook has passed since. */
  ghost predicate Sourced(cfg: Config, past: Past, p: Ping, r: nat) {
    && r < |past.runs|
    && past.runs[r].hook == p.hook
    && past.runs[r].applied.Some?
    && Candidate(cfg, p.hook, past.runs[r].applied.value) == Some(p)
    && forall q :: r < q < |past.runs| && past.runs[q].hook == p.hook ==> past.runs[q].applied != Some(Pass)
  }

  ghost predicate NoneStale(cfg: Config, outbox: seq<Ping>, past: Past) {
    forall p :: p in outbox ==> exists r :: Sourced(cfg, past, p, r)
  }

  ghost predicate Sound(env: Env, sys: System) {
    && Balanced(env.cfg, sys.session, sys.past.books)
    && Slots(sys.session.hookRuns, sys.tasks)
    && Reruns(sys.session.hookRuns, sys.past)
    && RunsInOrder(sys.past)
    && NothingForgotten(sys.past)
    && Owners(sys.past, sys.tasks)
    && NoneStale(env.cfg, sys.session.outbox, sys.past)
  }

  lemma StartIsSound(env: Env)
    ensures Sound(env, START)
  {
  }

  // ---------- what a step does to the slots ----------

  lemma RunInUpdate(hookRuns: map<string, HookRun>, hook: string, run: HookRun)
    ensures forall h :: RunIn(hookRuns[hook := run], h) == if h == hook then run else RunIn(hookRuns, h)
  {
    forall h
      ensures RunIn(hookRuns[hook := run], h) == if h == hook then run else RunIn(hookRuns, h)
    {
      assert h in hookRuns[hook := run] <==> h == hook || h in hookRuns;
    }
  }

  lemma SlotTaken(hookRuns: map<string, HookRun>, tasks: seq<Task>, i: nat, pc: Pc)
    requires Slots(hookRuns, tasks)
    requires i < |tasks| && !Active(tasks[i].pc) && Active(pc) && !RunIn(hookRuns, tasks[i].hook).running
    ensures Slots(hookRuns[tasks[i].hook := RunIn(hookRuns, tasks[i].hook).(running := true)], tasks[i := tasks[i].(pc := pc)])
  {
    var hook := tasks[i].hook;
    var after, runs := tasks[i := tasks[i].(pc := pc)], hookRuns[hook := RunIn(hookRuns, hook).(running := true)];
    RunInUpdate(hookRuns, hook, RunIn(hookRuns, hook).(running := true));
    forall h | RunIn(runs, h).rerun.Some?
      ensures RunIn(runs, h).running
    {
      assert RunIn(hookRuns, h).running;
    }
    forall h | RunIn(runs, h).running
      ensures OwnedBySomeTask(after, h)
    {
      if h == hook {
        assert after[i].hook == h && Active(after[i].pc);
      } else {
        StillOwned(hookRuns, tasks, i, after[i], h);
      }
    }
  }

  lemma StillOwned(hookRuns: map<string, HookRun>, tasks: seq<Task>, i: nat, task: Task, hook: string)
    requires i < |tasks| && OwnedBySomeTask(tasks, hook)
    requires tasks[i].hook == hook && Active(tasks[i].pc) ==> task.hook == hook && Active(task.pc)
    ensures OwnedBySomeTask(tasks[i := task], hook)
  {
    var j :| 0 <= j < |tasks| && tasks[j].hook == hook && Active(tasks[j].pc);
    assert tasks[i := task][j].hook == hook && Active(tasks[i := task][j].pc);
  }

  /** A trigger queued behind the owner; also an owner that takes the queued trigger over. */
  lemma SlotKept(hookRuns: map<string, HookRun>, tasks: seq<Task>, i: nat, task: Task, rerun: Option<Trigger>)
    requires Slots(hookRuns, tasks)
    requires i < |tasks| && task.hook == tasks[i].hook && (Active(task.pc) <==> Active(tasks[i].pc))
    requires RunIn(hookRuns, task.hook).running
    ensures Slots(hookRuns[task.hook := RunIn(hookRuns, task.hook).(rerun := rerun)], tasks[i := task])
  {
    var after, runs := tasks[i := task], hookRuns[task.hook := RunIn(hookRuns, task.hook).(rerun := rerun)];
    RunInUpdate(hookRuns, task.hook, RunIn(hookRuns, task.hook).(rerun := rerun));
    forall h | RunIn(runs, h).rerun.Some?
      ensures RunIn(runs, h).running
    {
      assert RunIn(hookRuns, h).running;
    }
    forall h | RunIn(runs, h).running
      ensures OwnedBySomeTask(after, h)
    {
      StillOwned(hookRuns, tasks, i, task, h);
    }
  }

  lemma SlotUnmoved(hookRuns: map<string, HookRun>, tasks: seq<Task>, i: nat, task: Task)
    requires Slots(hookRuns, tasks)
    requires i < |tasks| && task.hook == tasks[i].hook && Active(task.pc) && Active(tasks[i].pc)
    ensures Slots(hookRuns, tasks[i := task])
  {
    forall h | RunIn(hookRuns, h).running
      ensures OwnedBySomeTask(tasks[i := task], h)
    {
      StillOwned(hookRuns, tasks, i, task, h);
    }
  }

  lemma SlotFreed(hookRuns: map<string, HookRun>, tasks: seq<Task>, i: nat)
    requires Slots(hookRuns, tasks)
    requires i < |tasks| && Active(tasks[i].pc) && RunIn(hookRuns, tasks[i].hook).rerun.None?
    ensures Slots(hookRuns[tasks[i].hook := RunIn(hookRuns, tasks[i].hook).(running := false)], tasks[i := tasks[i].(pc := Gone)])
  {
    var hook := tasks[i].hook;
    var after, runs := tasks[i := tasks[i].(pc := Gone)], hookRuns[hook := RunIn(hookRuns, hook).(running := false)];
    RunInUpdate(hookRuns, hook, RunIn(hookRuns, hook).(running := false));
    forall h | RunIn(runs, h).rerun.Some?
      ensures RunIn(runs, h).running
    {
      assert RunIn(hookRuns, h).running;
    }
    forall h | RunIn(runs, h).running
      ensures OwnedBySomeTask(after, h)
    {
      StillOwned(hookRuns, tasks, i, after[i], h);
    }
    forall j | 0 <= j < |after| && Active(after[j].pc)
      ensures RunIn(runs, after[j].hook).running
    {
      assert after[j] == tasks[j] && tasks[j].hook != hook;
    }
  }

  lemma TaskSpawned(hookRuns: map<string, HookRun>, tasks: seq<Task>, task: Task)
    requires Slots(hookRuns, tasks) && !Active(task.pc)
    ensures Slots(hookRuns, tasks + [task])
  {
    forall h | RunIn(hookRuns, h).running
      ensures OwnedBySomeTask(tasks + [task], h)
    {
      var j :| 0 <= j < |tasks| && tasks[j].hook == h && Active(tasks[j].pc);
      assert (tasks + [task])[j] == tasks[j];
    }
  }

  // ---------- what a step does to the history ----------

  function Started(past: Past, run: Run): Past {
    past.(runs := past.runs + [run])
  }

  /** A run started for the newest arrival of its hook, with nothing waiting behind it. */
  lemma RunStarts(past: Past, hook: string, trigger: Trigger, arrival: nat)
    requires RunsInOrder(past) && NothingForgotten(past.(waiting := past.waiting[hook := arrival]))
    requires arrival < |past.arrivals| && past.arrivals[arrival] == Arrival(hook, trigger) && hook !in past.waiting
    requires forall r :: 0 <= r < |past.runs| && past.runs[r].hook == hook ==> past.runs[r].arrival < arrival
    ensures RunsInOrder(Started(past, Run(hook, trigger, arrival, None)))
    ensures NothingForgotten(Started(past, Run(hook, trigger, arrival, None)))
  {
    var after, counted := Started(past, Run(hook, trigger, arrival, None)), past.(waiting := past.waiting[hook := arrival]);
    assert after.runs[|past.runs|] == Run(hook, trigger, arrival, None);
    forall a | 0 <= a < |after.arrivals|
      ensures Remembered(after, a)
    {
      assert Remembered(counted, a);
      var h := past.arrivals[a].hook;
      if h !in counted.waiting {
        var r :| 0 <= r < |past.runs| && past.runs[r].hook == h && past.runs[r].arrival >= a;
        assert after.runs[r] == past.runs[r];
      } else if h == hook {
        assert after.runs[|past.runs|].arrival >= a;
      }
    }
  }

  lemma OwnersAfterStart(past: Past, tasks: seq<Task>, i: nat, hook: string, trigger: Trigger, arrival: nat)
    requires Owners(past, tasks) && i < |tasks|
    requires arrival < |past.arrivals| && past.arrivals[arrival] == Arrival(hook, trigger)
    requires forall j :: 0 <= j < |tasks| && j != i && Active(tasks[j].pc) ==> tasks[j].hook != hook
    ensures Owners(Started(past, Run(hook, trigger, arrival, None)), tasks[i := Task(hook, trigger, Running(|past.runs|))])
  {
    var after, moved := Started(past, Run(hook, trigger, arrival, None)), tasks[i := Task(hook, trigger, Running(|past.runs|))];
    assert after.runs[|past.runs|] == Run(hook, trigger, arrival, None);
    forall j | 0 <= j < |moved|
      ensures OwnerOnLatest(after, moved[j])
    {
      if j != i {
        assert OwnerOnLatest(past, tasks[j]);
      }
    }
  }

  lemma StaleFreeAfterStart(cfg: Config, outbox: seq<Ping>, past: Past, hook: string, trigger: Trigger, arrival: nat)
    requires NoneStale(cfg, outbox, past)
    ensures NoneStale(cfg, outbox, Started(past, Run(hook, trigger, arrival, None)))
  {
    forall p | p in outbox
      ensures exists r :: Sourced(cfg, Started(past, Run(hook, trigger, arrival, None)), p, r)
    {
      var r :| Sourced(cfg, past, p, r);
      assert Sourced(cfg, Started(past, Run(hook, trigger, arrival, None)), p, r);
    }
  }

  function Arrived(past: Past, hook: string, trigger: Trigger): Past {
    past.(arrivals := past.arrivals + [Arrival(hook, trigger)])
  }

  lemma ArrivalKeeps(cfg: Config, sys: System, hook: string, trigger: Trigger)
    requires RunsInOrder(sys.past) && Owners(sys.past, sys.tasks) && Reruns(sys.session.hookRuns, sys.past)
    requires NoneStale(cfg, sys.session.outbox, sys.past)
    ensures RunsInOrder(Arrived(sys.past, hook, trigger)) && Owners(Arrived(sys.past, hook, trigger), sys.tasks)
    ensures Reruns(sys.session.hookRuns, Arrived(sys.past, hook, trigger))
    ensures NoneStale(cfg, sys.session.outbox, Arrived(sys.past, hook, trigger))
  {
    var after := Arrived(sys.past, hook, trigger);
    forall j | 0 <= j < |sys.tasks|
      ensures OwnerOnLatest(after, sys.tasks[j])
    {
      assert OwnerOnLatest(sys.past, sys.tasks[j]);
    }
    SameRunsSameSources(cfg, sys.session.outbox, sys.past, after);
  }

  lemma SameRunsSameSources(cfg: Config, outbox: seq<Ping>, past: Past, after: Past)
    requires NoneStale(cfg, outbox, past) && after.runs == past.runs
    ensures NoneStale(cfg, outbox, after)
  {
    forall p | p in outbox
      ensures exists r :: Sourced(cfg, after, p, r)
    {
      var r :| Sourced(cfg, past, p, r);
      assert Sourced(cfg, after, p, r);
    }
  }

  /** With the newest arrival counted as waiting, nothing is forgotten. */
  lemma ArrivalRemembered(past: Past, hook: string, trigger: Trigger)
    requires NothingForgotten(past)
    ensures var after := Arrived(past, hook, trigger);
            NothingForgotten(after.(waiting := after.waiting[hook := |past.arrivals|]))
  {
    var arrived := Arrived(past, hook, trigger);
    var after := arrived.(waiting := arrived.waiting[hook := |past.arrivals|]);
    forall a | 0 <= a < |after.arrivals|
      ensures Remembered(after, a)
    {
      var h := after.arrivals[a].hook;
      if h != hook {
        assert after.arrivals[a] == past.arrivals[a] && Remembered(past, a);
        if h !in past.waiting {
          var r :| 0 <= r < |past.runs| && past.runs[r].hook == h && past.runs[r].arrival >= a;
          assert after.runs[r].hook == h;
        }
      }
    }
  }

  lemma ArriveIsSound(env: Env, sys: System, i: nat)
    requires Sound(env, sys) && Enabled(sys, Arrive(i))
    ensures Sound(env, NextArrive(sys, i))
  {
    var task, hookRuns := sys.tasks[i], sys.session.hookRuns;
    var arrival, arrived := |sys.past.arrivals|, Arrived(sys.past, task.hook, task.trigger);
    ArrivalKeeps(env.cfg, sys, task.hook, task.trigger);
    ArrivalRemembered(sys.past, task.hook, task.trigger);
    if RunIn(hookRuns, task.hook).running {
      QueuedIsSound(env, sys, i);
    } else {
      assert task.hook !in sys.past.waiting;
      SlotTaken(hookRuns, sys.tasks, i, Running(|sys.past.runs|));
      RunStarts(arrived, task.hook, task.trigger, arrival);
      OwnersAfterStart(arrived, sys.tasks, i, task.hook, task.trigger, arrival);
      StaleFreeAfterStart(env.cfg, sys.session.outbox, arrived, task.hook, task.trigger, arrival);
      RunInUpdate(hookRuns, task.hook, RunIn(hookRuns, task.hook).(running := true));
    }
  }

  lemma QueuedIsSound(env: Env, sys: System, i: nat)
    requires Sound(env, sys) && Enabled(sys, Arrive(i))
    requires RunIn(sys.session.hookRuns, sys.tasks[i].hook).running
    ensures Sound(env, NextArrive(sys, i))
  {
    var task, hookRuns := sys.tasks[i], sys.session.hookRuns;
    var arrived, next := Arrived(sys.past, task.hook, task.trigger), NextArrive(sys, i);
    ArrivalKeeps(env.cfg, sys, task.hook, task.trigger);
    ArrivalRemembered(sys.past, task.hook, task.trigger);
    SlotKept(hookRuns, sys.tasks, i, task.(pc := Gone), Some(task.trigger));
    QueuedReruns(hookRuns, arrived, task.hook, task.trigger);
    SameRunsSameSources(env.cfg, sys.session.outbox, arrived, next.past);
    SameOwners(arrived, next.past, sys.tasks);
    OwnerMoves(next.past, sys.tasks, i, task.(pc := Gone));
  }

  /** The newest arrival, queued, is the one its hook has waiting. */
  lemma QueuedReruns(hookRuns: map<string, HookRun>, arrived: Past, hook: string, trigger: Trigger)
    requires Reruns(hookRuns, arrived) && RunsInOrder(arrived)
    requires arrived.arrivals != [] && arrived.arrivals[|arrived.arrivals| - 1] == Arrival(hook, trigger)
    requires forall r :: 0 <= r < |arrived.runs| ==> arrived.runs[r].arrival < |arrived.arrivals| - 1
    ensures var past := arrived.(waiting := arrived.waiting[hook := |arrived.arrivals| - 1]);
            && Reruns(hookRuns[hook := RunIn(hookRuns, hook).(rerun := Some(trigger))], past)
            && RunsInOrder(past)
  {
    RunInUpdate(hookRuns, hook, RunIn(hookRuns, hook).(rerun := Some(trigger)));
  }

  lemma SameOwners(past: Past, after: Past, tasks: seq<Task>)
    requires Owners(past, tasks) && after.runs == past.runs && after.arrivals == past.arrivals
    ensures Owners(after, tasks)
  {
    forall j | 0 <= j < |tasks|
      ensures OwnerOnLatest(after, tasks[j])
    {
      assert OwnerOnLatest(past, tasks[j]);
    }
  }

  lemma FinishIsSound(env: Env, sys: System, i: nat, outcome: Outcome)
    requires Sound(env, sys) && Enabled(sys, Finish(i, outcome))
    ensures Sound(env, Next(env, sys, Finish(i, outcome)))
  {
    var moved := sys.tasks[i].(pc := Finishing(sys.tasks[i].pc.run, outcome));
    SlotUnmoved(sys.session.hookRuns, sys.tasks, i, moved);
    OwnerMoves(sys.past, sys.tasks, i, moved);
  }

  lemma OwnerMoves(past: Past, tasks: seq<Task>, i: nat, task: Task)
    requires Owners(past, tasks) && i < |tasks| && OwnerOnLatest(past, task)
    ensures Owners(past, tasks[i := task])
  {
  }

  // ---------- applying an outcome ----------

  function Applied(past: Past, r: nat, outcome: Outcome): Past
    requires r < |past.runs|
  {
    past.(runs := past.runs[r := past.runs[r].(applied := Some(outcome))])
  }

  /** The order of the runs and what they reach depend on their hooks and arrivals alone. */
  lemma SameKeysSameOrder(past: Past, after: Past)
    requires RunsInOrder(past) && NothingForgotten(past)
    requires after.arrivals == past.arrivals && after.waiting == past.waiting && |after.runs| == |past.runs|
    requires forall r :: 0 <= r < |past.runs| ==>
               && after.runs[r].hook == past.runs[r].hook && after.runs[r].trigger == past.runs[r].trigger
               && after.runs[r].arrival == past.runs[r].arrival
    ensures RunsInOrder(after) && NothingForgotten(after)
  {
    forall a | 0 <= a < |after.arrivals|
      ensures Remembered(after, a)
    {
      assert Remembered(past, a);
      var h := past.arrivals[a].hook;
      if h !in past.waiting {
        var q :| 0 <= q < |past.runs| && past.runs[q].hook == h && past.runs[q].arrival >= a;
        assert after.runs[q].hook == h && after.runs[q].arrival >= a;
      }
    }
  }

  lemma AppliedKeepsOrder(past: Past, r: nat, outcome: Outcome)
    requires RunsInOrder(past) && NothingForgotten(past) && r < |past.runs|
    ensures RunsInOrder(Applied(past, r, outcome)) && NothingForgotten(Applied(past, r, outcome))
  {
    SameKeysSameOrder(past, Applied(past, r, outcome));
  }

  lemma AppliedKeepsOwners(past: Past, hookRuns: map<string, HookRun>, tasks: seq<Task>, i: nat)
    requires Owners(past, tasks) && Slots(hookRuns, tasks)
    requires i < |tasks| && tasks[i].pc.Finishing?
    ensures tasks[i].pc.run < |past.runs|
    ensures Owners(Applied(past, tasks[i].pc.run, tasks[i].pc.outcome), tasks[i := tasks[i].(pc := Releasing(tasks[i].pc.run))])
  {
    var task := tasks[i];
    assert OwnerOnLatest(past, task);
    var after, moved := Applied(past, task.pc.run, task.pc.outcome), tasks[i := task.(pc := Releasing(task.pc.run))];
    forall j | 0 <= j < |moved|
      ensures OwnerOnLatest(after, moved[j])
    {
      assert OwnerOnLatest(past, tasks[j]);
      if j != i && Active(tasks[j].pc) {
        assert tasks[j].hook != task.hook;
        assert tasks[j].pc.run != task.pc.run;
      }
    }
  }

  /**
   The run whose outcome is applied is its hook's latest, so its pass can only be clearing earlier failures and its
   failure cannot be overtaken by an earlier pass.
   */
  lemma AppliedIsNotStale(cfg: Config, s: State, past: Past, r: nat, hook: string, outcome: Outcome)
    requires NoneStale(cfg, s.outbox, past)
    requires r < |past.runs| && past.runs[r].hook == hook && past.runs[r].applied.None?
    requires forall q :: r < q < |past.runs| ==> past.runs[q].hook != hook
    ensures NoneStale(cfg, ApplyOutcome(cfg, s, hook, outcome).outbox, Applied(past, r, outcome))
  {
    OutcomeShape(cfg, s, hook, outcome);
    RetainHolds(s.outbox, Kept(hook, outcome));
    CandidateHook(cfg, hook, outcome);
    forall p | p in ApplyOutcome(cfg, s, hook, outcome).outbox
      ensures exists q :: Sourced(cfg, Applied(past, r, outcome), p, q)
    {
      if p in Retain(s.outbox, Kept(hook, outcome)) {
        var q :| Sourced(cfg, past, p, q);
        KeptStaysSourced(cfg, past, r, hook, outcome, p, q);
      } else {
        NewIsSourced(cfg, past, r, hook, outcome, p);
      }
    }
  }

  lemma KeptStaysSourced(cfg: Config, past: Past, r: nat, hook: string, outcome: Outcome, p: Ping, q: nat)
    requires r < |past.runs| && past.runs[r].hook == hook && past.runs[r].applied.None?
    requires Sourced(cfg, past, p, q) && !Drops(hook, outcome, p)
    ensures Sourced(cfg, Applied(past, r, outcome), p, q)
  {
    assert q != r;
  }

  lemma NewIsSourced(cfg: Config, past: Past, r: nat, hook: string, outcome: Outcome, p: Ping)
    requires r < |past.runs| && past.runs[r].hook == hook && p.hook == hook
    requires Candidate(cfg, hook, outcome) == Some(p)
    requires forall q :: r < q < |past.runs| ==> past.runs[q].hook != hook
    ensures Sourced(cfg, Applied(past, r, outcome), p, r)
  {
  }

  lemma CandidateHook(cfg: Config, hook: string, outcome: Outcome)
    ensures Candidate(cfg, hook, outcome).Some? ==> Candidate(cfg, hook, outcome).value.hook == hook
  {
  }

  lemma ApplyIsSound(env: Env, sys: System, i: nat)
    requires Sound(env, sys) && Enabled(sys, Apply(i))
    ensures Sound(env, NextApply(env, sys, i))
  {
    var task := sys.tasks[i];
    assert OwnerOnLatest(sys.past, task);
    var next, after := NextApply(env, sys, i), Applied(sys.past, task.pc.run, task.pc.outcome);
    OutcomeBalances(env.cfg, sys.session, sys.past.books, task.hook, task.pc.outcome);
    OutcomeShape(env.cfg, sys.session, task.hook, task.pc.outcome);
    SlotUnmoved(sys.session.hookRuns, sys.tasks, i, task.(pc := Releasing(task.pc.run)));
    AppliedKeepsOrder(sys.past, task.pc.run, task.pc.outcome);
    AppliedKeepsOwners(sys.past, sys.session.hookRuns, sys.tasks, i);
    AppliedIsNotStale(env.cfg, sys.session, sys.past, task.pc.run, task.hook, task.pc.outcome);
    BooksDoNotMatter(env.cfg, next.session.outbox, after, next.past, next.tasks);
  }

  /** The run history is read without the books. */
  lemma BooksDoNotMatter(cfg: Config, outbox: seq<Ping>, past: Past, after: Past, tasks: seq<Task>)
    requires after == past.(books := after.books)
    requires RunsInOrder(past) && NothingForgotten(past) && Owners(past, tasks) && NoneStale(cfg, outbox, past)
    ensures RunsInOrder(after) && NothingForgotten(after) && Owners(after, tasks) && NoneStale(cfg, outbox, after)
  {
    SameKeysSameOrder(past, after);
    SameOwners(past, after, tasks);
    SameRunsSameSources(cfg, outbox, past, after);
  }

  // ---------- releasing the slot ----------

  lemma ReleaseIsSound(env: Env, sys: System, i: nat)
    requires Sound(env, sys) && Enabled(sys, Release(i))
    ensures Sound(env, NextRelease(sys, i))
  {
    var task, hookRuns := sys.tasks[i], sys.session.hookRuns;
    if RunIn(hookRuns, task.hook).rerun.Some? {
      RerunIsSound(env, sys, i);
    } else {
      SlotFreed(hookRuns, sys.tasks, i);
      OwnerMoves(sys.past, sys.tasks, i, task.(pc := Gone));
      RunInUpdate(hookRuns, task.hook, RunIn(hookRuns, task.hook).(running := false));
    }
  }

  lemma RerunIsSound(env: Env, sys: System, i: nat)
    requires Sound(env, sys) && Enabled(sys, Release(i))
    requires RunIn(sys.session.hookRuns, sys.tasks[i].hook).rerun.Some?
    ensures Sound(env, NextRelease(sys, i))
  {
    var task, hookRuns := sys.tasks[i], sys.session.hookRuns;
    var hook, trigger := task.hook, RunIn(hookRuns, task.hook).rerun.value;
    var arrival := sys.past.waiting[hook];
    var cleared := sys.past.(waiting := sys.past.waiting - {hook});
    var next := NextRelease(sys, i);
    assert next.past == Started(cleared, Run(hook, trigger, arrival, None));
    assert cleared.waiting[hook := arrival] == sys.past.waiting;
    assert cleared.(waiting := cleared.waiting[hook := arrival]) == sys.past;
    SlotKept(hookRuns, sys.tasks, i, Task(hook, trigger, Running(|sys.past.runs|)), None);
    RunStarts(cleared, hook, trigger, arrival);
    SameOwners(sys.past, cleared, sys.tasks);
    OwnersAfterStart(cleared, sys.tasks, i, hook, trigger, arrival);
    SameRunsSameSources(env.cfg, sys.session.outbox, sys.past, cleared);
    StaleFreeAfterStart(env.cfg, sys.session.outbox, cleared, hook, trigger, arrival);
    TakenReruns(hookRuns, sys.past, hook);
  }

  lemma TakenReruns(hookRuns: map<string, HookRun>, past: Past, hook: string)
    requires Reruns(hookRuns, past)
    ensures Reruns(hookRuns[hook := RunIn(hookRuns, hook).(rerun := None)], past.(waiting := past.waiting - {hook}))
  {
    RunInUpdate(hookRuns, hook, RunIn(hookRuns, hook).(rerun := None));
  }

  // ---------- requests, attachments, wakes ----------

  /** A step that leaves the slots alone and puts nothing new in the outbox. */
  lemma SessionStepIsSound(env: Env, sys: System, session: State, books: Books, wakes: seq<string>)
    requires Sound(env, sys)
    requires Balanced(env.cfg, session, books)
    requires session.hookRuns == sys.session.hookRuns && forall p :: p in session.outbox ==> p in sys.session.outbox
    ensures Sound(env, System(session, sys.tasks, wakes, sys.past.(books := books)))
  {
    BooksDoNotMatter(env.cfg, sys.session.outbox, sys.past, sys.past.(books := books), sys.tasks);
  }

  lemma AttachIsSound(env: Env, sys: System, wire: Wire, body: Body)
    requires Sound(env, sys) && ChecksAnchors(env.injector)
    ensures Sound(env, Next(env, sys, Attach(wire, body)))
  {
    AttachBalances(env.injector, env.cfg, sys.session, sys.past.books, wire, body);
    AttachCases(env.injector, sys.session, sys.past.books, wire, body);
    SessionStepIsSound(env, sys, AttachPings(env.injector, sys.session, wire, body).0,
                       AfterAttach(env.injector, sys.session, sys.past.books, wire, body), sys.wakes);
  }

  lemma RequestIsSound(env: Env, sys: System, isNew: bool, len: Option<nat>, extracted: Option<Extract.Extracted>)
    requires Sound(env, sys)
    ensures Sound(env, Next(env, sys, Request(isNew, len, extracted)))
  {
    SeenBalances(env.cfg, sys.session, sys.past.books, isNew, len, extracted);
    SessionStepIsSound(env, sys, RecordSeen(env.cfg, sys.session, isNew, len, extracted).0,
                       AfterSeen(sys.session, sys.past.books, len), sys.wakes);
  }

  lemma WakeIsSound(env: Env, sys: System, k: nat, delivered: bool)
    requires Sound(env, sys) && Enabled(sys, WakeReturns(k, delivered))
    ensures Sound(env, Next(env, sys, WakeReturns(k, delivered)))
  {
    var wakes := sys.wakes[..k] + sys.wakes[k + 1..];
    WakeBalances(env.cfg, sys.session, sys.past.books);
    if delivered {
      SessionStepIsSound(env, sys, SweepCommit(sys.session), AfterWake(sys.session, sys.past.books), wakes);
    }
  }

  // ---------- every run ----------

  lemma StepIsSound(env: Env, sys: System, step: Step)
    requires Sound(env, sys) && ChecksAnchors(env.injector) && Enabled(sys, step)
    ensures Sound(env, Next(env, sys, step))
  {
    match step {
      case Spawn(hook, trigger) =>
        TaskSpawned(sys.session.hookRuns, sys.tasks, Task(hook, trigger, Arriving));
      case Arrive(i) => ArriveIsSound(env, sys, i);
      case Finish(i, outcome) => FinishIsSound(env, sys, i, outcome);
      case Apply(i) => ApplyIsSound(env, sys, i);
      case Release(i) => ReleaseIsSound(env, sys, i);
      case Attach(wire, body) => AttachIsSound(env, sys, wire, body);
      case Request(isNew, len, extracted) => RequestIsSound(env, sys, isNew, len, extracted);
      case Snapshot =>
      case WakeReturns(k, delivered) => WakeIsSound(env, sys, k, delivered);
    }
  }

  /** Every state of every schedule keeps the books, the slots, the run order and the freshness of failures. */
  lemma {:induction false} EveryRunIsSound(env: Env, sys: System, steps: seq<Step>)
    requires Sound(env, sys) && ChecksAnchors(env.injector) && Runs(env, sys, steps)
    ensures Sound(env, After(env, sys, steps))
    decreases |steps|
  {
    if steps != [] {
      StepIsSound(env, sys, steps[0]);
      EveryRunIsSound(env, Next(env, sys, steps[0]), steps[1..]);
    }
  }
}
