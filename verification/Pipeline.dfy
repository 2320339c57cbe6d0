/**
 A request on its way through the relay (`src/relay/pipeline.rs:140-206`): the client's body is rewritten first and pings are
 attached to what comes out. Rewriting that keeps prefixes and pinning that keeps prefixes together keep them.
 */
module Pipeline {
  import opened Wrappers
  import opened Json
  import opened Pings
  import opened Injection
  import opened Session
  import opened Protocol
  import opened ProtocolLaws
  import opened PrefixChain
  import Rewrite
  import RewriteLaws
  import SessionLaws

  // ---------- one rewritten conversation ----------

  /** The conversation that is sent on for one a client brings. */
  function Prepared(wire: Wire, rules: Rewrite.Config, items: seq<Value>): seq<Value> {
    if Rewrite.Changed(Rewrite.Passes(wire, rules), items) == [] then items
    else Rewrite.PassItems(Rewrite.Passes(wire, rules), items)
  }

  lemma PreparedIsAsLong(wire: Wire, rules: Rewrite.Config, items: seq<Value>)
    ensures |Prepared(wire, rules, items)| == |items|
  {
  }

  /** Rewriting a body gives a body with the prepared conversation. */
  lemma PreparedBody(wire: Wire, rules: Rewrite.Config, body: Body)
    requires Conversation(wire, body).Some?
    ensures Conversation(wire, Rewrite.Apply(wire, rules, body).body)
         == Some(Prepared(wire, rules, Conversation(wire, body).value))
  {
    var root, items := body.root, Conversation(wire, body).value;
    var passes := Rewrite.Passes(wire, rules);
    if Rewrite.HasItems(wire, root) {
      GetWith(root, ItemsKey(wire), Array(Rewrite.PassItems(passes, items)), ItemsKey(wire));
    } else {
      NothingChanges(passes);
      BareStringStays(wire, rules, items);
    }
  }

  lemma {:induction false} NothingChanges(passes: seq<Rewrite.Pass>)
    ensures Rewrite.Changed(passes, []) == []
  {
    if passes != [] {
      NothingChanges(passes[..|passes| - 1]);
      assert Rewrite.PassItems(passes[..|passes| - 1], []) == [];
    }
  }

  /** A bare Responses string is no item any pass touches. */
  lemma BareStringPasses(wire: Wire, rules: Rewrite.Config, item: Value)
    requires item.String?
    ensures Rewrite.PassAll(Rewrite.Passes(wire, rules), item) == item
  {
    RewriteLaws.OnlyToolOutputsAndUserTextChange(wire, rules, item);
    assert item.Get("content") == None && item.Get("role") == None && item.Get("type") == None;
    assert !RewriteLaws.TouchableItem(wire, item);
  }

  lemma BareStringStays(wire: Wire, rules: Rewrite.Config, items: seq<Value>)
    requires |items| == 1 && items[0].String?
    ensures Prepared(wire, rules, items) == items
  {
    BareStringPasses(wire, rules, items[0]);
    SingleItemStays(items, Rewrite.PassItems(Rewrite.Passes(wire, rules), items));
  }

  lemma SingleItemStays(items: seq<Value>, passed: seq<Value>)
    requires |items| == |passed| == 1
    ensures passed == items <==> passed[0] == items[0]
  {
  }

  /** Whether rewriting sends the longer of two conversations as an extension of the shorter. */
  predicate PrefixIsKept(wire: Wire, rules: Rewrite.Config, a: seq<Value>, longer: seq<Value>) {
    var passes := Rewrite.Passes(wire, rules);
    || RewriteLaws.HoldsNoEmptyText(wire, a)
    || Rewrite.StripPasses(wire, rules.strip) == []
    || Rewrite.Changed(passes, a) != []
    || Rewrite.Changed(passes, longer) == []
  }

  lemma PreparedExtendsExactly(wire: Wire, rules: Rewrite.Config, a: seq<Value>, longer: seq<Value>)
    requires a <= longer
    ensures Prepared(wire, rules, a) <= Prepared(wire, rules, longer) <==> PrefixIsKept(wire, rules, a, longer)
  {
    var passes, b := Rewrite.Passes(wire, rules), longer[|a|..];
    assert longer == a + b;
    RewriteLaws.ChangedGrows(passes, a, b);
    RewriteLaws.PassItemsConcat(passes, a, b);
    if Rewrite.Changed(passes, a) == [] {
      RewriteLaws.QuietTree(wire, rules, a);
      if Rewrite.Changed(passes, longer) != [] {
        assert Rewrite.PassItems(passes, longer)[..|a|] == Rewrite.PassItems(passes, a);
      }
    }
  }

  // ---------- pings fit where they fitted ----------

  /** Whether the content of a message is a string, a list, or neither. */
  datatype Shape = Words | Blocked | Neither

  function ShapeOf(message: Value): Shape {
    match message.Get("content") case Some(String(_)) => Words case Some(Array(_)) => Blocked case _ => Neither
  }

  ghost predicate KeepsShape(pass: Rewrite.Pass) {
    forall v :: ShapeOf(pass.rewrite(v)) == ShapeOf(v)
  }

  lemma TrimKeepsShape(wire: Wire, trim: Rewrite.Trim)
    requires wire.AnthropicMessages?
    ensures KeepsShape(Rewrite.TrimPass(wire, trim))
  {
    forall v: Value ensures ShapeOf(Rewrite.TrimItem(wire, trim, v)) == ShapeOf(v) {
      if v.GetArray("content").Some? {
        var blocks := v.GetArray("content").value;
        ArrayKeepsShape(v, Rewrite.MapWhere(blocks, Rewrite.OfKind("tool_result"), Rewrite.ContentTrimmer(trim)));
      }
    }
  }

  lemma ArrayKeepsShape(message: Value, blocks: seq<Value>)
    requires message.GetArray("content").Some?
    ensures ShapeOf(message.With("content", Array(blocks))) == Blocked
  {
    GetWith(message, "content", Array(blocks), "content");
  }

  lemma WordsKeepShape(message: Value, text: string)
    requires message.Get("content").Some?
    ensures ShapeOf(message.With("content", String(text))) == Words
  {
    GetWith(message, "content", String(text), "content");
  }

  lemma StripKeepsShape(wire: Wire, name: string, remove: string -> string)
    ensures KeepsShape(Rewrite.StripPass(wire, name, remove))
  {
    forall v: Value ensures ShapeOf(Rewrite.StripItem(wire, remove, v)) == ShapeOf(v) {
      match v.Get("content")
      case Some(String(text)) => WordsKeepShape(v, remove(text));
      case Some(Array(blocks)) => ArrayKeepsShape(v, Rewrite.StripBlocks(TextKind(wire), remove, blocks));
      case _ =>
    }
  }

  lemma {:induction false} StripsKeepShape(wire: Wire, rules: seq<Rewrite.StripRule>)
    ensures forall p :: p in Rewrite.StripPasses(wire, rules) ==> KeepsShape(p)
  {
    if rules != [] {
      StripsKeepShape(wire, rules[..|rules| - 1]);
      var last := rules[|rules| - 1];
      if last.remove.Some? {
        StripKeepsShape(wire, last.name, last.remove.value);
      }
    }
  }

  lemma {:induction false} ChainKeepsShape(passes: seq<Rewrite.Pass>, item: Value)
    requires forall p :: p in passes ==> KeepsShape(p)
    ensures ShapeOf(Rewrite.PassAll(passes, item)) == ShapeOf(item)
  {
    if passes != [] {
      ChainKeepsShape(passes[..|passes| - 1], item);
      assert passes[|passes| - 1] in passes;
    }
  }

  lemma ItemKeepsShape(wire: Wire, rules: Rewrite.Config, item: Value)
    requires wire.AnthropicMessages?
    ensures ShapeOf(Rewrite.PassAll(Rewrite.Passes(wire, rules), item)) == ShapeOf(item)
  {
    StripsKeepShape(wire, rules.strip);
    if rules.toolOutput.Some? {
      TrimKeepsShape(wire, rules.toolOutput.value);
    }
    ChainKeepsShape(Rewrite.Passes(wire, rules), item);
  }

  lemma ItemKeepsRole(wire: Wire, rules: Rewrite.Config, item: Value)
    ensures Rewrite.PassAll(Rewrite.Passes(wire, rules), item).Get("role") == item.Get("role")
  {
    RewriteLaws.OnlyToolOutputsAndUserTextChange(wire, rules, item);
    assert "role"[0] != "content"[0] && "role"[0] != "output"[0];
  }

  /** Whether a message can carry pings is a matter of its role and the shape of its content. */
  lemma FitsByShape(wire: Wire, items: seq<Value>, prepared: seq<Value>, anchor: nat)
    requires |prepared| == |items|
    requires wire.AnthropicMessages? && anchor < |items| ==>
      ShapeOf(prepared[anchor]) == ShapeOf(items[anchor]) && prepared[anchor].Get("role") == items[anchor].Get("role")
    ensures AnchorFits(wire, prepared, anchor) <==> AnchorFits(wire, items, anchor)
  {
  }

  /** A final message that can carry pings still can once it is rewritten. */
  lemma PreparedStillFits(wire: Wire, rules: Rewrite.Config, items: seq<Value>, anchor: nat)
    ensures AnchorFits(wire, Prepared(wire, rules, items), anchor) <==> AnchorFits(wire, items, anchor)
  {
    if wire.AnthropicMessages? && anchor < |items| {
      ItemKeepsShape(wire, rules, items[anchor]);
      ItemKeepsRole(wire, rules, items[anchor]);
    }
    FitsByShape(wire, items, Prepared(wire, rules, items), anchor);
  }

  // ---------- a whole run ----------

  /** A step as the relay takes it: what is attached to is the rewritten body. */
  function Relayed(rules: Rewrite.Config, step: Step): Step {
    match step case Attach(wire, body) => Attach(wire, Rewrite.Apply(wire, rules, body).body) case other => other
  }

  function RelayedAll(rules: Rewrite.Config, steps: seq<Step>): seq<Step> {
    if steps == [] then [] else [Relayed(rules, steps[0])] + RelayedAll(rules, steps[1..])
  }

  /** A steady schedule of what the client sends, with everybody else's steps in between. */
  ghost predicate SteadyClient(cfg: Config, rules: Rewrite.Config, sys: System, wire: Wire, last: seq<Value>, steps: seq<Step>)
    decreases |steps|
  {
    steps == [] ||
    (&& Enabled(sys, Relayed(rules, steps[0])) && Continues(sys.session, wire, last, steps[0])
     && (steps[0].Attach? ==> PrefixIsKept(wire, rules, last, Newest(last, steps[0])))
     && SteadyClient(cfg, rules, Next(Production(cfg), sys, Relayed(rules, steps[0])), wire, Newest(last, steps[0]),
                     steps[1..]))
  }

  lemma PreparedGrows(wire: Wire, rules: Rewrite.Config, last: seq<Value>, items: seq<Value>)
    requires last < items && PrefixIsKept(wire, rules, last, items)
    ensures Prepared(wire, rules, last) < Prepared(wire, rules, items)
  {
    PreparedExtendsExactly(wire, rules, last, items);
    PreparedIsAsLong(wire, rules, last);
    PreparedIsAsLong(wire, rules, items);
  }

  lemma AttachContinues(s: State, wire: Wire, last: seq<Value>, body: Body, items: seq<Value>)
    requires Conversation(wire, body) == Some(items) && last < items
    requires s.outbox == [] || AnchorFits(wire, items, |items| - 1)
    ensures Continues(s, wire, last, Attach(wire, body)) && Newest(last, Attach(wire, body)) == items
  {
  }

  lemma RelayedBodyContinues(s: State, wire: Wire, rules: Rewrite.Config, last: seq<Value>, body: Body, items: seq<Value>)
    requires Conversation(wire, body) == Some(items) && last < items && PrefixIsKept(wire, rules, last, items)
    requires s.outbox == [] || AnchorFits(wire, items, |items| - 1)
    ensures var step := Attach(wire, Rewrite.Apply(wire, rules, body).body);
      && Continues(s, wire, Prepared(wire, rules, last), step)
      && Newest(Prepared(wire, rules, last), step) == Prepared(wire, rules, items)
  {
    PreparedBody(wire, rules, body);
    PreparedGrows(wire, rules, last, items);
    PreparedIsAsLong(wire, rules, items);
    PreparedStillFits(wire, rules, items, |items| - 1);
    AttachContinues(s, wire, Prepared(wire, rules, last), Rewrite.Apply(wire, rules, body).body, Prepared(wire, rules, items));
  }

  /** What a client may do next in a steady schedule, its relayed form may do in the schedule that is relayed. */
  lemma RelayedContinues(s: State, wire: Wire, rules: Rewrite.Config, last: seq<Value>, step: Step)
    requires Continues(s, wire, last, step) && (step.Attach? ==> PrefixIsKept(wire, rules, last, Newest(last, step)))
    ensures Continues(s, wire, Prepared(wire, rules, last), Relayed(rules, step))
    ensures Newest(Prepared(wire, rules, last), Relayed(rules, step)) == Prepared(wire, rules, Newest(last, step))
  {
    if step.Attach? {
      RelayedBodyContinues(s, wire, rules, last, step.body, Newest(last, step));
    }
  }

  /** One more step in front of a steady schedule. */
  lemma SteadyStep(cfg: Config, sys: System, wire: Wire, last: seq<Value>, step: Step, rest: seq<Step>, next: System,
                   items: seq<Value>)
    requires Enabled(sys, step) && next == Next(Production(cfg), sys, step)
    requires Continues(sys.session, wire, last, step) && items == Newest(last, step) && Steady(cfg, next, wire, items, rest)
    ensures Steady(cfg, sys, wire, last, [step] + rest)
  {
    assert ([step] + rest)[1..] == rest && ([step] + rest)[0] == step;
  }

  /** What a steady client sends is steady when it is relayed. */
  lemma {:induction false} RelayedIsSteady(cfg: Config, rules: Rewrite.Config, sys: System, wire: Wire, last: seq<Value>,
                                           steps: seq<Step>)
    requires SteadyClient(cfg, rules, sys, wire, last, steps)
    ensures Steady(cfg, sys, wire, Prepared(wire, rules, last), RelayedAll(rules, steps))
    decreases |steps|
  {
    if steps != [] {
      var next := Next(Production(cfg), sys, Relayed(rules, steps[0]));
      RelayedIsSteady(cfg, rules, next, wire, Newest(last, steps[0]), steps[1..]);
      RelayedContinues(sys.session, wire, rules, last, steps[0]);
      SteadyStep(cfg, sys, wire, Prepared(wire, rules, last), Relayed(rules, steps[0]), RelayedAll(rules, steps[1..]), next,
                 Prepared(wire, rules, Newest(last, steps[0])));
    }
  }

  /** And a fresh session starts from the empty conversation on both sides. */
  lemma SteadyClientsAreRelayed(cfg: Config, rules: Rewrite.Config, wire: Wire, steps: seq<Step>)
    requires SteadyClient(cfg, rules, START, wire, [], steps)
    ensures Steady(cfg, START, wire, [], RelayedAll(rules, steps))
  {
    NothingChanges(Rewrite.Passes(wire, rules));
    RelayedIsSteady(cfg, rules, START, wire, [], steps);
  }

  /**
   From the client's own conversations to the bodies handed back: along a steady client's run, rewriting and pinning together
   give bodies whose items, with the places of one-shot pings erased, extend one another.
   */
  lemma RelayedBodiesExtendEachOther(cfg: Config, rules: Rewrite.Config, wire: Wire, steps: seq<Step>, i: nat, j: nat)
    requires SteadyClient(cfg, rules, START, wire, [], steps)
    requires i < j < |Returned(cfg, START, RelayedAll(rules, steps))|
    ensures var all := Returned(cfg, START, RelayedAll(rules, steps));
      IsShown(wire, all[i]) && IsShown(wire, all[j]) && View(wire, all[i]) <= View(wire, all[j])
  {
    SteadyClientsAreRelayed(cfg, rules, wire, steps);
    ReturnedBodiesExtendEachOther(cfg, wire, RelayedAll(rules, steps), i, j);
  }

  // ---------- steady runs exist ----------

  /** One more step in front of a steady client's schedule. */
  lemma ClientStep(cfg: Config, rules: Rewrite.Config, sys: System, wire: Wire, last: seq<Value>, step: Step, rest: seq<Step>,
                   next: System, items: seq<Value>)
    requires Enabled(sys, Relayed(rules, step)) && next == Next(Production(cfg), sys, Relayed(rules, step))
    requires Continues(sys.session, wire, last, step) && items == Newest(last, step)
    requires step.Attach? ==> PrefixIsKept(wire, rules, last, items)
    requires SteadyClient(cfg, rules, next, wire, items, rest)
    ensures SteadyClient(cfg, rules, sys, wire, last, [step] + rest)
    ensures Returned(cfg, sys, RelayedAll(rules, [step] + rest))
         == Handed(sys.session, Relayed(rules, step)) + Returned(cfg, next, RelayedAll(rules, rest))
  {
    var steps, relayed := [step] + rest, [Relayed(rules, step)] + RelayedAll(rules, rest);
    assert steps[1..] == rest && steps[0] == step;
    assert relayed[1..] == RelayedAll(rules, rest) && relayed[0] == Relayed(rules, step);
  }

  /** A step that brings no request in front of it changes nothing of what is handed back. */
  lemma QuietStep(cfg: Config, rules: Rewrite.Config, sys: System, wire: Wire, step: Step, rest: seq<Step>, next: System)
    requires Enabled(sys, step) && !step.Attach? && !step.Request? && next == Next(Production(cfg), sys, step)
    requires SteadyClient(cfg, rules, next, wire, [], rest)
    ensures SteadyClient(cfg, rules, sys, wire, [], [step] + rest)
    ensures Returned(cfg, sys, RelayedAll(rules, [step] + rest)) == Returned(cfg, next, RelayedAll(rules, rest))
  {
    ClientStep(cfg, rules, sys, wire, [], step, rest, next, []);
  }

  lemma Regroup(quiet: seq<Step>, rest: seq<Step>)
    requires quiet != []
    ensures quiet + rest == [quiet[0]] + (quiet[1..] + rest)
  {
  }

  lemma {:induction false} ClientBehind(cfg: Config, rules: Rewrite.Config, sys: System, wire: Wire, quiet: seq<Step>,
                                        rest: seq<Step>)
    requires Runs(Production(cfg), sys, quiet) && forall step :: step in quiet ==> !step.Attach? && !step.Request?
    requires SteadyClient(cfg, rules, After(Production(cfg), sys, quiet), wire, [], rest)
    ensures SteadyClient(cfg, rules, sys, wire, [], quiet + rest)
    ensures Returned(cfg, sys, RelayedAll(rules, quiet + rest))
         == Returned(cfg, After(Production(cfg), sys, quiet), RelayedAll(rules, rest))
    decreases |quiet|
  {
    if quiet == [] {
      assert quiet + rest == rest;
    } else {
      var next := Next(Production(cfg), sys, quiet[0]);
      ClientBehind(cfg, rules, next, wire, quiet[1..], rest);
      QuietStep(cfg, rules, sys, wire, quiet[0], quiet[1..] + rest, next);
      Regroup(quiet, rest);
    }
  }

  /** A first attachment for one waiting failure hands a body back and leaves nothing but a pin. */
  lemma FirstOfTwo(s: State, wire: Wire, body: Body, items: seq<Value>)
    requires |s.outbox| == 1 && !s.outbox[0].transient && s.delivered == []
    requires Conversation(wire, body) == Some(items) && items != [] && AnchorFits(wire, items, |items| - 1)
    ensures |Handed(s, Attach(wire, body))| == 1
    ensures AttachPings(RealInjector(), s, wire, body).0.outbox == []
    ensures AttachPings(RealInjector(), s, wire, body).0.delivered != []
  {
    SessionLaws.NewPinsAccepted(wire, items, s.outbox);
    assert s.delivered + PinAll(s.outbox, |items| - 1) == PinAll(s.outbox, |items| - 1);
    FirstAttemptAttaches(s, wire, items, body);
    OneDurablePin(s.outbox, |items| - 1);
  }

  /** A later one, for the pin alone, does too. */
  lemma SecondOfTwo(s: State, wire: Wire, body: Body, items: seq<Value>)
    requires s.outbox == [] && s.delivered != []
    requires Conversation(wire, body) == Some(items) && items != []
    ensures |Handed(s, Attach(wire, body))| == 1
  {
    SessionLaws.AttachExactly(s, wire, body);
  }

  lemma ClientAttach(cfg: Config, rules: Rewrite.Config, sys: System, wire: Wire, last: seq<Value>, body: Body,
                     items: seq<Value>, rest: seq<Step>, next: System)
    requires Conversation(wire, body) == Some(items) && last < items && PrefixIsKept(wire, rules, last, items)
    requires sys.session.outbox == [] || AnchorFits(wire, items, |items| - 1)
    requires next == Next(Production(cfg), sys, Relayed(rules, Attach(wire, body)))
    requires |Handed(sys.session, Relayed(rules, Attach(wire, body)))| == 1
    requires SteadyClient(cfg, rules, next, wire, items, rest)
    ensures SteadyClient(cfg, rules, sys, wire, last, [Attach(wire, body)] + rest)
    ensures |Returned(cfg, sys, RelayedAll(rules, [Attach(wire, body)] + rest))|
         == 1 + |Returned(cfg, next, RelayedAll(rules, rest))|
  {
    AttachContinues(sys.session, wire, last, body, items);
    ClientStep(cfg, rules, sys, wire, last, Attach(wire, body), rest, next, items);
  }

  lemma FirstIsRelayed(s: State, wire: Wire, rules: Rewrite.Config, body: Body, items: seq<Value>)
    requires |s.outbox| == 1 && !s.outbox[0].transient && s.delivered == []
    requires Conversation(wire, body) == Some(items) && items != [] && AnchorFits(wire, items, |items| - 1)
    ensures |Handed(s, Relayed(rules, Attach(wire, body)))| == 1
    ensures AttachPings(RealInjector(), s, wire, Rewrite.Apply(wire, rules, body).body).0.outbox == []
    ensures AttachPings(RealInjector(), s, wire, Rewrite.Apply(wire, rules, body).body).0.delivered != []
  {
    PreparedBody(wire, rules, body);
    PreparedIsAsLong(wire, rules, items);
    PreparedStillFits(wire, rules, items, |items| - 1);
    FirstOfTwo(s, wire, Rewrite.Apply(wire, rules, body).body, Prepared(wire, rules, items));
  }

  lemma SecondIsRelayed(s: State, wire: Wire, rules: Rewrite.Config, body: Body, items: seq<Value>)
    requires s.outbox == [] && s.delivered != []
    requires Conversation(wire, body) == Some(items) && items != []
    ensures |Handed(s, Relayed(rules, Attach(wire, body)))| == 1
  {
    PreparedBody(wire, rules, body);
    PreparedIsAsLong(wire, rules, items);
    SecondOfTwo(s, wire, Rewrite.Apply(wire, rules, body).body, Prepared(wire, rules, items));
  }

  lemma OneAttachment(cfg: Config, rules: Rewrite.Config, sys: System, wire: Wire, last: seq<Value>, body: Body,
                      items: seq<Value>)
    requires sys.session.outbox == [] && sys.session.delivered != []
    requires Conversation(wire, body) == Some(items) && last < items && PrefixIsKept(wire, rules, last, items)
    ensures SteadyClient(cfg, rules, sys, wire, last, [Attach(wire, body)] + [])
    ensures |Returned(cfg, sys, RelayedAll(rules, [Attach(wire, body)] + []))| == 1
  {
    var next := Next(Production(cfg), sys, Relayed(rules, Attach(wire, body)));
    SecondIsRelayed(sys.session, wire, rules, body, items);
    ClientAttach(cfg, rules, sys, wire, last, body, items, [], next);
  }

  /** A failure that waits, and a conversation that grows: two attachments, both handing back a body. */
  lemma TwoAttachments(cfg: Config, rules: Rewrite.Config, sys: System, wire: Wire, first: Body, second: Body, a: seq<Value>,
                       b: seq<Value>)
    requires |sys.session.outbox| == 1 && !sys.session.outbox[0].transient && sys.session.delivered == []
    requires Conversation(wire, first) == Some(a) && Conversation(wire, second) == Some(b) && [] < a < b
    requires AnchorFits(wire, a, |a| - 1) && PrefixIsKept(wire, rules, a, b)
    ensures SteadyClient(cfg, rules, sys, wire, [], [Attach(wire, first)] + ([Attach(wire, second)] + []))
    ensures |Returned(cfg, sys, RelayedAll(rules, [Attach(wire, first)] + ([Attach(wire, second)] + [])))| == 2
  {
    var next := Next(Production(cfg), sys, Relayed(rules, Attach(wire, first)));
    FirstIsRelayed(sys.session, wire, rules, first, a);
    OneAttachment(cfg, rules, next, wire, a, second, b);
    ClientAttach(cfg, rules, sys, wire, [], first, a, [Attach(wire, second)] + [], next);
  }

  /** The steps by which a fresh session comes to have one failure waiting. */
  function FailureSteps(hook: string, trigger: Trigger, reason: string): seq<Step> {
    [Spawn(hook, trigger), Arrive(0), Finish(0, Fail(reason, None)), Apply(0)]
  }

  /** After a hook's first failure in a fresh session, exactly its ping waits. */
  lemma OneFailureWaits(cfg: Config, hook: string, trigger: Trigger, reason: string)
    requires cfg.maxPerSession > 0
    ensures Runs(Production(cfg), START, FailureSteps(hook, trigger, reason))
    ensures var s := After(Production(cfg), START, FailureSteps(hook, trigger, reason)).session;
      s.outbox == [FailurePing(cfg.digests, hook, reason, None)] && s.delivered == []
  {
    var env, steps := Production(cfg), FailureSteps(hook, trigger, reason);
    var one := Next(env, START, steps[0]);
    var two := Next(env, one, steps[1]);
    var three := Next(env, two, steps[2]);
    var four := Next(env, three, steps[3]);
    assert four.session.outbox == [FailurePing(cfg.digests, hook, reason, None)];
    assert steps[1..] == [steps[1], steps[2], steps[3]] && steps[1..][1..] == [steps[2], steps[3]];
    assert steps[1..][1..][1..] == [steps[3]] && steps[1..][1..][1..][1..] == [];
    assert After(env, three, [steps[3]]) == four;
    assert After(env, two, [steps[2], steps[3]]) == four;
    assert After(env, one, [steps[1], steps[2], steps[3]]) == four;
  }

  function TwoBodySteps(wire: Wire, hook: string, trigger: Trigger, reason: string, first: Body, second: Body): seq<Step> {
    FailureSteps(hook, trigger, reason) + ([Attach(wire, first)] + ([Attach(wire, second)] + []))
  }

  /**
   So under any rules, on every wire and for every conversation that grows and whose prefix is kept, a fresh session has a
   steady client's run that hands back two bodies.
   */
  lemma SteadyClientsExist(cfg: Config, rules: Rewrite.Config, wire: Wire, hook: string, trigger: Trigger, reason: string,
                           first: Body, second: Body, a: seq<Value>, b: seq<Value>)
    requires cfg.maxPerSession > 0
    requires Conversation(wire, first) == Some(a) && Conversation(wire, second) == Some(b) && [] < a < b
    requires AnchorFits(wire, a, |a| - 1) && PrefixIsKept(wire, rules, a, b)
    ensures var steps := TwoBodySteps(wire, hook, trigger, reason, first, second);
      && SteadyClient(cfg, rules, START, wire, [], steps)
      && Steady(cfg, START, wire, [], RelayedAll(rules, steps))
      && |Returned(cfg, START, RelayedAll(rules, steps))| == 2
  {
    var quiet := FailureSteps(hook, trigger, reason);
    OneFailureWaits(cfg, hook, trigger, reason);
    TwoAttachments(cfg, rules, After(Production(cfg), START, quiet), wire, first, second, a, b);
    ClientBehind(cfg, rules, START, wire, quiet, [Attach(wire, first)] + ([Attach(wire, second)] + []));
    SteadyClientsAreRelayed(cfg, rules, wire, TwoBodySteps(wire, hook, trigger, reason, first, second));
  }

  /** Among them is one on Anthropic in which a rule rewrites what the client sends. */
  lemma ARuleRewritesAlongARun(cfg: Config, root: Value, hook: string, trigger: Trigger, reason: string, text: string,
                               more: Value)
    requires cfg.maxPerSession > 0 && text != "" && Items(AnthropicMessages, root).Some?
    ensures var items := [RewriteLaws.UserText(text)];
      var steps := TwoBodySteps(AnthropicMessages, hook, trigger, reason,
                                Parsed(WithItems(AnthropicMessages, root, items)),
                                Parsed(WithItems(AnthropicMessages, root, items + [more])));
      && SteadyClient(cfg, RewriteLaws.StripAll(), START, AnthropicMessages, [], steps)
      && |Returned(cfg, START, RelayedAll(RewriteLaws.StripAll(), steps))| == 2
      && Prepared(AnthropicMessages, RewriteLaws.StripAll(), items) != items
  {
    var items := [RewriteLaws.UserText(text)];
    WithItemsReads(AnthropicMessages, root, items);
    WithItemsReads(AnthropicMessages, root, items + [more]);
    EverythingIsStripped(text);
    SteadyClientsExist(cfg, RewriteLaws.StripAll(), AnthropicMessages, hook, trigger, reason,
                       Parsed(WithItems(AnthropicMessages, root, items)),
                       Parsed(WithItems(AnthropicMessages, root, items + [more])), items, items + [more]);
  }

  lemma EverythingIsStripped(text: string)
    requires text != ""
    ensures var items, rules := [RewriteLaws.UserText(text)], RewriteLaws.StripAll();
      && Rewrite.Changed(Rewrite.Passes(AnthropicMessages, rules), items) != []
      && Prepared(AnthropicMessages, rules, items) != items
      && AnchorFits(AnthropicMessages, items, 0)
  {
    var user, strip := RewriteLaws.UserText(text), RewriteLaws.Everything();
    RewriteLaws.UserTextReads(text);
    RewriteLaws.UserTextStrips(text);
    assert user in [user];
    RewriteLaws.StripAllChanges([user]);
    RewriteLaws.OneRule(AnthropicMessages, Rewrite.StripRule("all", Some(strip)));
    var pass := Rewrite.StripPass(AnthropicMessages, "all", strip);
    assert Rewrite.PassAll([pass], user) == pass.rewrite(user) by {
      assert [pass][..0] == [];
    }
    assert Rewrite.StripBlocks("text", strip, [Text("text", text)]) == [] by {
      assert [Text("text", text)][..0] == [];
    }
    GetWith(user, "content", Array([]), "content");
  }
}
