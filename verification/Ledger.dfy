/**
 The books of one session: which pings were ever accepted, which were delivered, which were cleared first.
 The history is kept beside the engine's own state (`src/hooks/mod.rs:408-441`, `490-540`, `579-593`) and every
 locked section is shown to keep the two in balance.
 */
module Ledger {
  import opened Wrappers
  import opened Pings
  import opened Injection
  import opened Session
  import Extract

  /**
   `accepted`, `committed` and `cleared` list pings in the order it happened to them. `origins[k]` is the position
   in `committed` of the ping that the pin `delivered[k]` came from.
   */
  datatype Books = Books(accepted: seq<Ping>, committed: seq<Ping>, cleared: seq<Ping>, origins: seq<nat>)

  const NO_BOOKS := Books([], [], [], [])

  // ---------- the history each section adds ----------

  /** The ping an outcome would queue. */
  function Candidate(cfg: Config, hook: string, outcome: Outcome): Option<Ping> {
    match outcome
    case Signal(message, attachments) =>
      if message == "" && attachments == [] then None else Some(SignalPing(cfg.digests, hook, message, attachments))
    case Fail(reason, fix) => Some(FailurePing(cfg.digests, hook, reason, fix))
    case _ => None
  }

  /** Whether an outcome takes a waiting ping out of the outbox. */
  predicate Drops(hook: string, outcome: Outcome, p: Ping) {
    match outcome
    case Signal(message, attachments) => (message != "" || attachments != []) && p.hook == hook && p.transient
    case Pass => p.hook == hook
    case _ => false
  }

  function Dropped(hook: string, outcome: Outcome): Ping -> bool {
    (p: Ping) => Drops(hook, outcome, p)
  }

  function Kept(hook: string, outcome: Outcome): Ping -> bool {
    (p: Ping) => !Drops(hook, outcome, p)
  }

  /** Whether the outcome's candidate is queued. */
  predicate Admits(cfg: Config, s: State, hook: string, outcome: Outcome) {
    match outcome
    case Signal(message, attachments) =>
      (message != "" || attachments != [])
      && s.deliveredCount + |Retain(s.outbox, NotSignalOf(hook))| < cfg.maxPerSession as int
    case Fail(reason, fix) =>
      && !IsDuplicate(s, FailurePing(cfg.digests, hook, reason, fix))
      && s.deliveredCount + |s.outbox| < cfg.maxPerSession as int
    case _ => false
  }

  function AfterOutcome(cfg: Config, s: State, books: Books, hook: string, outcome: Outcome): Books {
    var candidate := Candidate(cfg, hook, outcome);
    books.(accepted := if Admits(cfg, s, hook, outcome) && candidate.Some? then books.accepted + [candidate.value]
                       else books.accepted,
           cleared := books.cleared + Retain(s.outbox, Dropped(hook, outcome)))
  }

  /** Positions, counted from `base`, of the durable pings of a batch. */
  function DurableAt(pings: seq<Ping>, base: nat): seq<nat> {
    if pings == [] then []
    else DurableAt(pings[..|pings| - 1], base)
         + (if pings[|pings| - 1].transient then [] else [base + |pings| - 1])
  }

  /** A delivery by injection, behind the old pins or after dropping them. */
  function AfterPinned(s: State, books: Books, keptPins: bool): Books {
    books.(committed := books.committed + s.outbox,
           origins := (if keptPins then books.origins else []) + DurableAt(s.outbox, |books.committed|))
  }

  function AfterAttach(injector: Injector, s: State, books: Books, wire: Wire, body: Body): Books {
    if s.outbox == [] && s.delivered == [] then books
    else match injector.conversationLen(wire, body)
      case None => books
      case Some(len) =>
        if len == 0 then books
        else if Attempt(injector, s, s.delivered, wire, body, len - 1).Some? then AfterPinned(s, books, true)
        else if Attempt(injector, s, [], wire, body, len - 1).Some? then AfterPinned(s, books, false)
        else books.(origins := [])
  }

  function AfterWake(s: State, books: Books): Books {
    books.(committed := books.committed + s.outbox)
  }

  function AfterSeen(s: State, books: Books, len: Option<nat>): Books {
    if Compacts(s, len) then books.(origins := []) else books
  }

  // ---------- the balance ----------

  ghost predicate Pairwise(pings: seq<Ping>, ok: (Ping, Ping) -> bool) {
    forall i, j :: 0 <= i < j < |pings| ==> ok(pings[i], pings[j])
  }

  /** Between an earlier and a later ping: a durable ping never repeats an earlier id. */
  function NewId(): (Ping, Ping) -> bool {
    (p: Ping, q: Ping) => q.transient || p.id != q.id
  }

  /** Between two waiting pings: one hook never has two signals. */
  function NotSameSignal(): (Ping, Ping) -> bool {
    (p: Ping, q: Ping) => !p.transient || !q.transient || p.hook != q.hook
  }

  ghost predicate NonDecreasing(pins: seq<PinnedPing>) {
    forall i, j :: 0 <= i < j < |pins| ==> pins[i].anchor <= pins[j].anchor
  }

  /** Every pin is the pin of a durable committed ping, in the order of commitment. */
  ghost predicate PinsTraced(delivered: seq<PinnedPing>, books: Books) {
    && |books.origins| == |delivered|
    && Increasing(books.origins)
    && forall k :: 0 <= k < |delivered| ==>
         && books.origins[k] < |books.committed|
         && !books.committed[books.origins[k]].transient
         && delivered[k] == IntoPinned(books.committed[books.origins[k]], delivered[k].anchor)
  }

  /** The counters match the books and stay under the cap. */
  ghost predicate Counted(cfg: Config, s: State, books: Books) {
    && s.deliveredCount == |books.committed|
    && s.deliveredIds == IdSet(books.committed)
    && s.deliveredCount + |s.outbox| <= cfg.maxPerSession as int
  }

  /** Every accepted ping is waiting, committed or cleared, and exactly one of these. */
  ghost predicate Conserved(s: State, books: Books) {
    multiset(books.accepted) == multiset(s.outbox) + multiset(books.committed) + multiset(books.cleared)
  }

  ghost predicate Balanced(cfg: Config, s: State, books: Books) {
    && Counted(cfg, s, books)
    && Conserved(s, books)
    && Pairwise(books.committed + s.outbox, NewId())
    && Pairwise(s.outbox, NotSameSignal())
    && PinsTraced(s.delivered, books)
    && NonDecreasing(s.delivered)
  }

  lemma FreshIsBalanced(cfg: Config)
    ensures Balanced(cfg, Session.FRESH, NO_BOOKS)
  {
  }

  // ---------- what retaining keeps ----------

  lemma {:induction false} RetainSplits(pings: seq<Ping>, keep: Ping -> bool, drop: Ping -> bool)
    requires forall p :: keep(p) <==> !drop(p)
    ensures multiset(pings) == multiset(Retain(pings, keep)) + multiset(Retain(pings, drop))
    ensures |Retain(pings, keep)| <= |pings|
  {
    if pings != [] {
      var shorter := pings[..|pings| - 1];
      RetainSplits(shorter, keep, drop);
      assert pings == shorter + [pings[|pings| - 1]];
    }
  }

  lemma {:induction false} RetainHolds(pings: seq<Ping>, keep: Ping -> bool)
    ensures forall p :: p in Retain(pings, keep) <==> p in pings && keep(p)
  {
    if pings != [] {
      RetainHolds(pings[..|pings| - 1], keep);
    }
  }

  lemma {:induction false} RetainAll(pings: seq<Ping>, keep: Ping -> bool)
    requires forall p :: keep(p)
    ensures Retain(pings, keep) == pings
  {
    if pings != [] {
      RetainAll(pings[..|pings| - 1], keep);
    }
  }

  lemma {:induction false} RetainNone(pings: seq<Ping>, keep: Ping -> bool)
    requires forall p :: p in pings ==> !keep(p)
    ensures Retain(pings, keep) == []
  {
    if pings != [] {
      RetainNone(pings[..|pings| - 1], keep);
    }
  }

  lemma PairwiseSnoc(pings: seq<Ping>, last: Ping, ok: (Ping, Ping) -> bool)
    ensures Pairwise(pings + [last], ok) <==> Pairwise(pings, ok) && forall p :: p in pings ==> ok(p, last)
  {
    var all := pings + [last];
    assert all[|pings|] == last;
    assert forall i :: 0 <= i < |pings| ==> all[i] == pings[i];
    if Pairwise(all, ok) {
      forall i | 0 <= i < |pings|
        ensures ok(pings[i], last)
      {
        assert ok(all[i], all[|pings|]);
      }
    }
  }

  lemma {:induction false} PairwiseRetain(before: seq<Ping>, pings: seq<Ping>, keep: Ping -> bool, ok: (Ping, Ping) -> bool)
    requires Pairwise(before + pings, ok)
    ensures Pairwise(before + Retain(pings, keep), ok)
  {
    if pings == [] {
      assert before + Retain(pings, keep) == before + pings;
    } else {
      var shorter, last := pings[..|pings| - 1], pings[|pings| - 1];
      assert before + pings == (before + shorter) + [last];
      PairwiseSnoc(before + shorter, last, ok);
      PairwiseRetain(before, shorter, keep, ok);
      RetainHolds(shorter, keep);
      if keep(last) {
        assert before + Retain(pings, keep) == (before + Retain(shorter, keep)) + [last];
        PairwiseSnoc(before + Retain(shorter, keep), last, ok);
      } else {
        assert before + Retain(pings, keep) == before + Retain(shorter, keep);
      }
    }
  }

  // ---------- every section keeps the balance ----------

  lemma {:induction false} RetainSame(pings: seq<Ping>, keep: Ping -> bool, other: Ping -> bool)
    requires forall p :: keep(p) <==> other(p)
    ensures Retain(pings, keep) == Retain(pings, other)
  {
    if pings != [] {
      RetainSame(pings[..|pings| - 1], keep, other);
    }
  }

  /** What any outcome does to the outbox: take the dropped pings out, then perhaps append the candidate. */
  lemma OutcomeShape(cfg: Config, s: State, hook: string, outcome: Outcome)
    ensures var after, kept := ApplyOutcome(cfg, s, hook, outcome), Retain(s.outbox, Kept(hook, outcome));
            && after == s.(outbox := after.outbox)
            && (Admits(cfg, s, hook, outcome) ==>
                  && Candidate(cfg, hook, outcome).Some?
                  && after.outbox == kept + [Candidate(cfg, hook, outcome).value]
                  && s.deliveredCount + |kept| < cfg.maxPerSession as int)
            && (!Admits(cfg, s, hook, outcome) ==> after.outbox == kept)
  {
    match outcome {
      case Signal(message, attachments) =>
        if message == "" && attachments == [] {
          RetainAll(s.outbox, Kept(hook, outcome));
        } else {
          RetainSame(s.outbox, Kept(hook, outcome), NotSignalOf(hook));
        }
      case Pass => RetainSame(s.outbox, Kept(hook, outcome), NotOf(hook));
      case _ => RetainAll(s.outbox, Kept(hook, outcome));
    }
  }

  /** An admitted durable candidate repeats no earlier id; an admitted signal is its hook's only one. */
  lemma CandidateIsNew(cfg: Config, s: State, books: Books, hook: string, outcome: Outcome)
    requires Counted(cfg, s, books) && Admits(cfg, s, hook, outcome)
    ensures Candidate(cfg, hook, outcome).Some?
    ensures forall p :: p in books.committed + Retain(s.outbox, Kept(hook, outcome)) ==>
              NewId()(p, Candidate(cfg, hook, outcome).value)
    ensures forall p :: p in Retain(s.outbox, Kept(hook, outcome)) ==>
              NotSameSignal()(p, Candidate(cfg, hook, outcome).value)
  {
    RetainHolds(s.outbox, Kept(hook, outcome));
  }

  lemma OutcomeConserves(cfg: Config, s: State, books: Books, hook: string, outcome: Outcome)
    requires Conserved(s, books)
    ensures Conserved(ApplyOutcome(cfg, s, hook, outcome), AfterOutcome(cfg, s, books, hook, outcome))
  {
    OutcomeShape(cfg, s, hook, outcome);
    RetainSplits(s.outbox, Kept(hook, outcome), Dropped(hook, outcome));
  }

  lemma OutcomePairs(cfg: Config, s: State, books: Books, hook: string, outcome: Outcome)
    requires Counted(cfg, s, books)
    requires Pairwise(books.committed + s.outbox, NewId()) && Pairwise(s.outbox, NotSameSignal())
    ensures Pairwise(books.committed + ApplyOutcome(cfg, s, hook, outcome).outbox, NewId())
    ensures Pairwise(ApplyOutcome(cfg, s, hook, outcome).outbox, NotSameSignal())
  {
    var kept, after := Retain(s.outbox, Kept(hook, outcome)), ApplyOutcome(cfg, s, hook, outcome).outbox;
    OutcomeShape(cfg, s, hook, outcome);
    PairwiseRetain(books.committed, s.outbox, Kept(hook, outcome), NewId());
    assert [] + s.outbox == s.outbox && [] + kept == kept;
    PairwiseRetain([], s.outbox, Kept(hook, outcome), NotSameSignal());
    if Admits(cfg, s, hook, outcome) {
      var candidate := Candidate(cfg, hook, outcome).value;
      CandidateIsNew(cfg, s, books, hook, outcome);
      PairwiseSnoc(books.committed + kept, candidate, NewId());
      PairwiseSnoc(kept, candidate, NotSameSignal());
      assert books.committed + after == (books.committed + kept) + [candidate];
    }
  }

  lemma OutcomeBalances(cfg: Config, s: State, books: Books, hook: string, outcome: Outcome)
    requires Balanced(cfg, s, books)
    ensures Balanced(cfg, ApplyOutcome(cfg, s, hook, outcome), AfterOutcome(cfg, s, books, hook, outcome))
  {
    OutcomeShape(cfg, s, hook, outcome);
    RetainSplits(s.outbox, Kept(hook, outcome), Dropped(hook, outcome));
    OutcomeConserves(cfg, s, books, hook, outcome);
    OutcomePairs(cfg, s, books, hook, outcome);
  }

  lemma {:induction false} DurablePinsTraced(pings: seq<Ping>, base: nat, anchor: nat)
    ensures var pins, ks := DurablePins(pings, anchor), DurableAt(pings, base);
            && |pins| == |ks|
            && Increasing(ks)
            && forall k :: 0 <= k < |ks| ==>
                 && base <= ks[k] < base + |pings|
                 && !pings[ks[k] - base].transient
                 && pins[k] == IntoPinned(pings[ks[k] - base], anchor)
  {
    if pings != [] {
      var shorter, last := pings[..|pings| - 1], pings[|pings| - 1];
      DurablePinsTraced(shorter, base, anchor);
      assert pings == shorter + [last];
      if !last.transient {
        TracedSnoc(shorter, last, base, anchor, DurablePins(shorter, anchor), DurableAt(shorter, base));
      }
    }
  }

  lemma TracedSnoc(pings: seq<Ping>, last: Ping, base: nat, anchor: nat, pins: seq<PinnedPing>, ks: seq<nat>)
    requires |pins| == |ks| && Increasing(ks) && !last.transient
    requires forall k :: 0 <= k < |ks| ==>
      base <= ks[k] < base + |pings| && !pings[ks[k] - base].transient && pins[k] == IntoPinned(pings[ks[k] - base], anchor)
    ensures var all, morePins, moreKs := pings + [last], pins + [IntoPinned(last, anchor)], ks + [base + |pings|];
      && Increasing(moreKs)
      && forall k :: 0 <= k < |moreKs| ==>
           && base <= moreKs[k] < base + |all|
           && !all[moreKs[k] - base].transient
           && morePins[k] == IntoPinned(all[moreKs[k] - base], anchor)
  {
    var all, moreKs := pings + [last], ks + [base + |pings|];
    forall k | 0 <= k < |ks| ensures moreKs[k] == ks[k] && all[ks[k] - base] == pings[ks[k] - base] {}
  }

  /** The pins after a delivery by injection are traced, whether or not the old ones were kept. */
  lemma PinnedTraced(s: State, books: Books, keptPins: bool, anchor: nat)
    requires PinsTraced(s.delivered, books)
    ensures PinsTraced(CommitPinned(s, if keptPins then s.delivered else [], anchor).delivered, AfterPinned(s, books, keptPins))
  {
    var kept, from := if keptPins then s.delivered else [], if keptPins then books.origins else [];
    var pins, ks := DurablePins(s.outbox, anchor), DurableAt(s.outbox, |books.committed|);
    var after := AfterPinned(s, books, keptPins);
    DurablePinsTraced(s.outbox, |books.committed|, anchor);
    forall k | 0 <= k < |pins|
      ensures !after.committed[ks[k]].transient && pins[k] == IntoPinned(after.committed[ks[k]], anchor)
    {
      assert after.committed[ks[k]] == s.outbox[ks[k] - |books.committed|];
    }
    TracedConcat(kept, from, pins, ks, after);
  }

  lemma TracedConcat(kept: seq<PinnedPing>, from: seq<nat>, pins: seq<PinnedPing>, ks: seq<nat>, after: Books)
    requires PinsTraced(kept, after.(origins := from))
    requires PinsTraced(pins, after.(origins := ks))
    requires forall i, j :: 0 <= i < |from| && 0 <= j < |ks| ==> from[i] < ks[j]
    requires after.origins == from + ks
    ensures PinsTraced(kept + pins, after)
  {
  }

  /** A delivery by injection keeps the balance when the old pins it keeps are anchored no later than the new ones. */
  lemma PinnedBalances(cfg: Config, s: State, books: Books, keptPins: bool, anchor: nat)
    requires Balanced(cfg, s, books)
    requires keptPins ==> forall p :: p in s.delivered ==> p.anchor <= anchor
    ensures Balanced(cfg, CommitPinned(s, if keptPins then s.delivered else [], anchor), AfterPinned(s, books, keptPins))
  {
    PinnedTraced(s, books, keptPins, anchor);
    PinnedOrdered(if keptPins then s.delivered else [], s.outbox, anchor);
    OutboxCommits(cfg, s, books);
    var state, after := CommitPinned(s, if keptPins then s.delivered else [], anchor), AfterPinned(s, books, keptPins);
    assert Counted(cfg, state, after);
    assert Pairwise(after.committed + state.outbox, NewId());
    assert PinsTraced(state.delivered, after) && NonDecreasing(state.delivered);
    assert Conserved(state, after);
  }

  lemma PinnedOrdered(kept: seq<PinnedPing>, pings: seq<Ping>, anchor: nat)
    requires NonDecreasing(kept) && forall p :: p in kept ==> p.anchor <= anchor
    ensures NonDecreasing(kept + DurablePins(pings, anchor))
  {
    DurablePinsTraced(pings, 0, anchor);
  }

  /** Moving the outbox onto the end of the committed list keeps the books. */
  lemma OutboxCommits(cfg: Config, s: State, books: Books)
    requires Counted(cfg, s, books) && Conserved(s, books)
    ensures IdSet(books.committed + s.outbox) == s.deliveredIds + IdSet(s.outbox)
    ensures Conserved(s.(outbox := []), books.(committed := books.committed + s.outbox))
    ensures (books.committed + s.outbox) + [] == books.committed + s.outbox
  {
  }

  /** An injector that never accepts a pin at or past the end of the conversation it reports. */
  ghost predicate ChecksAnchors(injector: Injector) {
    forall wire: Wire, body: Body, pins: seq<PinnedPing>, p: PinnedPing
      {:trigger injector.inject(wire, body, pins), p in pins} ::
      p in pins && injector.inject(wire, body, pins).Some? && injector.conversationLen(wire, body).Some?
      ==> p.anchor < injector.conversationLen(wire, body).value
  }

  lemma RealInjectorChecksAnchors()
    ensures ChecksAnchors(RealInjector())
  {
  }

  lemma OldPinsFit(injector: Injector, s: State, wire: Wire, body: Body, anchor: nat)
    requires ChecksAnchors(injector) && injector.conversationLen(wire, body) == Some(anchor + 1)
    requires Attempt(injector, s, s.delivered, wire, body, anchor).Some?
    ensures forall p :: p in s.delivered ==> p.anchor <= anchor
  {
    var pins := s.delivered + PinAll(s.outbox, anchor);
    assert injector.inject(wire, body, pins).Some?;
    forall p | p in s.delivered
      ensures p.anchor <= anchor
    {
      assert p in pins;
    }
  }

  /** The four ways an attachment can end, in the state and in the books. */
  lemma AttachCases(injector: Injector, s: State, books: Books, wire: Wire, body: Body)
    ensures var after, log := AttachPings(injector, s, wire, body).0, AfterAttach(injector, s, books, wire, body);
            var len := injector.conversationLen(wire, body);
            || (after == s && log == books)
            || (after == s.(delivered := []) && log == books.(origins := []))
            || (&& len.Some? && len.value > 0 && Attempt(injector, s, s.delivered, wire, body, len.value - 1).Some?
                && after == CommitPinned(s, s.delivered, len.value - 1) && log == AfterPinned(s, books, true))
            || (&& len.Some? && len.value > 0
                && after == CommitPinned(s, [], len.value - 1) && log == AfterPinned(s, books, false))
  {
  }

  lemma AttachBalances(injector: Injector, cfg: Config, s: State, books: Books, wire: Wire, body: Body)
    requires ChecksAnchors(injector)
    requires Balanced(cfg, s, books)
    ensures Balanced(cfg, AttachPings(injector, s, wire, body).0, AfterAttach(injector, s, books, wire, body))
  {
    AttachCases(injector, s, books, wire, body);
    var len := injector.conversationLen(wire, body);
    if len.Some? && len.value > 0 {
      if Attempt(injector, s, s.delivered, wire, body, len.value - 1).Some? {
        OldPinsFit(injector, s, wire, body, len.value - 1);
        PinnedBalances(cfg, s, books, true, len.value - 1);
      }
      PinnedBalances(cfg, s, books, false, len.value - 1);
    }
  }

  lemma WakeBalances(cfg: Config, s: State, books: Books)
    requires Balanced(cfg, s, books)
    ensures Balanced(cfg, SweepCommit(s), AfterWake(s, books))
  {
    OutboxCommits(cfg, s, books);
  }

  lemma SeenBalances(cfg: Config, s: State, books: Books, isNew: bool, len: Option<nat>, extracted: Option<Extract.Extracted>)
    requires Balanced(cfg, s, books)
    ensures Balanced(cfg, RecordSeen(cfg, s, isNew, len, extracted).0, AfterSeen(s, books, len))
  {
  }
}
