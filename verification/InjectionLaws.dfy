/**
 What injection keeps (`src/transform.rs:296-440`). Every inserted value is tagged with where it came from, so
 that "take the pings out again" has a meaning; the tags are erased by `Values`.
 */
module InjectionLaws {
  import opened Wrappers
  import opened Json
  import opened Pings
  import opened Injection

  datatype Origin = Client | Durable | OneShot

  datatype Piece = Piece(value: Value, origin: Origin)

  /** A pinned ping with its lifetime: kept for every later request, or sent once. */
  datatype Mark = Mark(pin: PinnedPing, origin: Origin)

  function Values(pieces: seq<Piece>): seq<Value> {
    seq(|pieces|, i requires 0 <= i < |pieces| => pieces[i].value)
  }

  function Pins(marks: seq<Mark>): seq<PinnedPing> {
    seq(|marks|, i requires 0 <= i < |marks| => marks[i].pin)
  }

  function Tagged(values: seq<Value>, origin: Origin): seq<Piece> {
    seq(|values|, i requires 0 <= i < |values| => Piece(values[i], origin))
  }

  function Keep(pieces: seq<Piece>, origins: set<Origin>): seq<Piece> {
    if pieces == [] then []
    else Keep(pieces[..|pieces| - 1], origins)
         + (if pieces[|pieces| - 1].origin in origins then [pieces[|pieces| - 1]] else [])
  }

  function KeepMarks(marks: seq<Mark>, origins: set<Origin>): seq<Mark> {
    if marks == [] then []
    else KeepMarks(marks[..|marks| - 1], origins)
         + (if marks[|marks| - 1].origin in origins then [marks[|marks| - 1]] else [])
  }

  function MarksAt(marks: seq<Mark>, anchor: nat): seq<Mark> {
    if marks == [] then []
    else MarksAt(marks[..|marks| - 1], anchor)
         + (if marks[|marks| - 1].pin.anchor == anchor then [marks[|marks| - 1]] else [])
  }

  function Inserted(make: PinnedPing -> seq<Value>, marks: seq<Mark>): seq<Piece> {
    if marks == [] then []
    else Inserted(make, marks[..|marks| - 1]) + Tagged(make(marks[|marks| - 1].pin), marks[|marks| - 1].origin)
  }

  function AroundPiece(item: Value, isOutput: bool, inserted: seq<Piece>): seq<Piece> {
    if isOutput then [Piece(item, Client)] + inserted else inserted + [Piece(item, Client)]
  }

  /** The tagged counterpart of `AddedAt`. */
  function InsertedAt(make: PinnedPing -> seq<Value>, marks: seq<Mark>): nat -> seq<Piece> {
    (anchor: nat) => Inserted(make, MarksAt(marks, anchor))
  }

  /** The first `n` items of a Responses or Chat conversation with every tagged addition in place. */
  function ItemPieces(isOutput: Value -> bool, inserted: nat -> seq<Piece>, items: seq<Value>, n: nat): seq<Piece>
    requires n <= |items|
  {
    if n == 0 then [] else
    ItemPieces(isOutput, inserted, items, n - 1) + AroundPiece(items[n - 1], isOutput(items[n - 1]), inserted(n - 1))
  }

  /** The content blocks of one Anthropic message with its tagged pings in place. */
  function BlockPieces(blocks: seq<Value>, marks: seq<Mark>): seq<Piece> {
    var k := InsertionPoint(blocks);
    Tagged(blocks[..k], Client) + Inserted(Maker(AnthropicMessages), marks) + Tagged(blocks[k..], Client)
  }

  // ---------- small algebra ----------

  lemma {:induction false} KeepConcat(a: seq<Piece>, b: seq<Piece>, origins: set<Origin>)
    ensures Keep(a + b, origins) == Keep(a, origins) + Keep(b, origins)
  {
    if b == [] {
      assert a + b == a;
    } else {
      assert (a + b)[..|a + b| - 1] == a + b[..|b| - 1];
      KeepConcat(a, b[..|b| - 1], origins);
    }
  }

  lemma {:induction false} KeepTagged(values: seq<Value>, origin: Origin, origins: set<Origin>)
    ensures Keep(Tagged(values, origin), origins) == if origin in origins then Tagged(values, origin) else []
  {
    if values != [] {
      var shorter := values[..|values| - 1];
      assert Tagged(values, origin)[..|values| - 1] == Tagged(shorter, origin);
      KeepTagged(shorter, origin, origins);
    }
  }

  lemma {:induction false} InsertedValues(make: PinnedPing -> seq<Value>, marks: seq<Mark>)
    ensures Values(Inserted(make, marks)) == AllAdditions(make, Pins(marks))
  {
    if marks != [] {
      var shorter := marks[..|marks| - 1];
      InsertedValues(make, shorter);
      assert Pins(marks)[..|marks| - 1] == Pins(shorter);
      var last := marks[|marks| - 1];
      assert Values(Inserted(make, marks)) == Values(Inserted(make, shorter)) + make(last.pin);
    }
  }

  lemma {:induction false} InsertedKeep(make: PinnedPing -> seq<Value>, marks: seq<Mark>, origins: set<Origin>)
    ensures Keep(Inserted(make, marks), origins) == Inserted(make, KeepMarks(marks, origins))
  {
    if marks != [] {
      var shorter, last := marks[..|marks| - 1], marks[|marks| - 1];
      InsertedKeep(make, shorter, origins);
      KeepConcat(Inserted(make, shorter), Tagged(make(last.pin), last.origin), origins);
      KeepTagged(make(last.pin), last.origin, origins);
      if last.origin in origins {
        assert KeepMarks(marks, origins)[..|KeepMarks(marks, origins)| - 1] == KeepMarks(shorter, origins);
      } else {
        assert KeepMarks(marks, origins) == KeepMarks(shorter, origins);
      }
    }
  }

  lemma {:induction false} MarksAtPins(marks: seq<Mark>, anchor: nat)
    ensures Pins(MarksAt(marks, anchor)) == At(Pins(marks), anchor)
  {
    if marks != [] {
      var shorter := marks[..|marks| - 1];
      MarksAtPins(shorter, anchor);
      assert Pins(marks)[..|marks| - 1] == Pins(shorter);
    }
  }

  lemma {:induction false} MarksAtKeep(marks: seq<Mark>, anchor: nat, origins: set<Origin>)
    ensures KeepMarks(MarksAt(marks, anchor), origins) == MarksAt(KeepMarks(marks, origins), anchor)
  {
    if marks != [] {
      var shorter, last := marks[..|marks| - 1], marks[|marks| - 1];
      MarksAtKeep(shorter, anchor, origins);
      var kept, here := KeepMarks(marks, origins), MarksAt(marks, anchor);
      if last.origin in origins {
        assert kept[..|kept| - 1] == KeepMarks(shorter, origins);
      } else {
        assert kept == KeepMarks(shorter, origins);
      }
      if last.pin.anchor == anchor {
        assert here[..|here| - 1] == MarksAt(shorter, anchor);
      } else {
        assert here == MarksAt(shorter, anchor);
      }
    }
  }

  // ---------- Responses and Chat ----------

  lemma InsertedAtRenders(make: PinnedPing -> seq<Value>, marks: seq<Mark>, anchor: nat)
    ensures Values(InsertedAt(make, marks)(anchor)) == AddedAt(make, Pins(marks))(anchor)
  {
    InsertedValues(make, MarksAt(marks, anchor));
    MarksAtPins(marks, anchor);
  }

  lemma InsertedAtKeeps(make: PinnedPing -> seq<Value>, marks: seq<Mark>, anchor: nat, origins: set<Origin>)
    ensures Keep(InsertedAt(make, marks)(anchor), origins) == InsertedAt(make, KeepMarks(marks, origins))(anchor)
  {
    InsertedKeep(make, MarksAt(marks, anchor), origins);
    MarksAtKeep(marks, anchor, origins);
  }

  lemma ValuesConcat(a: seq<Piece>, b: seq<Piece>)
    ensures Values(a + b) == Values(a) + Values(b)
  {
  }

  lemma AroundRender(item: Value, isOutput: bool, inserted: seq<Piece>)
    ensures Values(AroundPiece(item, isOutput, inserted)) == Around(item, isOutput, Values(inserted))
  {
    ValuesConcat([Piece(item, Client)], inserted);
    ValuesConcat(inserted, [Piece(item, Client)]);
    assert Values([Piece(item, Client)]) == [item];
  }

  /** The tagged list is the injected list, tag by tag. */
  lemma {:induction false} ItemPiecesRender(isOutput: Value -> bool, inserted: nat -> seq<Piece>,
                                            added: nat -> seq<Value>, items: seq<Value>, n: nat)
    requires n <= |items|
    requires forall k: nat :: Values(inserted(k)) == added(k)
    ensures Values(ItemPieces(isOutput, inserted, items, n)) == WovenItems(isOutput, added, items, n)
  {
    if n > 0 {
      var item := items[n - 1];
      ItemPiecesRender(isOutput, inserted, added, items, n - 1);
      AroundRender(item, isOutput(item), inserted(n - 1));
      ValuesConcat(ItemPieces(isOutput, inserted, items, n - 1), AroundPiece(item, isOutput(item), inserted(n - 1)));
    }
  }

  lemma AroundKeep(item: Value, isOutput: bool, inserted: seq<Piece>, origins: set<Origin>)
    requires Client in origins
    ensures Keep(AroundPiece(item, isOutput, inserted), origins) == AroundPiece(item, isOutput, Keep(inserted, origins))
  {
    var own := [Piece(item, Client)];
    assert Keep(own, origins) == own by {
      assert own[..0] == [];
    }
    KeepConcat(own, inserted, origins);
    KeepConcat(inserted, own, origins);
  }

  /** `Keep` as a closure. */
  function Keeper(origins: set<Origin>): seq<Piece> -> seq<Piece> {
    (pieces: seq<Piece>) => Keep(pieces, origins)
  }

  /** An erasure that goes item by item and spares what came from the client. */
  ghost predicate ErasesByItem(keep: seq<Piece> -> seq<Piece>) {
    && keep([]) == []
    && forall item: Value, isOutput: bool, before: seq<Piece>, inserted: seq<Piece> ::
         keep(before + AroundPiece(item, isOutput, inserted)) == keep(before) + AroundPiece(item, isOutput, keep(inserted))
  }

  lemma KeeperErasesByItem(origins: set<Origin>)
    requires Client in origins
    ensures ErasesByItem(Keeper(origins))
  {
    forall item: Value, isOutput: bool, before: seq<Piece>, inserted: seq<Piece>
      ensures Keep(before + AroundPiece(item, isOutput, inserted), origins)
           == Keep(before, origins) + AroundPiece(item, isOutput, Keep(inserted, origins))
    {
      AroundKeep(item, isOutput, inserted, origins);
      KeepConcat(before, AroundPiece(item, isOutput, inserted), origins);
    }
  }

  /** Erasing pieces by origin is the same as never having injected them. */
  lemma {:induction false} ItemPiecesKeep(isOutput: Value -> bool, inserted: nat -> seq<Piece>, kept: nat -> seq<Piece>,
                                          items: seq<Value>, n: nat, keep: seq<Piece> -> seq<Piece>)
    requires n <= |items| && ErasesByItem(keep)
    requires forall k: nat :: keep(inserted(k)) == kept(k)
    ensures keep(ItemPieces(isOutput, inserted, items, n)) == ItemPieces(isOutput, kept, items, n)
  {
    if n > 0 {
      ItemPiecesKeep(isOutput, inserted, kept, items, n - 1, keep);
    }
  }

  lemma {:induction false} NothingInserted(isOutput: Value -> bool, inserted: nat -> seq<Piece>,
                                           items: seq<Value>, n: nat)
    requires n <= |items|
    requires forall k: nat :: inserted(k) == []
    ensures Values(ItemPieces(isOutput, inserted, items, n)) == items[..n]
  {
    if n > 0 {
      NothingInserted(isOutput, inserted, items, n - 1);
      AroundRender(items[n - 1], isOutput(items[n - 1]), []);
      ValuesConcat(ItemPieces(isOutput, inserted, items, n - 1), AroundPiece(items[n - 1], isOutput(items[n - 1]), []));
      assert items[..n] == items[..n - 1] + [items[n - 1]];
    }
  }

  lemma {:induction false} KeepOnlyClients(marks: seq<Mark>)
    requires forall m :: m in marks ==> m.origin != Client
    ensures KeepMarks(marks, {Client}) == []
  {
    if marks != [] {
      KeepOnlyClients(marks[..|marks| - 1]);
    }
  }

  /**
   A Responses or Chat injection is an erasable interleaving: the tagged list reads as the returned
   conversation; without its inserted pieces it is the client's conversation, in order; without its one-shot
   pieces it is what injecting only the durable pings returns. No other key of the body changes.
   */
  lemma ItemInjectionIsErasable(wire: Wire, body: Body, marks: seq<Mark>)
    requires wire.OpenAiResponses? || wire.OpenAiChat?
    requires marks != [] && forall m :: m in marks ==> m.origin != Client
    requires Inject(wire, body, Pins(marks)).Some?
    ensures body.Parsed? && Items(wire, body.root).Some?
    ensures var items := Items(wire, body.root).value;
            var out := Inject(wire, body, Pins(marks)).value;
            var pieces := ItemPieces(OutputTest(wire), InsertedAt(Maker(wire), marks), items, |items|);
            && out.Parsed?
            && Items(wire, out.root) == Some(Values(pieces))
            && Values(Keep(pieces, {Client})) == items
            && Values(Keep(pieces, {Client, Durable})) == Woven(wire, items, Pins(KeepMarks(marks, {Client, Durable})))
            && forall key :: key != ItemsKey(wire) ==> out.root.Get(key) == body.root.Get(key)
  {
    var items := Items(wire, body.root).value;
    WithItemsReads(wire, body.root, Woven(wire, items, Pins(marks)));
    WovenIsRendered(wire, items, marks);
    KeptPieces(wire, items, marks, {Client});
    KeptPieces(wire, items, marks, {Client, Durable});
    KeepOnlyClients(marks);
    NothingInserted(OutputTest(wire), InsertedAt(Maker(wire), []), items, |items|);
    assert items[..|items|] == items;
    WovenIsRendered(wire, items, KeepMarks(marks, {Client, Durable}));
  }

  lemma WovenIsRendered(wire: Wire, items: seq<Value>, marks: seq<Mark>)
    requires wire.OpenAiResponses? || wire.OpenAiChat?
    ensures Values(ItemPieces(OutputTest(wire), InsertedAt(Maker(wire), marks), items, |items|))
         == Woven(wire, items, Pins(marks))
  {
    forall k: nat {
      InsertedAtRenders(Maker(wire), marks, k);
    }
    ItemPiecesRender(OutputTest(wire), InsertedAt(Maker(wire), marks), AddedAt(Maker(wire), Pins(marks)), items, |items|);
  }

  lemma KeptPieces(wire: Wire, items: seq<Value>, marks: seq<Mark>, origins: set<Origin>)
    requires Client in origins
    ensures Keep(ItemPieces(OutputTest(wire), InsertedAt(Maker(wire), marks), items, |items|), origins)
         == ItemPieces(OutputTest(wire), InsertedAt(Maker(wire), KeepMarks(marks, origins)), items, |items|)
  {
    forall k: nat {
      InsertedAtKeeps(Maker(wire), marks, k, origins);
    }
    KeeperErasesByItem(origins);
    ItemPiecesKeep(OutputTest(wire), InsertedAt(Maker(wire), marks), InsertedAt(Maker(wire), KeepMarks(marks, origins)),
                   items, |items|, Keeper(origins));
  }

  /** An inserted item is a user message, never a tool output, and each ping inserts exactly one. */
  lemma AdditionIsOneUserItem(wire: Wire, ping: PinnedPing)
    requires wire.OpenAiResponses? || wire.OpenAiChat?
    ensures |Maker(wire)(ping)| == 1
    ensures !IsToolOutput(wire, Maker(wire)(ping)[0])
  {
  }

  /** Where a ping stands directly in front of a tool output. */
  ghost predicate Splits(isOutput: Value -> bool, pieces: seq<Piece>) {
    exists j :: 0 <= j < |pieces| - 1 && pieces[j].origin != Client && isOutput(pieces[j + 1].value)
  }

  /** Where the client has two consecutive outputs with an addition at the first of them. */
  ghost predicate AddsBetweenOutputs(isOutput: Value -> bool, inserted: nat -> seq<Piece>, items: seq<Value>, n: nat)
    requires n <= |items|
  {
    exists k :: 0 <= k < n - 1 && isOutput(items[k]) && isOutput(items[k + 1]) && inserted(k) != []
  }

  /** Only inserted pieces that are not themselves outputs. */
  ghost predicate Harmless(isOutput: Value -> bool, inserted: nat -> seq<Piece>) {
    forall k: nat, j :: 0 <= j < |inserted(k)| ==> inserted(k)[j].origin != Client && !isOutput(inserted(k)[j].value)
  }

  lemma SplitsConcat(isOutput: Value -> bool, a: seq<Piece>, b: seq<Piece>)
    ensures Splits(isOutput, a + b)
       <==> Splits(isOutput, a) || Splits(isOutput, b)
            || (a != [] && b != [] && a[|a| - 1].origin != Client && isOutput(b[0].value))
  {
    var all := a + b;
    forall j | 0 <= j < |all| - 1
      ensures j + 1 < |a| ==> all[j] == a[j] && all[j + 1] == a[j + 1]
      ensures j >= |a| ==> all[j] == b[j - |a|] && all[j + 1] == b[j + 1 - |a|]
      ensures j + 1 == |a| ==> all[j] == a[|a| - 1] && all[j + 1] == b[0]
    {}
    if Splits(isOutput, a) {
      var j :| 0 <= j < |a| - 1 && a[j].origin != Client && isOutput(a[j + 1].value);
      assert all[j].origin != Client && isOutput(all[j + 1].value);
    }
    if Splits(isOutput, b) {
      var j :| 0 <= j < |b| - 1 && b[j].origin != Client && isOutput(b[j + 1].value);
      assert all[|a| + j].origin != Client && isOutput(all[|a| + j + 1].value);
    }
    if a != [] && b != [] && a[|a| - 1].origin != Client && isOutput(b[0].value) {
      assert all[|a| - 1].origin != Client && isOutput(all[|a| - 1 + 1].value);
    }
  }

  /** What one item becomes: it never splits within itself, starts with an output or not, and ends with a ping or not. */
  lemma AroundShape(isOutput: Value -> bool, item: Value, inserted: seq<Piece>)
    requires forall j :: 0 <= j < |inserted| ==> inserted[j].origin != Client && !isOutput(inserted[j].value)
    ensures var around := AroundPiece(item, isOutput(item), inserted);
      && around != [] && !Splits(isOutput, around)
      && (isOutput(around[0].value) <==> isOutput(item))
      && (around[|around| - 1].origin != Client <==> isOutput(item) && inserted != [])
  {}

  lemma {:induction false} SplitsExactly(isOutput: Value -> bool, inserted: nat -> seq<Piece>, items: seq<Value>, n: nat)
    requires n <= |items| && Harmless(isOutput, inserted)
    ensures n > 0 ==>
      var pieces := ItemPieces(isOutput, inserted, items, n);
      pieces != [] && (pieces[|pieces| - 1].origin != Client <==> isOutput(items[n - 1]) && inserted(n - 1) != [])
    ensures Splits(isOutput, ItemPieces(isOutput, inserted, items, n)) <==> AddsBetweenOutputs(isOutput, inserted, items, n)
  {
    if n > 0 {
      SplitsExactly(isOutput, inserted, items, n - 1);
      var item := items[n - 1];
      AroundShape(isOutput, item, inserted(n - 1));
      SplitsConcat(isOutput, ItemPieces(isOutput, inserted, items, n - 1), AroundPiece(item, isOutput(item), inserted(n - 1)));
      AddsOneMore(isOutput, inserted, items, n);
    }
  }

  lemma AddsOneMore(isOutput: Value -> bool, inserted: nat -> seq<Piece>, items: seq<Value>, n: nat)
    requires 0 < n <= |items|
    ensures AddsBetweenOutputs(isOutput, inserted, items, n)
       <==> AddsBetweenOutputs(isOutput, inserted, items, n - 1)
            || (n > 1 && isOutput(items[n - 2]) && isOutput(items[n - 1]) && inserted(n - 2) != [])
  {
    if n > 1 && isOutput(items[n - 2]) && isOutput(items[n - 1]) && inserted(n - 2) != [] {
      assert isOutput(items[n - 2 + 1]);
    }
  }

  /** A ping anchored at an output that another output follows. */
  ghost predicate MarkedBetweenOutputs(isOutput: Value -> bool, items: seq<Value>, marks: seq<Mark>) {
    exists m :: m in marks && m.pin.anchor + 1 < |items|
                && isOutput(items[m.pin.anchor]) && isOutput(items[m.pin.anchor + 1])
  }

  lemma {:induction false} MarksAtHolds(marks: seq<Mark>, anchor: nat)
    ensures forall m :: m in MarksAt(marks, anchor) <==> m in marks && m.pin.anchor == anchor
  {
    if marks != [] {
      MarksAtHolds(marks[..|marks| - 1], anchor);
    }
  }

  lemma {:induction false} InsertedShape(wire: Wire, marks: seq<Mark>)
    requires wire.OpenAiResponses? || wire.OpenAiChat?
    requires forall m :: m in marks ==> m.origin != Client
    ensures |Inserted(Maker(wire), marks)| == |marks|
    ensures forall p :: p in Inserted(Maker(wire), marks) ==> p.origin != Client && !IsToolOutput(wire, p.value)
  {
    if marks != [] {
      InsertedShape(wire, marks[..|marks| - 1]);
      AdditionIsOneUserItem(wire, marks[|marks| - 1].pin);
    }
  }

  /**
   A Responses or Chat injection puts a ping directly in front of a tool output exactly when some ping is
   anchored at an output that another output follows. In particular a batch anchored at the final item never does.
   */
  lemma PingsSplitOutputsExactlyWhen(wire: Wire, items: seq<Value>, marks: seq<Mark>)
    requires wire.OpenAiResponses? || wire.OpenAiChat?
    requires forall m :: m in marks ==> m.origin != Client
    ensures Splits(OutputTest(wire), ItemPieces(OutputTest(wire), InsertedAt(Maker(wire), marks), items, |items|))
       <==> MarkedBetweenOutputs(OutputTest(wire), items, marks)
    ensures (forall m :: m in marks ==> m.pin.anchor + 1 == |items|)
        ==> !Splits(OutputTest(wire), ItemPieces(OutputTest(wire), InsertedAt(Maker(wire), marks), items, |items|))
  {
    MarksInsert(wire, marks);
    SplitsExactly(OutputTest(wire), InsertedAt(Maker(wire), marks), items, |items|);
    AddsWhereMarked(OutputTest(wire), InsertedAt(Maker(wire), marks), items, marks);
  }

  lemma MarksInsert(wire: Wire, marks: seq<Mark>)
    requires wire.OpenAiResponses? || wire.OpenAiChat?
    requires forall m :: m in marks ==> m.origin != Client
    ensures Harmless(OutputTest(wire), InsertedAt(Maker(wire), marks))
    ensures forall k: nat :: InsertedAt(Maker(wire), marks)(k) != [] <==> exists m :: m in marks && m.pin.anchor == k
  {
    forall k: nat
      ensures forall p :: p in InsertedAt(Maker(wire), marks)(k) ==> p.origin != Client && !OutputTest(wire)(p.value)
      ensures InsertedAt(Maker(wire), marks)(k) != [] <==> exists m :: m in marks && m.pin.anchor == k
    {
      InsertedAtShape(wire, marks, k);
    }
  }

  lemma InsertedAtShape(wire: Wire, marks: seq<Mark>, k: nat)
    requires wire.OpenAiResponses? || wire.OpenAiChat?
    requires forall m :: m in marks ==> m.origin != Client
    ensures forall p :: p in InsertedAt(Maker(wire), marks)(k) ==> p.origin != Client && !OutputTest(wire)(p.value)
    ensures InsertedAt(Maker(wire), marks)(k) != [] <==> exists m :: m in marks && m.pin.anchor == k
  {
    MarksAtHolds(marks, k);
    InsertedShape(wire, MarksAt(marks, k));
    if MarksAt(marks, k) != [] {
      assert MarksAt(marks, k)[0] in MarksAt(marks, k);
    }
  }

  lemma AddsWhereMarked(isOutput: Value -> bool, inserted: nat -> seq<Piece>, items: seq<Value>, marks: seq<Mark>)
    requires forall k: nat :: inserted(k) != [] <==> exists m :: m in marks && m.pin.anchor == k
    ensures AddsBetweenOutputs(isOutput, inserted, items, |items|)
       <==> MarkedBetweenOutputs(isOutput, items, marks)
  {
    if AddsBetweenOutputs(isOutput, inserted, items, |items|) {
      var k: nat :| k < |items| - 1 && isOutput(items[k]) && isOutput(items[k + 1]) && inserted(k) != [];
      var m :| m in marks && m.pin.anchor == k;
    }
    if MarkedBetweenOutputs(isOutput, items, marks) {
      var m :| m in marks && m.pin.anchor + 1 < |items| && isOutput(items[m.pin.anchor]) && isOutput(items[m.pin.anchor + 1]);
      assert inserted(m.pin.anchor) != [];
    }
  }

  // ---------- Anthropic ----------

  lemma {:induction false} WovenMessageAt(messages: seq<Value>, pings: seq<PinnedPing>, n: nat)
    requires n <= |messages|
    ensures |WovenMessages(messages, pings, n)| == n
    ensures forall i :: 0 <= i < n ==> WovenMessages(messages, pings, n)[i] == WovenMessage(messages[i], At(pings, i))
  {
    if n > 0 {
      WovenMessageAt(messages, pings, n - 1);
    }
  }

  lemma {:induction false} ImagePartsAreNotResults(images: seq<Image>)
    ensures forall v :: v in ImageParts(AnthropicMessages, images) ==> !IsToolResult(v)
  {
    if images != [] {
      ImagePartsAreNotResults(images[1..]);
    }
  }

  lemma {:induction false} AdditionsAreNotResults(pings: seq<PinnedPing>)
    ensures forall v :: v in AllAdditions(Maker(AnthropicMessages), pings) ==> !IsToolResult(v)
  {
    if pings != [] {
      AdditionsAreNotResults(pings[..|pings| - 1]);
      ImagePartsAreNotResults(pings[|pings| - 1].attachments);
    }
  }

  /** The tool results of a message, and where they stand, survive a splice; nothing new is a tool result. */
  lemma SplicedResults(blocks: seq<Value>, additions: seq<Value>)
    requires forall v :: v in additions ==> !IsToolResult(v)
    ensures forall j :: 0 <= j < |Spliced(blocks, additions)| ==>
              (IsToolResult(Spliced(blocks, additions)[j]) <==> j < |blocks| && IsToolResult(blocks[j]))
    ensures forall j :: 0 <= j < |blocks| && IsToolResult(blocks[j]) ==> Spliced(blocks, additions)[j] == blocks[j]
  {
    var k, r := InsertionPoint(blocks), Spliced(blocks, additions);
    forall j | 0 <= j < |r|
      ensures IsToolResult(r[j]) <==> j < |blocks| && IsToolResult(blocks[j])
      ensures j < |blocks| && IsToolResult(blocks[j]) ==> r[j] == blocks[j]
    {
      if j >= k + |additions| {
        assert r[j] == blocks[j - |additions|];
      } else if j >= k {
        assert r[j] == additions[j - k];
      }
    }
  }

  lemma BlockPiecesRender(blocks: seq<Value>, marks: seq<Mark>)
    ensures Values(BlockPieces(blocks, marks)) == Spliced(blocks, AllAdditions(Maker(AnthropicMessages), Pins(marks)))
  {
    InsertedValues(Maker(AnthropicMessages), marks);
  }

  lemma BlockPiecesKeep(blocks: seq<Value>, marks: seq<Mark>, origins: set<Origin>)
    requires Client in origins
    ensures Keep(BlockPieces(blocks, marks), origins) == BlockPieces(blocks, KeepMarks(marks, origins))
  {
    var k := InsertionPoint(blocks);
    var front, here, back := Tagged(blocks[..k], Client), Inserted(Maker(AnthropicMessages), marks), Tagged(blocks[k..], Client);
    KeepConcat(front + here, back, origins);
    KeepConcat(front, here, origins);
    KeepTagged(blocks[..k], Client, origins);
    KeepTagged(blocks[k..], Client, origins);
    InsertedKeep(Maker(AnthropicMessages), marks, origins);
  }

  /**
   An Anthropic injection, message by message. An unanchored message is untouched. In an anchored one only the
   content changes; the tagged blocks read as the new content; without the inserted blocks they are the
   client's blocks in order (a string counting as its one text block); without the one-shot blocks they are what the
   durable pings alone would give; and every tool result keeps its index.
   */
  lemma MessageInjectionIsErasable(body: Body, marks: seq<Mark>, i: nat)
    requires marks != [] && forall m :: m in marks ==> m.origin != Client
    requires Inject(AnthropicMessages, body, Pins(marks)).Some?
    requires body.Parsed? && Items(AnthropicMessages, body.root).Some?
    requires i < |Items(AnthropicMessages, body.root).value|
    ensures var messages := Items(AnthropicMessages, body.root).value;
            var out := Inject(AnthropicMessages, body, Pins(marks)).value;
            && out.Parsed? && Items(AnthropicMessages, out.root).Some?
            && |Items(AnthropicMessages, out.root).value| == |messages|
            && var here, after := MarksAt(marks, i), Items(AnthropicMessages, out.root).value[i];
               if here == [] then after == messages[i]
               else
                 && Blocks(messages[i]).Some?
                 && var blocks := Blocks(messages[i]).value;
                    var pieces := BlockPieces(blocks, here);
                    && after == messages[i].With("content", Array(Values(pieces)))
                    && Values(Keep(pieces, {Client})) == blocks
                    && Keep(pieces, {Client, Durable}) == BlockPieces(blocks, KeepMarks(here, {Client, Durable}))
                    && (forall j :: 0 <= j < |pieces| ==>
                          (IsToolResult(Values(pieces)[j]) <==> j < |blocks| && IsToolResult(blocks[j])))
                    && (forall j :: 0 <= j < |blocks| && IsToolResult(blocks[j]) ==> Values(pieces)[j] == blocks[j])
  {
    var messages := Items(AnthropicMessages, body.root).value;
    var here := MarksAt(marks, i);
    WithItemsReads(AnthropicMessages, body.root, Woven(AnthropicMessages, messages, Pins(marks)));
    WovenMessageAt(messages, Pins(marks), |messages|);
    MarksAtPins(marks, i);
    MarksAtHolds(marks, i);
    if here == [] {
      assert Pins(here) == [];
    } else {
      assert here[0] in here;
      assert here[0].pin == Pins(here)[0];
      AtHolds(Pins(marks), i);
      assert AnchorFits(AnthropicMessages, messages, here[0].pin.anchor);
      var blocks := Blocks(messages[i]).value;
      BlockPiecesRender(blocks, here);
      BlockPiecesKeep(blocks, here, {Client});
      BlockPiecesKeep(blocks, here, {Client, Durable});
      KeepOnlyClients(here);
      ClientsOnly(blocks);
      AdditionsAreNotResults(Pins(here));
      SplicedResults(blocks, AllAdditions(Maker(AnthropicMessages), Pins(here)));
    }
  }

  lemma ClientsOnly(blocks: seq<Value>)
    ensures Values(BlockPieces(blocks, [])) == blocks
  {
  }

  // ---------- the form in which successive requests are compared ----------

  /** A message with string content as its one text block. */
  function OneBlock(message: Value): Value {
    match Blocks(message)
    case Some(blocks) => message.With("content", Array(blocks))
    case None => message
  }

  function CanonicalMessage(message: Value, pings: seq<PinnedPing>): Value {
    match Blocks(message)
    case Some(blocks) => message.With("content", Array(Spliced(blocks, AllAdditions(Maker(AnthropicMessages), pings))))
    case None => message
  }

  /** An injected conversation, up to the one-block form of Anthropic string content. */
  function Canonical(wire: Wire, items: seq<Value>, pings: seq<PinnedPing>): seq<Value> {
    if wire.AnthropicMessages?
    then seq(|items|, i requires 0 <= i < |items| => CanonicalMessage(items[i], At(pings, i)))
    else WovenItems(OutputTest(wire), AddedAt(Maker(wire), pings), items, |items|)
  }

  /** `Canonical` is the injected conversation itself, with each Anthropic string content in one-block form. */
  lemma CanonicalIsInjected(wire: Wire, items: seq<Value>, pings: seq<PinnedPing>)
    ensures !wire.AnthropicMessages? ==> Canonical(wire, items, pings) == Woven(wire, items, pings)
    ensures wire.AnthropicMessages? ==>
              && |Woven(wire, items, pings)| == |Canonical(wire, items, pings)|
              && forall i :: 0 <= i < |items| ==> Canonical(wire, items, pings)[i] == OneBlock(Woven(wire, items, pings)[i])
  {
    if wire.AnthropicMessages? {
      WovenMessageAt(items, pings, |items|);
      forall i | 0 <= i < |items|
        ensures CanonicalMessage(items[i], At(pings, i)) == OneBlock(WovenMessage(items[i], At(pings, i)))
      {
        CanonicalMessageIsWoven(items[i], At(pings, i));
      }
    }
  }

  lemma CanonicalMessageIsWoven(message: Value, pings: seq<PinnedPing>)
    ensures CanonicalMessage(message, pings) == OneBlock(WovenMessage(message, pings))
  {
    if Blocks(message).Some? {
      var blocks := Blocks(message).value;
      var additions := AllAdditions(Maker(AnthropicMessages), pings);
      if pings == [] {
        assert Spliced(blocks, additions) == blocks;
      } else {
        GetWith(message, "content", Array(Spliced(blocks, additions)), "content");
        WithTwice(message, "content", Array(Spliced(blocks, additions)), Array(Spliced(blocks, additions)));
      }
    }
  }

  /**
   Re-injecting old pins into a longer conversation, with new pins only past the old end, extends the earlier
   injected conversation: a request that differs only by appended items keeps its cached prefix.
   */
  lemma CanonicalPrefix(wire: Wire, items: seq<Value>, longer: seq<Value>, pins: seq<PinnedPing>, extra: seq<PinnedPing>)
    requires items <= longer
    requires forall p :: p in extra ==> p.anchor >= |items|
    ensures Canonical(wire, items, pins) <= Canonical(wire, longer, pins + extra)
  {
    forall k | 0 <= k < |items|
      ensures At(pins + extra, k) == At(pins, k)
    {
      AtConcat(pins, extra, k);
      NoneAt(extra, k);
    }
    if !wire.AnthropicMessages? {
      var earlier, later := AddedAt(Maker(wire), pins), AddedAt(Maker(wire), pins + extra);
      SameWoven(OutputTest(wire), earlier, later, items, longer, |items|);
      WovenGrows(OutputTest(wire), later, longer, |items|, |longer|);
    }
  }

  lemma {:induction false} NoneAt(pings: seq<PinnedPing>, anchor: nat)
    requires forall p :: p in pings ==> p.anchor != anchor
    ensures At(pings, anchor) == []
  {
    if pings != [] {
      NoneAt(pings[..|pings| - 1], anchor);
    }
  }

  lemma {:induction false} AtConcat(a: seq<PinnedPing>, b: seq<PinnedPing>, anchor: nat)
    ensures At(a + b, anchor) == At(a, anchor) + At(b, anchor)
  {
    if b == [] {
      assert a + b == a;
    } else {
      assert (a + b)[..|a + b| - 1] == a + b[..|b| - 1];
      AtConcat(a, b[..|b| - 1], anchor);
    }
  }

  lemma {:induction false} SameWoven(isOutput: Value -> bool, earlier: nat -> seq<Value>, later: nat -> seq<Value>,
                                     items: seq<Value>, longer: seq<Value>, n: nat)
    requires n <= |items| && items <= longer
    requires forall k: nat :: k < n ==> earlier(k) == later(k)
    ensures WovenItems(isOutput, earlier, items, n) == WovenItems(isOutput, later, longer, n)
  {
    if n > 0 {
      SameWoven(isOutput, earlier, later, items, longer, n - 1);
    }
  }

  lemma {:induction false} WovenGrows(isOutput: Value -> bool, added: nat -> seq<Value>, items: seq<Value>, m: nat, n: nat)
    requires m <= n <= |items|
    ensures WovenItems(isOutput, added, items, m) <= WovenItems(isOutput, added, items, n)
  {
    if m < n {
      WovenGrows(isOutput, added, items, m, n - 1);
    }
  }
}
