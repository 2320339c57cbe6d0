/**
 Ping injection (`src/transform.rs:296-479`). `Inject` is the specification: which bodies can carry a batch
 of pinned pings, and what they look like afterwards. The methods at the end are the source's loops.
 */
module Injection {
  import opened Wrappers
  import opened Json
  import opened Pings

  datatype Wire = AnthropicMessages | OpenAiResponses | OpenAiChat | Opaque

  /** A request body: bytes that parse to a document, or bytes that do not. */
  datatype Body = Parsed(root: Value) | Unparseable(bytes: seq<nat>)

  // ---------- the conversation inside a body ----------

  function ItemsKey(wire: Wire): string {
    if wire.OpenAiResponses? then "input" else "messages"
  }

  /** The conversation items an injection works on; a bare Responses string counts as one item. */
  function Items(wire: Wire, root: Value): Option<seq<Value>> {
    match wire
    case Opaque => None
    case OpenAiResponses =>
      (match root.Get("input")
       case Some(String(s)) => Some([String(s)])
       case Some(Array(items)) => Some(items)
       case _ => None)
    case _ => root.GetArray("messages")
  }

  function WithItems(wire: Wire, root: Value, items: seq<Value>): Value {
    root.With(ItemsKey(wire), Array(items))
  }

  function ConversationLen(wire: Wire, body: Body): Option<nat> {
    match body
    case Unparseable(_) => None
    case Parsed(root) => match Items(wire, root) case None => None case Some(items) => Some(|items|)
  }

  /** Rewriting the items gives a body with exactly those items and every other key as it was. */
  lemma WithItemsReads(wire: Wire, root: Value, items: seq<Value>)
    requires Items(wire, root).Some?
    ensures Items(wire, WithItems(wire, root, items)) == Some(items)
    ensures forall key :: key != ItemsKey(wire) ==> WithItems(wire, root, items).Get(key) == root.Get(key)
  {
    forall key {
      GetWith(root, ItemsKey(wire), Array(items), key);
    }
  }

  // ---------- what a ping becomes on each wire ----------

  function Text(kind: string, text: string): Value {
    Object([Field("type", String(kind)), Field("text", String(text))])
  }

  function DataUrl(image: Image): string {
    "data:" + image.mimeType + ";base64," + image.dataBase64
  }

  function ImagePart(wire: Wire, image: Image): Value {
    match wire
    case AnthropicMessages =>
      Object([Field("type", String("image")),
              Field("source", Object([Field("type", String("base64")), Field("media_type", String(image.mimeType)),
                                      Field("data", String(image.dataBase64))]))])
    case OpenAiResponses =>
      Object([Field("type", String("input_image")), Field("image_url", String(DataUrl(image)))])
    case _ =>
      Object([Field("type", String("image_url")),
              Field("image_url", Object([Field("url", String(DataUrl(image)))]))])
  }

  function TextKind(wire: Wire): string {
    if wire.OpenAiResponses? then "input_text" else "text"
  }

  function ImageParts(wire: Wire, images: seq<Image>): seq<Value> {
    if images == [] then [] else
    (match images[0].altText case None => [] case Some(alt) => [Text(TextKind(wire), alt)])
    + [ImagePart(wire, images[0])] + ImageParts(wire, images[1..])
  }

  /** A ping's content parts: its text, then each image behind its alternative text. */
  function Parts(wire: Wire, ping: PinnedPing): seq<Value> {
    (if ping.text == "" then [] else [Text(TextKind(wire), ping.text)]) + ImageParts(wire, ping.attachments)
  }

  function ResponsesItem(ping: PinnedPing): Value {
    Object([Field("type", String("message")), Field("role", String("user")),
            Field("content", Array(Parts(OpenAiResponses, ping)))])
  }

  function ChatItem(ping: PinnedPing): Value {
    Object([Field("role", String("user")),
            Field("content", if ping.attachments == [] then String(ping.text) else Array(Parts(OpenAiChat, ping)))])
  }

  /** What one ping inserts: content blocks on Anthropic, a whole user item elsewhere. */
  function Additions(wire: Wire, ping: PinnedPing): seq<Value> {
    match wire
    case AnthropicMessages => Parts(AnthropicMessages, ping)
    case OpenAiResponses => [ResponsesItem(ping)]
    case _ => [ChatItem(ping)]
  }

  /** `Additions` as the closure the insertion loops are handed. */
  function Maker(wire: Wire): PinnedPing -> seq<Value> {
    (ping: PinnedPing) => Additions(wire, ping)
  }

  function AllAdditions(make: PinnedPing -> seq<Value>, pings: seq<PinnedPing>): seq<Value> {
    if pings == [] then []
    else AllAdditions(make, pings[..|pings| - 1]) + make(pings[|pings| - 1])
  }

  /** The pings of a batch anchored at one item, in batch order. */
  function At(pings: seq<PinnedPing>, anchor: nat): seq<PinnedPing> {
    if pings == [] then []
    else At(pings[..|pings| - 1], anchor)
         + (if pings[|pings| - 1].anchor == anchor then [pings[|pings| - 1]] else [])
  }

  // ---------- Responses and Chat: insertion between items ----------

  predicate IsToolOutput(wire: Wire, item: Value) {
    match wire
    case OpenAiResponses =>
      var kind := item.GetStr("type");
      kind == Some("function_call_output") || kind == Some("custom_tool_call_output")
    case OpenAiChat => item.GetStr("role") == Some("tool")
    case _ => false
  }

  /** `IsToolOutput` as the closure `insert_after_tool_outputs` is handed. */
  function OutputTest(wire: Wire): Value -> bool {
    (item: Value) => IsToolOutput(wire, item)
  }

  function Around(item: Value, isOutput: bool, additions: seq<Value>): seq<Value> {
    if isOutput then [item] + additions else additions + [item]
  }

  /** What a batch adds at each item. */
  function AddedAt(make: PinnedPing -> seq<Value>, pings: seq<PinnedPing>): nat -> seq<Value> {
    (anchor: nat) => AllAdditions(make, At(pings, anchor))
  }

  /** The first `n` items, each with its additions in place. */
  function WovenItems(isOutput: Value -> bool, added: nat -> seq<Value>, items: seq<Value>, n: nat): seq<Value>
    requires n <= |items|
  {
    if n == 0 then [] else
    WovenItems(isOutput, added, items, n - 1) + Around(items[n - 1], isOutput(items[n - 1]), added(n - 1))
  }

  // ---------- Anthropic: insertion inside the anchored message ----------

  predicate IsToolResult(block: Value) {
    block.GetStr("type") == Some("tool_result")
  }

  /** One past the last tool result, 0 when there is none. */
  function InsertionPoint(blocks: seq<Value>): (k: nat)
    ensures k <= |blocks|
    ensures k > 0 ==> IsToolResult(blocks[k - 1])
    ensures forall j :: k <= j < |blocks| ==> !IsToolResult(blocks[j])
  {
    if blocks == [] then 0
    else if IsToolResult(blocks[|blocks| - 1]) then |blocks|
    else InsertionPoint(blocks[..|blocks| - 1])
  }

  /** A message's content as blocks, when it has content that can take more of them. */
  function Blocks(message: Value): Option<seq<Value>> {
    match message.Get("content")
    case Some(String(s)) => Some([Text("text", s)])
    case Some(Array(blocks)) => Some(blocks)
    case _ => None
  }

  function Spliced(blocks: seq<Value>, additions: seq<Value>): seq<Value> {
    var k := InsertionPoint(blocks);
    blocks[..k] + additions + blocks[k..]
  }

  function WovenMessage(message: Value, pings: seq<PinnedPing>): Value {
    match Blocks(message)
    case Some(blocks) =>
      if pings == [] then message
      else message.With("content", Array(Spliced(blocks, AllAdditions(Maker(AnthropicMessages), pings))))
    case None => message
  }

  function WovenMessages(messages: seq<Value>, pings: seq<PinnedPing>, n: nat): seq<Value>
    requires n <= |messages|
  {
    if n == 0 then [] else
    WovenMessages(messages, pings, n - 1) + [WovenMessage(messages[n - 1], At(pings, n - 1))]
  }

  // ---------- acceptance and the whole injection ----------

  predicate IsUser(message: Value) {
    message.GetStr("role") == Some("user")
  }

  /** Whether the item at one anchor can carry pings on this wire. */
  predicate AnchorFits(wire: Wire, items: seq<Value>, anchor: nat) {
    && anchor < |items|
    && (wire.AnthropicMessages? ==> IsUser(items[anchor]) && Blocks(items[anchor]).Some?)
  }

  predicate Accepts(wire: Wire, items: seq<Value>, pings: seq<PinnedPing>) {
    forall p :: p in pings ==> AnchorFits(wire, items, p.anchor)
  }

  function Woven(wire: Wire, items: seq<Value>, pings: seq<PinnedPing>): seq<Value> {
    if wire.AnthropicMessages? then WovenMessages(items, pings, |items|)
    else WovenItems(OutputTest(wire), AddedAt(Maker(wire), pings), items, |items|)
  }

  function Inject(wire: Wire, body: Body, pings: seq<PinnedPing>): Option<Body> {
    if pings == [] then Some(body)
    else if body.Unparseable? then None
    else match Items(wire, body.root)
      case None => None
      case Some(items) =>
        if Accepts(wire, items, pings) then Some(Parsed(WithItems(wire, body.root, Woven(wire, items, pings))))
        else None
  }

  // ---------- the source's loops ----------

  /** The inner filtered loop: what the pings at one anchor add, in batch order. */
  method CollectAdditions(make: PinnedPing -> seq<Value>, pings: seq<PinnedPing>, anchor: nat)
    returns (additions: seq<Value>)
    ensures additions == AllAdditions(make, At(pings, anchor)) == AddedAt(make, pings)(anchor)
  {
    additions := [];
    for i := 0 to |pings|
      invariant additions == AllAdditions(make, At(pings[..i], anchor))
    {
      assert pings[..i + 1][..i] == pings[..i];
      if pings[i].anchor == anchor {
        ghost var here := At(pings[..i], anchor);
        assert At(pings[..i + 1], anchor)[..|here|] == here;
        additions := additions + make(pings[i]);
      } else {
        assert At(pings[..i + 1], anchor) == At(pings[..i], anchor);
      }
    }
    assert pings[..|pings|] == pings;
  }

  /** One item's pushes: pings go in front of an ordinary item and behind a tool output. */
  method Place(item: Value, isOutput: bool, here: seq<Value>) returns (placed: seq<Value>)
    ensures placed == Around(item, isOutput, here)
  {
    placed := [];
    if !isOutput {
      placed := placed + here;
    }
    placed := placed + [item];
    if isOutput {
      placed := placed + here;
    }
  }

  /** The rebuilding loop of `insert_after_tool_outputs`. */
  method Rebuild(items: seq<Value>, pings: seq<PinnedPing>, isOutput: Value -> bool,
                 make: PinnedPing -> seq<Value>)
    returns (rebuilt: seq<Value>)
    ensures rebuilt == WovenItems(isOutput, AddedAt(make, pings), items, |items|)
  {
    rebuilt := [];
    for index := 0 to |items|
      invariant rebuilt == WovenItems(isOutput, AddedAt(make, pings), items, index)
    {
      var here := CollectAdditions(make, pings, index);
      var placed := Place(items[index], isOutput(items[index]), here);
      rebuilt := rebuilt + placed;
    }
  }

  /** `insert_after_tool_outputs`: nothing is rewritten unless every anchor exists. */
  method InsertAfterToolOutputs(items: seq<Value>, pings: seq<PinnedPing>, isOutput: Value -> bool,
                                make: PinnedPing -> seq<Value>)
    returns (r: Option<seq<Value>>)
    ensures r == if forall p :: p in pings ==> p.anchor < |items|
                 then Some(WovenItems(isOutput, AddedAt(make, pings), items, |items|)) else None
  {
    for i := 0 to |pings|
      invariant forall j :: 0 <= j < i ==> pings[j].anchor < |items|
    {
      if pings[i].anchor >= |items| {
        assert pings[i] in pings;
        return None;
      }
    }
    var rebuilt := Rebuild(items, pings, isOutput, make);
    return Some(rebuilt);
  }

  /** The checking loop of `inject_anthropic`: every anchor names a user message. */
  method AllAnchorsAreUsers(messages: seq<Value>, pings: seq<PinnedPing>) returns (ok: bool)
    ensures ok <==> forall p :: p in pings ==> p.anchor < |messages| && IsUser(messages[p.anchor])
  {
    for i := 0 to |pings|
      invariant forall j :: 0 <= j < i ==> pings[j].anchor < |messages| && IsUser(messages[pings[j].anchor])
    {
      if pings[i].anchor >= |messages| || !IsUser(messages[pings[i].anchor]) {
        assert pings[i] in pings;
        return false;
      }
    }
    return true;
  }

  /** One pass of the rewriting loop: the message at an anchor that has pings. */
  method SpliceMessage(message: Value, pings: seq<PinnedPing>, anchor: nat) returns (r: Option<Value>)
    requires At(pings, anchor) != []
    ensures r.Some? == Blocks(message).Some?
    ensures r.Some? ==> r.value == WovenMessage(message, At(pings, anchor))
  {
    match Blocks(message) {
      case None => return None;
      case Some(blocks) =>
        var additions := CollectAdditions(Maker(AnthropicMessages), pings, anchor);
        return Some(message.With("content", Array(Spliced(blocks, additions))));
    }
  }

  /** `inject_anthropic`: a message whose content cannot take blocks abandons the whole batch. */
  method InjectAnthropic(messages: seq<Value>, pings: seq<PinnedPing>) returns (r: Option<seq<Value>>)
    ensures r == if Accepts(AnthropicMessages, messages, pings) then Some(Woven(AnthropicMessages, messages, pings)) else None
  {
    var users := AllAnchorsAreUsers(messages, pings);
    if !users {
      return None;
    }
    var rewritten := messages;
    for anchor := 0 to |messages|
      invariant |rewritten| == |messages|
      invariant rewritten[..anchor] == WovenMessages(messages, pings, anchor)
      invariant rewritten[anchor..] == messages[anchor..]
      invariant forall p :: p in pings && p.anchor < anchor ==> Blocks(messages[p.anchor]).Some?
    {
      assert rewritten[anchor] == rewritten[anchor..][0] == messages[anchor];
      NextAnchor(messages, pings, anchor);
      if At(pings, anchor) == [] {
        NothingToWeave(messages[anchor]);
      } else {
        var woven := SpliceMessage(rewritten[anchor], pings, anchor);
        if woven.None? {
          return None;
        }
        rewritten := rewritten[anchor := woven.value];
      }
      assert rewritten[..anchor + 1] == rewritten[..anchor] + [rewritten[anchor]];
    }
    assert rewritten[..|messages|] == rewritten;
    return Some(rewritten);
  }

  /** Whether every anchor up to and including one can take blocks, and what stops the batch when it cannot. */
  lemma NextAnchor(messages: seq<Value>, pings: seq<PinnedPing>, anchor: nat)
    requires anchor < |messages|
    requires forall p :: p in pings && p.anchor < anchor ==> p.anchor < |messages| && Blocks(messages[p.anchor]).Some?
    ensures At(pings, anchor) == [] || Blocks(messages[anchor]).Some? ==>
      forall p :: p in pings && p.anchor < anchor + 1 ==> Blocks(messages[p.anchor]).Some?
    ensures At(pings, anchor) != [] && Blocks(messages[anchor]).None? ==> !Accepts(AnthropicMessages, messages, pings)
  {
    AtHolds(pings, anchor);
    if At(pings, anchor) != [] {
      assert At(pings, anchor)[0] in At(pings, anchor);
    }
  }

  lemma NothingToWeave(message: Value)
    ensures WovenMessage(message, []) == message
  {
  }

  /** `inject_pings`. */
  method InjectPings(wire: Wire, body: Body, pings: seq<PinnedPing>) returns (r: Option<Body>)
    ensures r == Inject(wire, body, pings)
  {
    if pings == [] {
      return Some(body);
    }
    if body.Unparseable? {
      return None;
    }
    match Items(wire, body.root) {
      case None => return None;
      case Some(items) =>
        var woven;
        if wire.AnthropicMessages? {
          woven := InjectAnthropic(items, pings);
        } else {
          woven := InsertAfterToolOutputs(items, pings, OutputTest(wire), Maker(wire));
        }
        match woven {
          case None => return None;
          case Some(rewritten) => return Some(Parsed(WithItems(wire, body.root, rewritten)));
        }
    }
  }

  /** `At` picks exactly the pings of the batch with that anchor. */
  lemma {:induction false} AtHolds(pings: seq<PinnedPing>, anchor: nat)
    ensures forall p :: p in At(pings, anchor) <==> p in pings && p.anchor == anchor
  {
    if pings != [] {
      AtHolds(pings[..|pings| - 1], anchor);
    }
  }
}
