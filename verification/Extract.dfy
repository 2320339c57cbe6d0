/**
 What the last conversation item tells the hook engine (`src/hooks/extract.rs`): a prompt, a tool result, both
 or neither; and that our own failure pings never count as prompts.
 */
module Extract {
  import opened Wrappers
  import opened Json
  import opened Pings
  import opened Injection
  import InjectionLaws

  datatype Extracted = Extracted(prompt: Option<string>, hasToolResult: bool)

  const NOTHING := Extracted(None, false)

  function ItemsArray(wire: Wire, root: Value): Option<seq<Value>> {
    if wire.Opaque? then None else root.GetArray(ItemsKey(wire))
  }

  /** Number of conversation items, for compaction detection. A bare Responses string has none here. */
  function ConversationLength(wire: Wire, body: Body): Option<nat> {
    if body.Unparseable? then None else
    match ItemsArray(wire, body.root) case None => None case Some(items) => Some(|items|)
  }

  // ---------- text accumulation ----------

  function PushText(buffer: string, text: string): string {
    if IsPingText(text) || text == "" then buffer
    else if buffer == "" then text
    else buffer + "\n" + text
  }

  function Pushed(buffer: string, texts: seq<string>): string {
    if texts == [] then buffer
    else PushText(Pushed(buffer, texts[..|texts| - 1]), texts[|texts| - 1])
  }

  function PromptOf(text: string): Option<string> {
    if text == "" then None else Some(text)
  }

  /** The text of an Anthropic text block, or of any part that has a text on the other wires. */
  function PartText(wire: Wire, part: Value): seq<string> {
    if wire.AnthropicMessages? && part.GetStr("type") != Some("text") then []
    else match part.GetStr("text") case Some(t) => [t] case None => []
  }

  function PartTexts(wire: Wire, parts: seq<Value>): seq<string> {
    if parts == [] then []
    else PartTexts(wire, parts[..|parts| - 1]) + PartText(wire, parts[|parts| - 1])
  }

  function ContentTexts(wire: Wire, content: Option<Value>): seq<string> {
    match content
    case Some(String(s)) => [s]
    case Some(Array(parts)) => PartTexts(wire, parts)
    case _ => []
  }

  function HasToolResult(content: Option<Value>): bool {
    content.Some? && content.value.Array? && exists b :: b in content.value.items && IsToolResult(b)
  }

  // ---------- per wire ----------

  /** Whether an item is the kind whose content can hold a prompt. */
  predicate IsPromptItem(wire: Wire, item: Value) {
    match wire
    case OpenAiResponses =>
      (item.GetStr("type") == None || item.GetStr("type") == Some("message")) && IsUser(item)
    case _ => IsUser(item)
  }

  function ExtractItem(wire: Wire, item: Value): Extracted {
    if IsToolOutput(wire, item) then Extracted(None, true)
    else if !IsPromptItem(wire, item) then NOTHING
    else
      var content := item.Get("content");
      Extracted(PromptOf(Pushed("", ContentTexts(wire, content))), wire.AnthropicMessages? && HasToolResult(content))
  }

  function LastItem(wire: Wire, body: Body): Option<Extracted> {
    if body.Unparseable? then None else
    match ItemsArray(wire, body.root)
    case None => None
    case Some(items) => if items == [] then None else Some(ExtractItem(wire, items[|items| - 1]))
  }

  function LastPrompt(wire: Wire, body: Body): Option<string> {
    match LastItem(wire, body) case Some(e) => e.prompt case None => None
  }

  // ---------- the source's loops ----------

  method GatherParts(wire: Wire, parts: seq<Value>) returns (prompt: string, hasToolResult: bool)
    ensures prompt == Pushed("", PartTexts(wire, parts))
    ensures hasToolResult == HasToolResult(Some(Array(parts)))
  {
    prompt, hasToolResult := "", false;
    assert HasToolResult(Some(Array(parts[..0]))) == false;
    for i := 0 to |parts|
      invariant prompt == Pushed("", PartTexts(wire, parts[..i]))
      invariant hasToolResult == HasToolResult(Some(Array(parts[..i])))
    {
      PushedPart(wire, parts, i);
      ResultSnoc(parts, i);
      if IsToolResult(parts[i]) {
        hasToolResult := true;
      }
      var texts := PartText(wire, parts[i]);
      if texts != [] {
        prompt := PushText(prompt, texts[0]);
      }
    }
    assert parts[..|parts|] == parts;
  }

  lemma ResultSnoc(parts: seq<Value>, i: nat)
    requires i < |parts|
    ensures HasToolResult(Some(Array(parts[..i + 1]))) <==> HasToolResult(Some(Array(parts[..i]))) || IsToolResult(parts[i])
  {
    assert parts[..i + 1] == parts[..i] + [parts[i]];
    assert parts[i] in parts[..i + 1];
  }

  lemma PushedPart(wire: Wire, parts: seq<Value>, i: nat)
    requires i < |parts|
    ensures Pushed("", PartTexts(wire, parts[..i + 1]))
         == (var texts, before := PartText(wire, parts[i]), Pushed("", PartTexts(wire, parts[..i]));
             if texts == [] then before else PushText(before, texts[0]))
  {
    assert parts[..i + 1][..i] == parts[..i];
    var texts, before := PartText(wire, parts[i]), PartTexts(wire, parts[..i]);
    assert PartTexts(wire, parts[..i + 1]) == before + texts;
    if texts != [] {
      assert (before + texts)[..|before + texts| - 1] == before;
    } else {
      assert before + texts == before;
    }
  }

  method ExtractLast(wire: Wire, item: Value) returns (e: Extracted)
    ensures e == ExtractItem(wire, item)
  {
    if IsToolOutput(wire, item) {
      return Extracted(None, true);
    }
    if !IsPromptItem(wire, item) {
      return NOTHING;
    }
    match item.Get("content") {
      case Some(String(s)) =>
        assert [s][..0] == [] && Pushed("", [s]) == PushText(Pushed("", []), s);
        return Extracted(PromptOf(PushText("", s)), false);
      case Some(Array(parts)) =>
        var prompt, hasToolResult := GatherParts(wire, parts);
        return Extracted(PromptOf(prompt), wire.AnthropicMessages? && hasToolResult);
      case _ =>
        return Extracted(None, false);
    }
  }

  // ---------- our own pings are not prompts ----------

  /** A failure ping, pinned: recognizable text and no attachments. */
  predicate IsFailurePin(pin: PinnedPing) {
    IsPingText(pin.text) && pin.text != "" && pin.attachments == []
  }

  lemma FailurePinsAreFailurePings(digests: Digests, hook: string, message: string, fix: Option<string>, anchor: nat)
    ensures IsFailurePin(IntoPinned(FailurePing(digests, hook, message, fix), anchor))
  {
    FailurePingIsPingText(digests, hook, message, fix);
  }

  lemma {:induction false} PushedConcat(buffer: string, a: seq<string>, b: seq<string>)
    ensures Pushed(buffer, a + b) == Pushed(Pushed(buffer, a), b)
  {
    if b == [] {
      assert a + b == a;
    } else {
      assert (a + b)[..|a + b| - 1] == a + b[..|b| - 1];
      PushedConcat(buffer, a, b[..|b| - 1]);
    }
  }

  lemma {:induction false} PushedPings(buffer: string, texts: seq<string>)
    requires forall t :: t in texts ==> IsPingText(t)
    ensures Pushed(buffer, texts) == buffer
  {
    if texts != [] {
      PushedPings(buffer, texts[..|texts| - 1]);
    }
  }

  lemma {:induction false} PartTextsConcat(wire: Wire, a: seq<Value>, b: seq<Value>)
    ensures PartTexts(wire, a + b) == PartTexts(wire, a) + PartTexts(wire, b)
  {
    if b == [] {
      assert a + b == a;
    } else {
      assert (a + b)[..|a + b| - 1] == a + b[..|b| - 1];
      PartTextsConcat(wire, a, b[..|b| - 1]);
    }
  }

  lemma TextReads(kind: string, text: string)
    ensures Text(kind, text).GetStr("type") == Some(kind) && Text(kind, text).GetStr("text") == Some(text)
  {
    assert "type"[1] != "text"[1];
    GetSecond(Field("type", String(kind)), Field("text", String(text)), []);
    assert [Field("type", String(kind)), Field("text", String(text))] + [] == Text(kind, text).fields;
  }

  /** What a failure ping puts inside a message reads back as its own text and nothing else. */
  lemma FailurePartTexts(wire: Wire, pin: PinnedPing)
    requires IsFailurePin(pin)
    ensures PartTexts(wire, Parts(wire, pin)) == [pin.text]
  {
    var part := Text(TextKind(wire), pin.text);
    assert Parts(wire, pin) == [part] && [part][..0] == [];
    TextReads(TextKind(wire), pin.text);
    assert PartTexts(wire, [part]) == PartTexts(wire, []) + PartText(wire, part);
  }

  lemma {:induction false} AdditionTexts(pins: seq<PinnedPing>)
    requires forall p :: p in pins ==> IsFailurePin(p)
    ensures forall t :: t in PartTexts(AnthropicMessages, AllAdditions(Maker(AnthropicMessages), pins)) ==> IsPingText(t)
  {
    if pins != [] {
      var shorter, last := pins[..|pins| - 1], pins[|pins| - 1];
      AdditionTexts(shorter);
      PartTextsConcat(AnthropicMessages, AllAdditions(Maker(AnthropicMessages), shorter), Maker(AnthropicMessages)(last));
      FailurePartTexts(AnthropicMessages, last);
    }
  }

  /** Splicing failure pings into blocks leaves the prompt those blocks make. */
  lemma SplicedPrompt(blocks: seq<Value>, pins: seq<PinnedPing>)
    requires forall p :: p in pins ==> IsFailurePin(p)
    ensures Pushed("", PartTexts(AnthropicMessages, Spliced(blocks, AllAdditions(Maker(AnthropicMessages), pins))))
         == Pushed("", PartTexts(AnthropicMessages, blocks))
  {
    var k, additions := InsertionPoint(blocks), AllAdditions(Maker(AnthropicMessages), pins);
    var front, here, back := PartTexts(AnthropicMessages, blocks[..k]), PartTexts(AnthropicMessages, additions),
                             PartTexts(AnthropicMessages, blocks[k..]);
    PartTextsConcat(AnthropicMessages, blocks[..k] + additions, blocks[k..]);
    PartTextsConcat(AnthropicMessages, blocks[..k], additions);
    PartTextsConcat(AnthropicMessages, blocks[..k], blocks[k..]);
    assert blocks[..k] + blocks[k..] == blocks;
    AdditionTexts(pins);
    PushedConcat("", front + here, back);
    PushedConcat("", front, here);
    PushedPings(Pushed("", front), here);
    PushedConcat("", front, back);
  }

  /** A message carrying failure pings extracts to exactly what it extracted to before. */
  lemma WovenMessageExtracts(message: Value, pins: seq<PinnedPing>)
    requires forall p :: p in pins ==> IsFailurePin(p)
    ensures ExtractItem(AnthropicMessages, WovenMessage(message, pins)) == ExtractItem(AnthropicMessages, message)
  {
    if pins != [] && Blocks(message).Some? {
      var blocks, additions := Blocks(message).value, AllAdditions(Maker(AnthropicMessages), pins);
      InjectionLaws.AdditionsAreNotResults(pins);
      StringContentTexts(message);
      SplicedPrompt(blocks, pins);
      SplicedHasResult(blocks, additions);
      NewContentExtracts(message, Spliced(blocks, additions));
    }
  }

  /** Replacing the content by blocks with the same prompt and tool-result flag extracts to the same thing. */
  lemma NewContentExtracts(message: Value, blocks: seq<Value>)
    requires message.Get("content").Some?
    requires Pushed("", PartTexts(AnthropicMessages, blocks))
          == Pushed("", ContentTexts(AnthropicMessages, message.Get("content")))
    requires HasToolResult(message.Get("content")) <==> exists b :: b in blocks && IsToolResult(b)
    ensures ExtractItem(AnthropicMessages, message.With("content", Array(blocks))) == ExtractItem(AnthropicMessages, message)
  {
    GetWith(message, "content", Array(blocks), "content");
    GetWith(message, "content", Array(blocks), "role");
    assert "role"[0] != "content"[0];
    SameExtract(message, message.With("content", Array(blocks)));
  }

  lemma SameExtract(message: Value, other: Value)
    requires other.Get("role") == message.Get("role")
    requires Pushed("", ContentTexts(AnthropicMessages, other.Get("content")))
          == Pushed("", ContentTexts(AnthropicMessages, message.Get("content")))
    requires HasToolResult(other.Get("content")) == HasToolResult(message.Get("content"))
    ensures ExtractItem(AnthropicMessages, other) == ExtractItem(AnthropicMessages, message)
  {
  }

  /** A string content and its one-block form hold the same texts and no tool result. */
  lemma StringContentTexts(message: Value)
    requires Blocks(message).Some?
    ensures PartTexts(AnthropicMessages, Blocks(message).value) == ContentTexts(AnthropicMessages, message.Get("content"))
    ensures HasToolResult(message.Get("content")) <==> exists b :: b in Blocks(message).value && IsToolResult(b)
  {
    match message.Get("content") {
      case Some(String(s)) =>
        var block := Text("text", s);
        TextReads("text", s);
        assert [block][..0] == [];
        assert PartTexts(AnthropicMessages, [block]) == PartTexts(AnthropicMessages, []) + PartText(AnthropicMessages, block);
      case _ =>
    }
  }

  lemma SplicedHasResult(blocks: seq<Value>, additions: seq<Value>)
    requires forall v :: v in additions ==> !IsToolResult(v)
    ensures (exists b :: b in Spliced(blocks, additions) && IsToolResult(b)) <==> (exists b :: b in blocks && IsToolResult(b))
  {
    var k := InsertionPoint(blocks);
    assert forall b :: b in blocks <==> b in blocks[..k] || b in blocks[k..];
  }

  /** A whole inserted item that carries one failure ping holds no prompt. */
  lemma PingItemHasNoPrompt(wire: Wire, pin: PinnedPing)
    requires wire.OpenAiResponses? || wire.OpenAiChat?
    requires IsFailurePin(pin)
    ensures |Maker(wire)(pin)| == 1 && ExtractItem(wire, Maker(wire)(pin)[0]).prompt == None
  {
    var item := Maker(wire)(pin)[0];
    InjectionLaws.AdditionIsOneUserItem(wire, pin);
    if IsPromptItem(wire, item) {
      PingItemTexts(wire, pin);
      PushedPings("", [pin.text]);
    }
  }

  lemma PingItemTexts(wire: Wire, pin: PinnedPing)
    requires wire.OpenAiResponses? || wire.OpenAiChat?
    requires IsFailurePin(pin)
    ensures ContentTexts(wire, Maker(wire)(pin)[0].Get("content")) == [pin.text]
  {
    var item := Maker(wire)(pin)[0];
    assert "role"[0] != "content"[0] && "type"[0] != "content"[0];
    if wire.OpenAiResponses? {
      GetThird(item.fields[0], item.fields[1], item.fields[2]);
      FailurePartTexts(wire, pin);
    } else {
      GetSecond(item.fields[0], item.fields[1], []);
      assert [item.fields[0], item.fields[1]] + [] == item.fields;
    }
  }

  lemma {:induction false} LastAddition(make: PinnedPing -> seq<Value>, pins: seq<PinnedPing>)
    requires forall p :: p in pins ==> |make(p)| == 1
    ensures |AllAdditions(make, pins)| == |pins|
    ensures pins != [] ==> AllAdditions(make, pins)[|pins| - 1] == make(pins[|pins| - 1])[0]
  {
    if pins != [] {
      LastAddition(make, pins[..|pins| - 1]);
    }
  }

  /** The last item of an injected Responses or Chat conversation: the old one, or a ping behind a tool output. */
  lemma LastWoven(wire: Wire, items: seq<Value>, pins: seq<PinnedPing>)
    requires wire.OpenAiResponses? || wire.OpenAiChat?
    requires items != [] && forall p :: p in pins ==> IsFailurePin(p)
    ensures var woven, last := Woven(wire, items, pins), items[|items| - 1];
            && woven != []
            && (woven[|woven| - 1] == last
                || (IsToolOutput(wire, last) && ExtractItem(wire, woven[|woven| - 1]).prompt == None))
  {
    var last, here := items[|items| - 1], At(pins, |items| - 1);
    AtHolds(pins, |items| - 1);
    LastPingHasNoPrompt(wire, here);
    var woven := WovenItems(OutputTest(wire), AddedAt(Maker(wire), pins), items, |items|);
    assert Woven(wire, items, pins) == woven;
    var added := AllAdditions(Maker(wire), here);
    assert AddedAt(Maker(wire), pins)(|items| - 1) == added;
    assert woven != [] && woven[|woven| - 1] == if IsToolOutput(wire, last) && added != [] then added[|added| - 1] else last by {
      LastOfWoven(OutputTest(wire), AddedAt(Maker(wire), pins), items);
    }
  }

  lemma LastPingHasNoPrompt(wire: Wire, pins: seq<PinnedPing>)
    requires wire.OpenAiResponses? || wire.OpenAiChat?
    requires forall p :: p in pins ==> IsFailurePin(p)
    ensures var added := AllAdditions(Maker(wire), pins);
      added != [] ==> ExtractItem(wire, added[|added| - 1]).prompt == None
  {
    forall p | p in pins
      ensures |Maker(wire)(p)| == 1
    {
      PingItemHasNoPrompt(wire, p);
    }
    LastAddition(Maker(wire), pins);
    if pins != [] {
      PingItemHasNoPrompt(wire, pins[|pins| - 1]);
    }
  }

  lemma LastOfWoven(isOutput: Value -> bool, added: nat -> seq<Value>, items: seq<Value>)
    requires items != []
    ensures var n, last := |items|, items[|items| - 1];
            var woven, here := WovenItems(isOutput, added, items, n), added(n - 1);
            && woven != []
            && woven[|woven| - 1] == if isOutput(last) && here != [] then here[|here| - 1] else last
  {
    var n, last := |items|, items[|items| - 1];
    var before, around := WovenItems(isOutput, added, items, n - 1), Around(last, isOutput(last), added(n - 1));
    assert (before + around)[|before + around| - 1] == around[|around| - 1];
  }

  /**
   On every wire, and for every set of anchors the injector accepts, injecting failure pings leaves the prompt
   read off the last conversation item as it was.
   */
  lemma PingsAreNotPrompts(wire: Wire, body: Body, pins: seq<PinnedPing>)
    requires forall p :: p in pins ==> IsFailurePin(p)
    requires Inject(wire, body, pins).Some?
    ensures LastPrompt(wire, Inject(wire, body, pins).value) == LastPrompt(wire, body)
  {
    if pins != [] {
      InjectedBody(wire, body, pins);
      WovenKeepsLastPrompt(wire, body.root, Items(wire, body.root).value, pins);
    }
  }

  lemma InjectedBody(wire: Wire, body: Body, pins: seq<PinnedPing>)
    requires pins != [] && Inject(wire, body, pins).Some?
    ensures body.Parsed? && Items(wire, body.root).Some? && Items(wire, body.root).value != []
    ensures Inject(wire, body, pins).value
         == Parsed(WithItems(wire, body.root, Woven(wire, Items(wire, body.root).value, pins)))
  {
    assert pins[0] in pins;
  }

  lemma WovenKeepsLastPrompt(wire: Wire, root: Value, items: seq<Value>, pins: seq<PinnedPing>)
    requires Items(wire, root) == Some(items) && items != []
    requires forall p :: p in pins ==> IsFailurePin(p)
    ensures LastPrompt(wire, Parsed(WithItems(wire, root, Woven(wire, items, pins)))) == LastPrompt(wire, Parsed(root))
  {
    LastItemKeepsPrompt(wire, items, pins);
    InjectedArray(wire, root, Woven(wire, items, pins));
    LastPromptIs(wire, WithItems(wire, root, Woven(wire, items, pins)), Woven(wire, items, pins));
    if ItemsArray(wire, root).None? {
      BareStringHasNoPrompt(items[0]);
    } else {
      LastPromptIs(wire, root, items);
    }
  }

  lemma LastPromptIs(wire: Wire, root: Value, items: seq<Value>)
    requires ItemsArray(wire, root) == Some(items) && items != []
    ensures LastPrompt(wire, Parsed(root)) == ExtractItem(wire, items[|items| - 1]).prompt
  {
  }

  lemma LastItemKeepsPrompt(wire: Wire, items: seq<Value>, pins: seq<PinnedPing>)
    requires !wire.Opaque? && items != []
    requires forall p :: p in pins ==> IsFailurePin(p)
    ensures var woven := Woven(wire, items, pins);
            woven != [] && ExtractItem(wire, woven[|woven| - 1]).prompt == ExtractItem(wire, items[|items| - 1]).prompt
  {
    if wire.AnthropicMessages? {
      InjectionLaws.WovenMessageAt(items, pins, |items|);
      AtHolds(pins, |items| - 1);
      WovenMessageExtracts(items[|items| - 1], At(pins, |items| - 1));
    } else {
      LastWoven(wire, items, pins);
    }
  }

  /** After an injection the conversation is an array, and before it was one or a bare Responses string. */
  lemma InjectedArray(wire: Wire, root: Value, woven: seq<Value>)
    requires Items(wire, root).Some?
    ensures ItemsArray(wire, WithItems(wire, root, woven)) == Some(woven)
    ensures ItemsArray(wire, root) == Items(wire, root)
         || (ItemsArray(wire, root).None? && |Items(wire, root).value| == 1 && Items(wire, root).value[0].String?)
  {
    GetWith(root, ItemsKey(wire), Array(woven), ItemsKey(wire));
  }

  lemma BareStringHasNoPrompt(item: Value)
    requires item.String?
    ensures ExtractItem(OpenAiResponses, item).prompt == None
    ensures ExtractItem(OpenAiChat, item).prompt == None
  {
  }
}
