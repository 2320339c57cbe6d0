/**
 What rewriting does to the texts of a conversation (`src/transform.rs:70-294`): each text of a tool output is cut when it is
 over the limit, each text of the user is stripped, no other text is touched, and what the passes report.
 */
module RewriteTexts {
  import opened Wrappers
  import opened Json
  import opened Injection
  import opened Rewrite
  import opened RewriteLaws

  // ---------- the texts of an item ----------

  /** The texts of content parts of one kind, in order. */
  function PartTexts(kind: string, parts: seq<Value>): seq<string> {
    if parts == [] then [] else
    PartTexts(kind, parts[..|parts| - 1]) + PartText(kind, parts[|parts| - 1])
  }

  function PartText(kind: string, part: Value): seq<string> {
    if part.GetStr("type") == Some(kind) && part.GetStr("text").Some? then [part.GetStr("text").value] else []
  }

  /** The texts of a content, whether one string or parts. */
  function ContentTexts(value: Value): seq<string> {
    match value.Get("content") case Some(String(s)) => [s] case Some(Array(parts)) => PartTexts("text", parts) case _ => []
  }

  function ResultTexts(blocks: seq<Value>): seq<string> {
    if blocks == [] then [] else
    ResultTexts(blocks[..|blocks| - 1]) + ResultText(blocks[|blocks| - 1])
  }

  function ResultText(block: Value): seq<string> {
    if block.GetStr("type") == Some("tool_result") then ContentTexts(block) else []
  }

  /** The texts of the tool outputs an item holds, or is. */
  function OutputTexts(wire: Wire, item: Value): seq<string> {
    match wire
    case AnthropicMessages => (match item.Get("content") case Some(Array(blocks)) => ResultTexts(blocks) case _ => [])
    case OpenAiResponses =>
      if (item.GetStr("type") == Some("function_call_output") || item.GetStr("type") == Some("custom_tool_call_output"))
         && item.GetStr("output").Some?
      then [item.GetStr("output").value] else []
    case OpenAiChat => if item.GetStr("role") == Some("tool") then ContentTexts(item) else []
    case Opaque => []
  }

  /** The texts a user message says; a bare string is none on Responses. */
  function UserTexts(wire: Wire, item: Value): seq<string> {
    if item.GetStr("role") != Some("user") || wire.Opaque? || (wire.OpenAiResponses? && item.GetStr("type") != Some("message"))
    then []
    else match item.Get("content")
      case Some(String(s)) => if wire.OpenAiResponses? then [] else [s]
      case Some(Array(blocks)) => PartTexts(if wire.OpenAiResponses? then "input_text" else "text", blocks)
      case _ => []
  }

  // ---------- what becomes of them ----------

  /** A text afterwards: as it was when it is within the limit, otherwise its head and tail around a marker. */
  ghost predicate IsTrimmed(cfg: Trim, text: string, after: string) {
    if |text| <= cfg.maxChars then after == text
    else exists head, middle, tail, digits ::
      && IsCut(text, after, head, middle, tail, digits)
      && |head| == Min(cfg.keepHead, |text|) && |tail| == Min(cfg.keepTail, |text| - |head|)
  }

  ghost predicate AllTrimmed(cfg: Trim, texts: seq<string>, after: seq<string>) {
    |after| == |texts| && forall i :: 0 <= i < |texts| ==> IsTrimmed(cfg, texts[i], after[i])
  }

  function Each(texts: seq<string>, f: string -> string): seq<string> {
    seq(|texts|, i requires 0 <= i < |texts| => f(texts[i]))
  }

  /** The texts that have something left. */
  function Surviving(texts: seq<string>): seq<string> {
    if texts == [] then [] else
    Surviving(texts[..|texts| - 1]) + (if texts[|texts| - 1] == "" then [] else [texts[|texts| - 1]])
  }

  /** What the user's texts become, one rule after another; a block with nothing left goes, a bare string stays. */
  function Stripped(rules: seq<StripRule>, texts: seq<string>, bare: bool): seq<string> {
    if rules == [] then texts else
    var before := Stripped(rules[..|rules| - 1], texts, bare);
    match rules[|rules| - 1].remove
    case None => before
    case Some(remove) => if bare then Each(before, remove) else Surviving(Each(before, remove))
  }

  predicate IsBare(item: Value) {
    item.Get("content").Some? && item.Get("content").value.String?
  }

  // ---------- trimming ----------

  function Cutter(cfg: Trim): string -> string {
    (text: string) => match TrimText(cfg, text) case Some(shorter) => shorter case None => text
  }

  lemma CutterTrims(cfg: Trim, texts: seq<string>)
    ensures AllTrimmed(cfg, texts, Each(texts, Cutter(cfg)))
  {
    forall i | 0 <= i < |texts| ensures IsTrimmed(cfg, texts[i], Cutter(cfg)(texts[i])) {
      TrimmedTextIsCut(cfg, texts[i]);
    }
  }

  lemma EachConcat(a: seq<string>, b: seq<string>, f: string -> string)
    ensures Each(a + b, f) == Each(a, f) + Each(b, f)
  {
  }

  lemma FieldIsTrimmed(cfg: Trim, value: Value, key: string)
    requires value.GetStr(key).Some?
    ensures TrimField(cfg, value, key).Get(key) == Some(String(Cutter(cfg)(value.GetStr(key).value)))
  {
    var text := value.GetStr(key).value;
    if TrimText(cfg, text).Some? {
      GetWith(value, key, String(TrimText(cfg, text).value), key);
    }
  }

  lemma FieldKeepsKey(cfg: Trim, value: Value, key: string, other: string)
    requires other != key
    ensures TrimField(cfg, value, key).Get(other) == value.Get(other)
  {
    if value.GetStr(key).Some? && TrimText(cfg, value.GetStr(key).value).Some? {
      GetWith(value, key, String(TrimText(cfg, value.GetStr(key).value).value), other);
    }
  }

  lemma ContentKeepsKey(cfg: Trim, value: Value, other: string)
    requires other != "content"
    ensures TrimContent(cfg, value).Get(other) == value.Get(other)
  {
    FieldKeepsKey(cfg, value, "content", other);
    if value.GetArray("content").Some? {
      var parts := value.GetArray("content").value;
      GetWith(value, "content", Array(MapWhere(parts, OfKind("text"), TextTrimmer(cfg))), other);
    }
  }

  lemma PartIsTrimmed(cfg: Trim, part: Value)
    ensures PartText("text", if OfKind("text")(part) then TextTrimmer(cfg)(part) else part)
         == Each(PartText("text", part), Cutter(cfg))
  {
    assert "type"[1] != "text"[1];
    FieldKeepsKey(cfg, part, "text", "type");
    if part.GetStr("text").Some? {
      FieldIsTrimmed(cfg, part, "text");
    }
  }

  lemma {:induction false} PartsAreTrimmed(cfg: Trim, parts: seq<Value>)
    ensures PartTexts("text", MapWhere(parts, OfKind("text"), TextTrimmer(cfg))) == Each(PartTexts("text", parts), Cutter(cfg))
  {
    if parts != [] {
      var shorter, last := parts[..|parts| - 1], parts[|parts| - 1];
      var mapped := MapWhere(parts, OfKind("text"), TextTrimmer(cfg));
      PartsAreTrimmed(cfg, shorter);
      PartIsTrimmed(cfg, last);
      assert mapped[..|mapped| - 1] == MapWhere(shorter, OfKind("text"), TextTrimmer(cfg));
      EachConcat(PartTexts("text", shorter), PartText("text", last), Cutter(cfg));
    }
  }

  lemma ArrayIsTrimmed(cfg: Trim, value: Value, parts: seq<Value>)
    requires value.Get("content") == Some(Array(parts))
    ensures ContentTexts(TrimContent(cfg, value)) == Each(ContentTexts(value), Cutter(cfg))
  {
    PartsAreTrimmed(cfg, parts);
    GetWith(value, "content", Array(MapWhere(parts, OfKind("text"), TextTrimmer(cfg))), "content");
  }

  lemma ContentIsTrimmed(cfg: Trim, value: Value)
    ensures ContentTexts(TrimContent(cfg, value)) == Each(ContentTexts(value), Cutter(cfg))
  {
    match value.Get("content")
    case Some(Array(parts)) => ArrayIsTrimmed(cfg, value, parts);
    case Some(String(s)) => FieldIsTrimmed(cfg, value, "content");
    case _ =>
  }

  lemma ResultIsTrimmed(cfg: Trim, block: Value)
    ensures ResultText(if OfKind("tool_result")(block) then ContentTrimmer(cfg)(block) else block)
         == Each(ResultText(block), Cutter(cfg))
  {
    assert "type"[0] != "content"[0];
    ContentIsTrimmed(cfg, block);
    ContentKeepsKey(cfg, block, "type");
  }

  lemma {:induction false} ResultsAreTrimmed(cfg: Trim, blocks: seq<Value>)
    ensures ResultTexts(MapWhere(blocks, OfKind("tool_result"), ContentTrimmer(cfg))) == Each(ResultTexts(blocks), Cutter(cfg))
  {
    if blocks != [] {
      var shorter, last := blocks[..|blocks| - 1], blocks[|blocks| - 1];
      var mapped := MapWhere(blocks, OfKind("tool_result"), ContentTrimmer(cfg));
      ResultsAreTrimmed(cfg, shorter);
      ResultIsTrimmed(cfg, last);
      assert mapped[..|mapped| - 1] == MapWhere(shorter, OfKind("tool_result"), ContentTrimmer(cfg));
      EachConcat(ResultTexts(shorter), ResultText(last), Cutter(cfg));
    }
  }

  lemma MessageIsTrimmed(cfg: Trim, item: Value, blocks: seq<Value>)
    requires item.Get("content") == Some(Array(blocks))
    ensures OutputTexts(AnthropicMessages, TrimItem(AnthropicMessages, cfg, item))
         == Each(OutputTexts(AnthropicMessages, item), Cutter(cfg))
  {
    ResultsAreTrimmed(cfg, blocks);
    GetWith(item, "content", Array(MapWhere(blocks, OfKind("tool_result"), ContentTrimmer(cfg))), "content");
  }

  lemma OutputIsTrimmed(cfg: Trim, item: Value)
    ensures OutputTexts(OpenAiResponses, TrimItem(OpenAiResponses, cfg, item))
         == Each(OutputTexts(OpenAiResponses, item), Cutter(cfg))
  {
    assert "type"[0] != "output"[0];
    FieldKeepsKey(cfg, item, "output", "type");
    if item.GetStr("output").Some? {
      FieldIsTrimmed(cfg, item, "output");
    }
  }

  lemma ToolMessageIsTrimmed(cfg: Trim, item: Value)
    ensures OutputTexts(OpenAiChat, TrimItem(OpenAiChat, cfg, item)) == Each(OutputTexts(OpenAiChat, item), Cutter(cfg))
  {
    assert "role"[0] != "content"[0];
    ContentKeepsKey(cfg, item, "role");
    ContentIsTrimmed(cfg, item);
  }

  /** Trimming an item cuts exactly the texts of its tool outputs. */
  lemma ItemIsTrimmed(wire: Wire, cfg: Trim, item: Value)
    ensures OutputTexts(wire, TrimItem(wire, cfg, item)) == Each(OutputTexts(wire, item), Cutter(cfg))
  {
    match wire
    case AnthropicMessages =>
      if item.GetArray("content").Some? {
        MessageIsTrimmed(cfg, item, item.GetArray("content").value);
      }
    case OpenAiResponses => OutputIsTrimmed(cfg, item);
    case OpenAiChat => ToolMessageIsTrimmed(cfg, item);
    case Opaque =>
  }

  // ---------- trimming leaves what the user says ----------

  lemma {:induction false} ResultsSayNothing(cfg: Trim, blocks: seq<Value>)
    ensures PartTexts("text", MapWhere(blocks, OfKind("tool_result"), ContentTrimmer(cfg))) == PartTexts("text", blocks)
  {
    if blocks != [] {
      var shorter, last := blocks[..|blocks| - 1], blocks[|blocks| - 1];
      var mapped := MapWhere(blocks, OfKind("tool_result"), ContentTrimmer(cfg));
      ResultsSayNothing(cfg, shorter);
      assert "tool_result"[1] != "text"[1] && "type"[0] != "content"[0];
      ContentKeepsKey(cfg, last, "type");
      assert mapped[..|mapped| - 1] == MapWhere(shorter, OfKind("tool_result"), ContentTrimmer(cfg));
    }
  }

  /** An item with the same role, type and content says the same. */
  lemma SameSays(wire: Wire, item: Value, other: Value)
    requires other.Get("role") == item.Get("role") && other.Get("type") == item.Get("type")
    requires other.Get("content") == item.Get("content") || item.GetStr("role") != Some("user")
    ensures UserTexts(wire, other) == UserTexts(wire, item)
  {
  }

  lemma TrimKeepsWords(wire: Wire, cfg: Trim, item: Value)
    ensures UserTexts(wire, TrimItem(wire, cfg, item)) == UserTexts(wire, item)
    ensures IsBare(TrimItem(wire, cfg, item)) == IsBare(item)
  {
    assert "role"[0] != "content"[0] && "type"[0] != "content"[0];
    assert "role"[0] != "output"[0] && "type"[0] != "output"[0] && "content"[0] != "output"[0];
    match wire
    case AnthropicMessages =>
      if item.GetArray("content").Some? {
        MessageKeepsWords(cfg, item, item.GetArray("content").value);
      }
    case OpenAiResponses =>
      FieldKeepsKey(cfg, item, "output", "role");
      FieldKeepsKey(cfg, item, "output", "type");
      FieldKeepsKey(cfg, item, "output", "content");
      SameSays(wire, item, TrimItem(wire, cfg, item));
    case OpenAiChat => ToolMessageKeepsWords(cfg, item);
    case Opaque =>
  }

  lemma MessageKeepsWords(cfg: Trim, item: Value, blocks: seq<Value>)
    requires item.Get("content") == Some(Array(blocks))
    ensures UserTexts(AnthropicMessages, TrimItem(AnthropicMessages, cfg, item)) == UserTexts(AnthropicMessages, item)
    ensures IsBare(TrimItem(AnthropicMessages, cfg, item)) == IsBare(item)
  {
    var trimmed := Array(MapWhere(blocks, OfKind("tool_result"), ContentTrimmer(cfg)));
    ResultsSayNothing(cfg, blocks);
    GetWith(item, "content", trimmed, "content");
    GetWith(item, "content", trimmed, "role");
    assert "role"[0] != "content"[0];
  }

  lemma ToolMessageKeepsWords(cfg: Trim, item: Value)
    ensures UserTexts(OpenAiChat, TrimItem(OpenAiChat, cfg, item)) == UserTexts(OpenAiChat, item)
    ensures IsBare(TrimItem(OpenAiChat, cfg, item)) == IsBare(item)
  {
    assert "role"[0] != "content"[0] && "type"[0] != "content"[0] && "tool"[0] != "user"[0];
    if IsToolOutput(OpenAiChat, item) {
      ContentKeepsKey(cfg, item, "role");
      ContentKeepsKey(cfg, item, "type");
      SameSays(OpenAiChat, item, TrimContent(cfg, item));
      match item.Get("content")
      case Some(Array(parts)) => GetWith(item, "content", Array(MapWhere(parts, OfKind("text"), TextTrimmer(cfg))), "content");
      case Some(String(s)) => FieldIsTrimmed(cfg, item, "content");
      case _ =>
    }
  }

  // ---------- stripping ----------

  lemma EachSurvives(before: seq<string>, more: seq<string>)
    requires |more| <= 1
    ensures Surviving(before + more) == Surviving(before) + (if more == [] || more[0] == "" then [] else more)
  {
    if more == [] {
      assert before + more == before;
    } else {
      assert (before + more)[..|before|] == before && more == [more[0]];
    }
  }

  lemma PartTextsConcat(kind: string, parts: seq<Value>, more: seq<Value>)
    requires |more| <= 1
    ensures PartTexts(kind, parts + more) == PartTexts(kind, parts) + (if more == [] then [] else PartText(kind, more[0]))
  {
    if more == [] {
      assert parts + more == parts;
    } else {
      assert (parts + more)[..|parts|] == parts;
    }
  }

  lemma ResultTextsConcat(blocks: seq<Value>, more: seq<Value>)
    requires |more| <= 1
    ensures ResultTexts(blocks + more) == ResultTexts(blocks) + (if more == [] then [] else ResultText(more[0]))
  {
    if more == [] {
      assert blocks + more == blocks;
    } else {
      assert (blocks + more)[..|blocks|] == blocks;
    }
  }

  /** What stripping keeps of one block. */
  function KeptOf(kind: string, remove: string -> string, block: Value): seq<Value> {
    if Vanishes(kind, remove, block) then [] else if IsText(kind, block) then [StripBlock(remove, block)] else [block]
  }

  lemma KeptSays(kind: string, remove: string -> string, block: Value)
    ensures var kept, said := KeptOf(kind, remove, block), Each(PartText(kind, block), remove);
      (if kept == [] then [] else PartText(kind, kept[0])) == if said == [] || said[0] == "" then [] else said
    ensures kind != "tool_result" ==>
      (if KeptOf(kind, remove, block) == [] then [] else ResultText(KeptOf(kind, remove, block)[0])) == ResultText(block)
  {
    if IsText(kind, block) {
      TextStaysText(kind, remove, block);
    }
  }

  lemma OneMoreStripped(kind: string, remove: string -> string, kept: seq<Value>, said: seq<string>, block: Value)
    requires PartTexts(kind, kept) == Surviving(Each(said, remove))
    ensures PartTexts(kind, kept + KeptOf(kind, remove, block)) == Surviving(Each(said + PartText(kind, block), remove))
  {
    KeptSays(kind, remove, block);
    PartTextsConcat(kind, kept, KeptOf(kind, remove, block));
    EachConcat(said, PartText(kind, block), remove);
    EachSurvives(Each(said, remove), Each(PartText(kind, block), remove));
  }

  lemma {:induction false} BlocksAreStripped(kind: string, remove: string -> string, blocks: seq<Value>)
    ensures PartTexts(kind, StripBlocks(kind, remove, blocks)) == Surviving(Each(PartTexts(kind, blocks), remove))
  {
    if blocks != [] {
      var shorter, last := blocks[..|blocks| - 1], blocks[|blocks| - 1];
      BlocksAreStripped(kind, remove, shorter);
      OneMoreStripped(kind, remove, StripBlocks(kind, remove, shorter), PartTexts(kind, shorter), last);
    }
  }

  lemma {:induction false} ResultsAreKept(kind: string, remove: string -> string, blocks: seq<Value>)
    requires kind != "tool_result"
    ensures ResultTexts(StripBlocks(kind, remove, blocks)) == ResultTexts(blocks)
  {
    if blocks != [] {
      var shorter, last := blocks[..|blocks| - 1], blocks[|blocks| - 1];
      ResultsAreKept(kind, remove, shorter);
      KeptSays(kind, remove, last);
      ResultTextsConcat(StripBlocks(kind, remove, shorter), KeptOf(kind, remove, last));
    }
  }

  /** One rule on an item: the user's texts are stripped, and the texts of tool outputs stay. */
  ghost predicate IsStripped(wire: Wire, remove: string -> string, item: Value, after: Value) {
    && OutputTexts(wire, after) == OutputTexts(wire, item)
    && IsBare(after) == IsBare(item)
    && UserTexts(wire, after)
       == if IsBare(item) then Each(UserTexts(wire, item), remove) else Surviving(Each(UserTexts(wire, item), remove))
  }

  lemma ArrayIsStripped(wire: Wire, remove: string -> string, item: Value, blocks: seq<Value>)
    requires IsUserItem(wire, item) && item.Get("content") == Some(Array(blocks))
    ensures IsStripped(wire, remove, item, StripItem(wire, remove, item))
  {
    var kept := Array(StripBlocks(TextKind(wire), remove, blocks));
    assert "role"[0] != "content"[0] && "type"[0] != "content"[0] && TextKind(wire)[1] != "tool_result"[1];
    BlocksAreStripped(TextKind(wire), remove, blocks);
    ResultsAreKept(TextKind(wire), remove, blocks);
    GetWith(item, "content", kept, "content");
    GetWith(item, "content", kept, "role");
    GetWith(item, "content", kept, "type");
    UsersAreNotOutputs(wire, item);
    UsersAreNotOutputs(wire, item.With("content", kept));
  }

  /** A user item is no tool output itself. */
  lemma UsersAreNotOutputs(wire: Wire, item: Value)
    requires IsUserItem(wire, item)
    ensures !wire.AnthropicMessages? ==> OutputTexts(wire, item) == []
  {
    UsersAreNotTools(wire, item);
  }

  lemma StringIsStripped(wire: Wire, remove: string -> string, item: Value, text: string)
    requires IsUserItem(wire, item) && item.Get("content") == Some(String(text))
    ensures IsStripped(wire, remove, item, StripItem(wire, remove, item))
  {
    assert "role"[0] != "content"[0] && "type"[0] != "content"[0];
    GetWith(item, "content", String(remove(text)), "content");
    GetWith(item, "content", String(remove(text)), "role");
    GetWith(item, "content", String(remove(text)), "type");
    UsersAreNotOutputs(wire, item);
    UsersAreNotOutputs(wire, StripItem(wire, remove, item));
  }

  lemma ItemIsStripped(wire: Wire, remove: string -> string, item: Value)
    ensures IsStripped(wire, remove, item, StripItem(wire, remove, item))
  {
    if IsUserItem(wire, item) {
      match item.Get("content")
      case Some(String(text)) => StringIsStripped(wire, remove, item, text);
      case Some(Array(blocks)) => ArrayIsStripped(wire, remove, item, blocks);
      case _ =>
    }
  }

  // ---------- the whole body ----------

  lemma {:induction false} RulesStrip(wire: Wire, rules: seq<StripRule>, item: Value)
    ensures var after := PassAll(StripPasses(wire, rules), item);
      && OutputTexts(wire, after) == OutputTexts(wire, item) && IsBare(after) == IsBare(item)
      && UserTexts(wire, after) == Stripped(rules, UserTexts(wire, item), IsBare(item))
  {
    if rules != [] {
      var before, last := rules[..|rules| - 1], rules[|rules| - 1];
      var passes := StripPasses(wire, before);
      RulesStrip(wire, before, item);
      match last.remove
      case None => assert passes + [] == passes;
      case Some(remove) =>
        assert (passes + [StripPass(wire, last.name, remove)])[..|passes|] == passes;
        ItemIsStripped(wire, remove, PassAll(passes, item));
    }
  }

  /** What an item's texts become under a configuration. */
  ghost predicate IsRewritten(wire: Wire, cfg: Config, item: Value, after: Value) {
    && (match cfg.toolOutput
        case Some(trim) => AllTrimmed(trim, OutputTexts(wire, item), OutputTexts(wire, after))
        case None => OutputTexts(wire, after) == OutputTexts(wire, item))
    && UserTexts(wire, after) == Stripped(cfg.strip, UserTexts(wire, item), IsBare(item))
  }

  lemma TrimsFirst(wire: Wire, cfg: Config, item: Value)
    ensures var trimmed := PassAll(TrimPasses(wire, cfg), item);
      && UserTexts(wire, trimmed) == UserTexts(wire, item) && IsBare(trimmed) == IsBare(item)
      && match cfg.toolOutput
         case Some(trim) => AllTrimmed(trim, OutputTexts(wire, item), OutputTexts(wire, trimmed))
         case None => OutputTexts(wire, trimmed) == OutputTexts(wire, item)
  {
    if cfg.toolOutput.Some? {
      var trim := cfg.toolOutput.value;
      var pass := TrimPass(wire, trim);
      assert [pass][..0] == [] && PassAll([], item) == item;
      ItemIsTrimmed(wire, trim, item);
      TrimKeepsWords(wire, trim, item);
      CutterTrims(trim, OutputTexts(wire, item));
    }
  }

  lemma PassedItem(wire: Wire, cfg: Config, item: Value)
    ensures IsRewritten(wire, cfg, item, PassAll(Passes(wire, cfg), item))
  {
    TrimsFirst(wire, cfg, item);
    RulesStrip(wire, cfg.strip, PassAll(TrimPasses(wire, cfg), item));
    PassAllAppend(TrimPasses(wire, cfg), StripPasses(wire, cfg.strip), item);
  }

  /**
   `apply`: whatever the document, each text of a tool output comes out as it was if it is within the limit and cut otherwise,
   on every wire and at every place; and each text of the user comes out stripped, unless nothing was reported and the body is
   sent as it came.
   */
  lemma AppliedTexts(wire: Wire, cfg: Config, body: Body)
    ensures var applied := Apply(wire, cfg, body);
      && (applied.changed == [] ==> applied.body == body)
      && (body.Parsed? ==>
            && applied.body.Parsed?
            && var before, after := ItemsOf(wire, body.root), ItemsOf(wire, applied.body.root);
               && |after| == |before|
               && forall i :: 0 <= i < |before| ==>
                    if applied.changed == [] then OutputsAreWithin(wire, cfg, before[i])
                    else IsRewritten(wire, cfg, before[i], after[i]))
  {
    if body.Parsed? && HasItems(wire, body.root) {
      var items, passes := ItemsOf(wire, body.root), Passes(wire, cfg);
      GetWith(body.root, ItemsKey(wire), Array(PassItems(passes, items)), ItemsKey(wire));
      ItemsAreRewritten(wire, cfg, items);
    }
  }

  lemma ItemsAreRewritten(wire: Wire, cfg: Config, items: seq<Value>)
    ensures var passes := Passes(wire, cfg);
      forall i :: 0 <= i < |items| ==>
        && IsRewritten(wire, cfg, items[i], PassItems(passes, items)[i])
        && (Changed(passes, items) == [] ==> OutputsAreWithin(wire, cfg, items[i]))
  {
    var passes := Passes(wire, cfg);
    forall i | 0 <= i < |items|
      ensures IsRewritten(wire, cfg, items[i], PassItems(passes, items)[i])
      ensures Changed(passes, items) == [] ==> OutputsAreWithin(wire, cfg, items[i]) {
      PassedItem(wire, cfg, items[i]);
      if Changed(passes, items) == [] {
        QuietOutputs(wire, cfg, items, i);
      }
    }
  }

  /** No text of a tool output is over the limit. */
  predicate OutputsAreWithin(wire: Wire, cfg: Config, item: Value) {
    cfg.toolOutput.Some? ==> forall t :: t in OutputTexts(wire, item) ==> |t| <= cfg.toolOutput.value.maxChars
  }

  // ---------- what is reported ----------

  predicate AnyLong(cfg: Trim, texts: seq<string>) {
    exists t :: t in texts && |t| > cfg.maxChars
  }

  lemma AnyLongConcat(cfg: Trim, a: seq<string>, b: seq<string>)
    ensures AnyLong(cfg, a + b) <==> AnyLong(cfg, a) || AnyLong(cfg, b)
  {
    assert forall t :: t in a + b <==> t in a || t in b;
  }

  lemma AnyWhereSnoc(list: seq<Value>, last: Value, meant: Value -> bool, changes: Value -> bool)
    ensures AnyWhere(list + [last], meant, changes) <==> AnyWhere(list, meant, changes) || (meant(last) && changes(last))
  {
    assert forall v :: v in list + [last] <==> v in list || v == last;
    assert last in list + [last];
  }

  lemma OneMoreLong(cfg: Trim, list: seq<Value>, last: Value, meant: Value -> bool, changes: Value -> bool, texts: seq<string>,
                    more: seq<string>)
    requires AnyWhere(list, meant, changes) <==> AnyLong(cfg, texts)
    requires meant(last) && changes(last) <==> AnyLong(cfg, more)
    ensures AnyWhere(list + [last], meant, changes) <==> AnyLong(cfg, texts + more)
  {
    AnyWhereSnoc(list, last, meant, changes);
    AnyLongConcat(cfg, texts, more);
  }

  lemma LongPartIsReported(cfg: Trim, part: Value)
    ensures OfKind("text")(part) && TextIsLong(cfg)(part) <==> AnyLong(cfg, PartText("text", part))
  {
    if part.GetStr("text").Some? {
      assert part.GetStr("text").value in [part.GetStr("text").value];
    }
  }

  lemma {:induction false} LongPartsAreReported(cfg: Trim, parts: seq<Value>)
    ensures AnyWhere(parts, OfKind("text"), TextIsLong(cfg)) <==> AnyLong(cfg, PartTexts("text", parts))
  {
    if parts != [] {
      var shorter, last := parts[..|parts| - 1], parts[|parts| - 1];
      LongPartsAreReported(cfg, shorter);
      LongPartIsReported(cfg, last);
      OneMoreLong(cfg, shorter, last, OfKind("text"), TextIsLong(cfg), PartTexts("text", shorter), PartText("text", last));
      assert parts == shorter + [last];
    }
  }

  lemma LongContentIsReported(cfg: Trim, value: Value)
    ensures TrimsContent(cfg, value) <==> AnyLong(cfg, ContentTexts(value))
  {
    match value.Get("content")
    case Some(Array(parts)) => LongPartsAreReported(cfg, parts);
    case Some(String(s)) => assert s in [s];
    case _ =>
  }

  lemma LongResultIsReported(cfg: Trim, block: Value)
    ensures OfKind("tool_result")(block) && ContentIsLong(cfg)(block) <==> AnyLong(cfg, ResultText(block))
  {
    LongContentIsReported(cfg, block);
  }

  lemma {:induction false} LongResultsAreReported(cfg: Trim, blocks: seq<Value>)
    ensures AnyWhere(blocks, OfKind("tool_result"), ContentIsLong(cfg)) <==> AnyLong(cfg, ResultTexts(blocks))
  {
    if blocks != [] {
      var shorter, last := blocks[..|blocks| - 1], blocks[|blocks| - 1];
      LongResultsAreReported(cfg, shorter);
      LongResultIsReported(cfg, last);
      OneMoreLong(cfg, shorter, last, OfKind("tool_result"), ContentIsLong(cfg), ResultTexts(shorter), ResultText(last));
      assert blocks == shorter + [last];
    }
  }

  /** Trimming reports an item exactly when one of its tool output's texts is over the limit, and whenever it alters it. */
  lemma TrimIsReportedExactlyWhen(wire: Wire, cfg: Trim, item: Value)
    ensures TrimsItem(wire, cfg, item) <==> AnyLong(cfg, OutputTexts(wire, item))
    ensures TrimItem(wire, cfg, item) != item ==> TrimsItem(wire, cfg, item)
  {
    if !TrimsItem(wire, cfg, item) {
      QuietTrim(wire, cfg, item);
    }
    match wire
    case AnthropicMessages =>
      if item.GetArray("content").Some? {
        LongResultsAreReported(cfg, item.GetArray("content").value);
      }
    case OpenAiResponses =>
      if item.GetStr("output").Some? {
        assert item.GetStr("output").value in [item.GetStr("output").value];
      }
    case OpenAiChat => LongContentIsReported(cfg, item);
    case Opaque =>
  }

  lemma QuietOutputs(wire: Wire, cfg: Config, items: seq<Value>, i: nat)
    requires i < |items| && Changed(Passes(wire, cfg), items) == []
    ensures OutputsAreWithin(wire, cfg, items[i])
  {
    ChangedAppend(TrimPasses(wire, cfg), StripPasses(wire, cfg.strip), items);
    if cfg.toolOutput.Some? {
      OnePass(TrimPass(wire, cfg.toolOutput.value), items);
      assert items[i] in items;
      TrimIsReportedExactlyWhen(wire, cfg.toolOutput.value, items[i]);
    }
  }

  // ---------- what is altered ----------

  /** Every text is one that trimming gives back. */
  predicate AllFixed(cfg: Trim, texts: seq<string>) {
    forall t :: t in texts ==> Cutter(cfg)(t) == t
  }

  lemma FixedField(cfg: Trim, value: Value, key: string)
    requires value.GetStr(key).Some? ==> Cutter(cfg)(value.GetStr(key).value) == value.GetStr(key).value
    ensures TrimField(cfg, value, key) == value
  {
    if value.GetStr(key).Some? {
      WithSame(value, key);
    }
  }

  lemma {:induction false} PartStands(kind: string, parts: seq<Value>, part: Value)
    requires part in parts
    ensures forall t :: t in PartText(kind, part) ==> t in PartTexts(kind, parts)
  {
    var shorter, last := parts[..|parts| - 1], parts[|parts| - 1];
    if part != last {
      assert parts == shorter + [last];
      PartStands(kind, shorter, part);
    }
  }

  lemma {:induction false} ResultStands(blocks: seq<Value>, block: Value)
    requires block in blocks
    ensures forall t :: t in ResultText(block) ==> t in ResultTexts(blocks)
  {
    var shorter, last := blocks[..|blocks| - 1], blocks[|blocks| - 1];
    if block != last {
      assert blocks == shorter + [last];
      ResultStands(shorter, block);
    }
  }

  lemma MapFixes(list: seq<Value>, meant: Value -> bool, rewrite: Value -> Value)
    requires forall v :: v in list && meant(v) ==> rewrite(v) == v
    ensures MapWhere(list, meant, rewrite) == list
  {
    forall i | 0 <= i < |list| ensures MapWhere(list, meant, rewrite)[i] == list[i] {
      assert list[i] in list;
    }
  }

  lemma FixedParts(cfg: Trim, parts: seq<Value>)
    requires AllFixed(cfg, PartTexts("text", parts))
    ensures MapWhere(parts, OfKind("text"), TextTrimmer(cfg)) == parts
  {
    forall part | part in parts && OfKind("text")(part) ensures TextTrimmer(cfg)(part) == part {
      PartStands("text", parts, part);
      if part.GetStr("text").Some? {
        assert part.GetStr("text").value in PartText("text", part);
      }
      FixedField(cfg, part, "text");
    }
    MapFixes(parts, OfKind("text"), TextTrimmer(cfg));
  }

  lemma FixedContent(cfg: Trim, value: Value)
    requires AllFixed(cfg, ContentTexts(value))
    ensures TrimContent(cfg, value) == value
  {
    match value.Get("content")
    case Some(Array(parts)) =>
      FixedParts(cfg, parts);
      WithSame(value, "content");
    case Some(String(s)) =>
      assert s in [s];
      FixedField(cfg, value, "content");
    case _ =>
  }

  lemma FixedResults(cfg: Trim, blocks: seq<Value>)
    requires AllFixed(cfg, ResultTexts(blocks))
    ensures MapWhere(blocks, OfKind("tool_result"), ContentTrimmer(cfg)) == blocks
  {
    forall block | block in blocks && OfKind("tool_result")(block) ensures ContentTrimmer(cfg)(block) == block {
      ResultStands(blocks, block);
      assert ResultText(block) == ContentTexts(block);
      FixedContent(cfg, block);
    }
    MapFixes(blocks, OfKind("tool_result"), ContentTrimmer(cfg));
  }

  lemma FixedItem(wire: Wire, cfg: Trim, item: Value)
    requires AllFixed(cfg, OutputTexts(wire, item))
    ensures TrimItem(wire, cfg, item) == item
  {
    match wire
    case AnthropicMessages =>
      if item.GetArray("content").Some? {
        FixedResults(cfg, item.GetArray("content").value);
        WithSame(item, "content");
      }
    case OpenAiResponses =>
      if IsToolOutput(wire, item) {
        if item.GetStr("output").Some? {
          assert item.GetStr("output").value in OutputTexts(wire, item);
        }
        FixedField(cfg, item, "output");
      }
    case OpenAiChat =>
      if IsToolOutput(wire, item) {
        FixedContent(cfg, item);
      }
    case Opaque =>
  }

  lemma EachFixes(texts: seq<string>, f: string -> string)
    ensures Each(texts, f) == texts <==> forall t :: t in texts ==> f(t) == t
  {
    if Each(texts, f) == texts {
      forall t | t in texts ensures f(t) == t {
        var i :| 0 <= i < |texts| && texts[i] == t;
        assert Each(texts, f)[i] == texts[i];
      }
    }
  }

  lemma FixedExactly(cfg: Trim, text: string)
    ensures Cutter(cfg)(text) == text <==> |text| <= cfg.maxChars || TrimText(cfg, text) == Some(text)
  {
    TrimmedTextIsCut(cfg, text);
  }

  /** An item is altered exactly when some text of its tool outputs is over the limit and not its own cut. */
  lemma TrimAltersExactlyWhen(wire: Wire, cfg: Trim, item: Value)
    ensures TrimItem(wire, cfg, item) != item <==>
      exists t :: t in OutputTexts(wire, item) && |t| > cfg.maxChars && TrimText(cfg, t) != Some(t)
  {
    var texts := OutputTexts(wire, item);
    forall t { FixedExactly(cfg, t); }
    assert AllFixed(cfg, texts) <==> !exists t :: t in texts && |t| > cfg.maxChars && TrimText(cfg, t) != Some(t);
    AltersUnlessFixed(wire, cfg, item);
  }

  lemma AltersUnlessFixed(wire: Wire, cfg: Trim, item: Value)
    ensures TrimItem(wire, cfg, item) == item <==> AllFixed(cfg, OutputTexts(wire, item))
  {
    ItemIsTrimmed(wire, cfg, item);
    EachFixes(OutputTexts(wire, item), Cutter(cfg));
    if AllFixed(cfg, OutputTexts(wire, item)) {
      FixedItem(wire, cfg, item);
    }
  }

  /** There is such a text, which is reported although nothing changes: a marker that counts its own characters. */
  lemma AMarkerIsItsOwnCut(max: nat)
    requires max < 30
    ensures |Marker(30)| == 30 && TrimText(Trim(max, 0, 0), Marker(30)) == Some(Marker(30))
  {
    assert Decimal(30) == "30" by {
      assert Decimal(3) == "3";
    }
    var text := Marker(30);
    assert text[..0] == "" && text[|text|..] == "";
    assert "" + text + "" == text;
  }

  /** A strip rule reports an item exactly when it changes one of its texts. */
  lemma StripIsReportedExactlyWhen(wire: Wire, remove: string -> string, item: Value)
    ensures StripsItem(wire, remove, item) <==> exists t :: t in UserTexts(wire, item) && remove(t) != t
  {
    if IsUserItem(wire, item) {
      match item.Get("content")
      case Some(String(text)) => assert text in [text];
      case Some(Array(blocks)) => ChangedTextsAreReported(TextKind(wire), remove, blocks);
      case _ =>
    }
  }

  lemma {:induction false} ChangedTextsAreReported(kind: string, remove: string -> string, blocks: seq<Value>)
    ensures StripsSome(kind, remove, blocks) <==> exists t :: t in PartTexts(kind, blocks) && remove(t) != t
  {
    if blocks != [] {
      var shorter, last := blocks[..|blocks| - 1], blocks[|blocks| - 1];
      ChangedTextsAreReported(kind, remove, shorter);
      assert blocks == shorter + [last];
      StripsSomeSnoc(kind, remove, shorter, last);
      var all := PartTexts(kind, blocks);
      assert forall t :: t in all <==> t in PartTexts(kind, shorter) || t in PartText(kind, last);
      if last.GetStr("text").Some? {
        assert last.GetStr("text").value in [last.GetStr("text").value];
      }
    }
  }

  /** And it alters an item exactly when it reports it, or drops a block that was empty all along. */
  lemma StripAltersExactlyWhen(wire: Wire, remove: string -> string, item: Value)
    ensures StripItem(wire, remove, item) != item <==> StripsItem(wire, remove, item) || HoldsEmptyText(wire, item)
  {
    StripIsReportedExactlyWhen(wire, remove, item);
    if !StripsItem(wire, remove, item) {
      QuietStrip(wire, remove, item);
      DropEmptyExactly(wire, item);
    } else {
      ItemIsStripped(wire, remove, item);
      EachFixes(UserTexts(wire, item), remove);
      SurvivingIsAsLong(Each(UserTexts(wire, item), remove));
    }
  }

  lemma {:induction false} SurvivingIsAsLong(texts: seq<string>)
    ensures |Surviving(texts)| <= |texts|
    ensures |Surviving(texts)| == |texts| ==> Surviving(texts) == texts
  {
    if texts != [] {
      SurvivingIsAsLong(texts[..|texts| - 1]);
    }
  }

  // ---------- the names in a report ----------

  predicate Alters(remove: string -> string, texts: seq<string>) {
    exists t :: t in texts && remove(t) != t
  }

  /** The user's texts of an item as a rule finds them, after the rules in front of it. */
  function Found(wire: Wire, rules: seq<StripRule>, item: Value): seq<string> {
    Stripped(rules, UserTexts(wire, item), IsBare(item))
  }

  predicate AltersSome(wire: Wire, rules: seq<StripRule>, remove: string -> string, items: seq<Value>) {
    exists i :: 0 <= i < |items| && Alters(remove, Found(wire, rules, items[i]))
  }

  /** The rules that compile and alter some text as they find it, by name and in order. */
  function RulesReported(wire: Wire, rules: seq<StripRule>, items: seq<Value>): seq<string> {
    if rules == [] then [] else
    var before, last := rules[..|rules| - 1], rules[|rules| - 1];
    RulesReported(wire, before, items)
    + (if last.remove.Some? && AltersSome(wire, before, last.remove.value, items) then [last.name] else [])
  }

  predicate TrimsSome(wire: Wire, cfg: Config, items: seq<Value>) {
    cfg.toolOutput.Some? && exists i :: 0 <= i < |items| && AnyLong(cfg.toolOutput.value, OutputTexts(wire, items[i]))
  }

  lemma AnyChangedAt(pass: Pass, items: seq<Value>)
    ensures AnyChanged(pass, items) <==> exists i :: 0 <= i < |items| && pass.changes(items[i])
  {
    if i :| 0 <= i < |items| && pass.changes(items[i]) {
      assert items[i] in items;
    }
  }

  /** One rule, judged on items the passes in front of it have been over. */
  lemma RuleIsReported(wire: Wire, rules: seq<StripRule>, remove: string -> string, name: string, items: seq<Value>,
                       trimmed: seq<Value>)
    requires |items| == |trimmed|
    requires forall i :: 0 <= i < |items| ==> Found(wire, [], trimmed[i]) == Found(wire, [], items[i])
                                              && IsBare(trimmed[i]) == IsBare(items[i])
    ensures AnyChanged(StripPass(wire, name, remove), PassItems(StripPasses(wire, rules), trimmed))
       <==> AltersSome(wire, rules, remove, items)
  {
    var passes, pass := StripPasses(wire, rules), StripPass(wire, name, remove);
    AnyChangedAt(pass, PassItems(passes, trimmed));
    forall i | 0 <= i < |items|
      ensures pass.changes(PassItems(passes, trimmed)[i]) <==> Alters(remove, Found(wire, rules, items[i])) {
      RulesStrip(wire, rules, trimmed[i]);
      StripIsReportedExactlyWhen(wire, remove, PassAll(passes, trimmed[i]));
    }
  }

  lemma {:induction false} RulesAreReported(wire: Wire, rules: seq<StripRule>, items: seq<Value>, trimmed: seq<Value>)
    requires |items| == |trimmed|
    requires forall i :: 0 <= i < |items| ==> Found(wire, [], trimmed[i]) == Found(wire, [], items[i])
                                              && IsBare(trimmed[i]) == IsBare(items[i])
    ensures Changed(StripPasses(wire, rules), trimmed) == RulesReported(wire, rules, items)
  {
    if rules != [] {
      var before, last := rules[..|rules| - 1], rules[|rules| - 1];
      var passes := StripPasses(wire, before);
      RulesAreReported(wire, before, items, trimmed);
      match last.remove
      case None => assert passes + [] == passes;
      case Some(remove) =>
        RuleIsReported(wire, before, remove, last.name, items, trimmed);
        assert (passes + [StripPass(wire, last.name, remove)])[..|passes|] == passes;
    }
  }

  /**
   What `apply` reports: trimming exactly when some text of a tool output is over the limit, and each strip rule exactly when
   it compiles and changes some text of the user as the rules in front of it left it - in order.
   */
  lemma AppliedReports(wire: Wire, cfg: Config, body: Body)
    requires body.Parsed?
    ensures var items := ItemsOf(wire, body.root);
      Apply(wire, cfg, body).changed
      == (if TrimsSome(wire, cfg, items) then ["tool_output"] else []) + RulesReported(wire, cfg.strip, items)
  {
    var items, trims := ItemsOf(wire, body.root), TrimPasses(wire, cfg);
    var trimmed := PassItems(trims, items);
    ChangedAppend(trims, StripPasses(wire, cfg.strip), items);
    forall i | 0 <= i < |items|
      ensures Found(wire, [], trimmed[i]) == Found(wire, [], items[i]) && IsBare(trimmed[i]) == IsBare(items[i]) {
      TrimsFirst(wire, cfg, items[i]);
    }
    RulesAreReported(wire, cfg.strip, items, trimmed);
    TrimIsReported(wire, cfg, items);
  }

  lemma TrimIsReported(wire: Wire, cfg: Config, items: seq<Value>)
    ensures Changed(TrimPasses(wire, cfg), items) == if TrimsSome(wire, cfg, items) then ["tool_output"] else []
  {
    if cfg.toolOutput.Some? {
      var pass := TrimPass(wire, cfg.toolOutput.value);
      OnePass(pass, items);
      AnyChangedAt(pass, items);
      forall i | 0 <= i < |items|
        ensures pass.changes(items[i]) <==> AnyLong(cfg.toolOutput.value, OutputTexts(wire, items[i])) {
        TrimIsReportedExactlyWhen(wire, cfg.toolOutput.value, items[i]);
      }
    }
  }
}
