/**
 What the rewriting passes keep (`src/transform.rs:70-294`): a trimmed text still holds its head and tail and names the
 number of characters it lost; only tool outputs and user text are touched; and the rewriting of a longer conversation
 extends that of its beginning, except in one case that `LongerConversationsExtend` pins down.
 */
module RewriteLaws {
  import opened Wrappers
  import opened Json
  import opened Injection
  import opened Rewrite

  // ---------- one trimmed text ----------

  function DigitValue(c: char): nat {
    if '0' <= c <= '9' then c as nat - '0' as nat else 0
  }

  function ReadDecimal(digits: string): nat {
    if digits == "" then 0 else 10 * ReadDecimal(digits[..|digits| - 1]) + DigitValue(digits[|digits| - 1])
  }

  lemma {:induction false} DecimalReadsBack(n: nat)
    ensures ReadDecimal(Decimal(n)) == n
  {
    var digit := "0123456789"[n % 10];
    assert DigitValue(digit) == n % 10;
    if n >= 10 {
      DecimalReadsBack(n / 10);
      assert Decimal(n)[..|Decimal(n)| - 1] == Decimal(n / 10);
    } else {
      assert Decimal(n)[..0] == "";
    }
  }

  /** A text is `shorter` when its middle is replaced by a marker whose number counts the characters of that middle. */
  ghost predicate IsCut(text: string, shorter: string, head: string, middle: string, tail: string, digits: string) {
    && text == head + middle + tail
    && shorter == head + ("\n[ashkelon: trimmed " + digits + " chars]\n") + tail
    && ReadDecimal(digits) == |middle|
  }

  /** Only texts over the limit are trimmed; what is kept and the count of what is not rebuild the length exactly. */
  lemma TrimmedTextIsCut(cfg: Trim, text: string)
    ensures TrimText(cfg, text).Some? <==> |text| > cfg.maxChars
    ensures TrimText(cfg, text).Some? ==>
      exists head, middle, tail, digits ::
        && IsCut(text, TrimText(cfg, text).value, head, middle, tail, digits)
        && |head| == Min(cfg.keepHead, |text|) && |tail| == Min(cfg.keepTail, |text| - |head|)
  {
    if |text| > cfg.maxChars {
      var h := Min(cfg.keepHead, |text|);
      var t := Min(cfg.keepTail, |text| - h);
      var head, middle, tail := text[..h], text[h..|text| - t], text[|text| - t..];
      var digits := Decimal(|middle|);
      DecimalReadsBack(|middle|);
      CutHere(text, h, t, digits);
    }
  }

  lemma CutHere(text: string, h: nat, t: nat, digits: string)
    requires h + t <= |text| && ReadDecimal(digits) == |text| - h - t
    ensures IsCut(text, text[..h] + MarkerOf(digits) + text[|text| - t..], text[..h], text[h..|text| - t], text[|text| - t..], digits)
  {
    assert text == text[..h] + text[h..|text| - t] + text[|text| - t..];
  }

  // ---------- what no pass touches ----------

  /** The blocks a pass may rewrite or drop in an item, given whose item it is. */
  predicate Touchable(wire: Wire, user: bool, tool: bool, block: Value) {
    match wire
    case AnthropicMessages => IsKind(block, "tool_result") || (user && IsText("text", block))
    case OpenAiResponses => user && IsText("input_text", block)
    case OpenAiChat => (tool && IsKind(block, "text")) || (user && IsText("text", block))
    case Opaque => false
  }

  function Untouched(wire: Wire, user: bool, tool: bool, blocks: seq<Value>): seq<Value> {
    if blocks == [] then [] else
    var rest := Untouched(wire, user, tool, blocks[..|blocks| - 1]);
    if Touchable(wire, user, tool, blocks[|blocks| - 1]) then rest else rest + [blocks[|blocks| - 1]]
  }

  predicate TouchableItem(wire: Wire, item: Value) {
    IsUserItem(wire, item) || IsToolOutput(wire, item) || (wire.AnthropicMessages? && item.GetArray("content").Some?)
  }

  /** The only key of an item that a pass writes to. */
  function TouchedKey(wire: Wire, item: Value): string {
    if wire.OpenAiResponses? && IsToolOutput(wire, item) then "output" else "content"
  }

  /**
   What an item may become: another value under one key, and, when that value is a list of blocks, a list in which every
   block but tool results and the item's own text is there unchanged and in order.
   */
  ghost predicate Respects(wire: Wire, item: Value, after: Value) {
    && (!TouchableItem(wire, item) ==> after == item)
    && (forall key :: key != TouchedKey(wire, item) ==> after.Get(key) == item.Get(key))
    && (item.GetArray("content").Some? ==>
          && after.GetArray("content").Some?
          && var user, tool := IsUserItem(wire, item), IsToolOutput(wire, item);
             Untouched(wire, user, tool, after.GetArray("content").value)
             == Untouched(wire, user, tool, item.GetArray("content").value))
    && (item.GetArray("content").None? ==> after.GetArray("content").None?)
  }

  lemma RespectsSameItem(wire: Wire, item: Value, after: Value)
    requires Respects(wire, item, after)
    ensures IsUserItem(wire, after) == IsUserItem(wire, item) && IsToolOutput(wire, after) == IsToolOutput(wire, item)
    ensures TouchableItem(wire, after) == TouchableItem(wire, item) && TouchedKey(wire, after) == TouchedKey(wire, item)
  {
    assert after.Get("role") == item.Get("role") by { assert "role"[0] != "content"[0] && "role"[0] != "output"[0]; }
    assert after.Get("type") == item.Get("type") by { assert "type"[0] != "content"[0] && "type"[0] != "output"[0]; }
  }

  lemma RespectsChains(wire: Wire, item: Value, between: Value, after: Value)
    requires Respects(wire, item, between) && Respects(wire, between, after)
    ensures Respects(wire, item, after)
  {
    RespectsSameItem(wire, item, between);
  }

  ghost predicate PassRespects(wire: Wire, pass: Pass) {
    forall item :: Respects(wire, item, pass.rewrite(item))
  }

  lemma {:induction false} ChainRespects(wire: Wire, passes: seq<Pass>, item: Value)
    requires forall p :: p in passes ==> PassRespects(wire, p)
    ensures Respects(wire, item, PassAll(passes, item))
  {
    if passes != [] {
      var before := passes[..|passes| - 1];
      ChainRespects(wire, before, item);
      assert passes[|passes| - 1] in passes;
      RespectsChains(wire, item, PassAll(before, item), PassAll(passes, item));
    }
  }

  /** Rewriting touchable blocks into touchable blocks leaves the others as they are. */
  lemma {:induction false} MapKeepsUntouched(wire: Wire, user: bool, tool: bool, blocks: seq<Value>,
      meant: Value -> bool, rewrite: Value -> Value)
    requires forall b :: meant(b) ==> Touchable(wire, user, tool, b) && Touchable(wire, user, tool, rewrite(b))
    ensures Untouched(wire, user, tool, MapWhere(blocks, meant, rewrite)) == Untouched(wire, user, tool, blocks)
  {
    if blocks != [] {
      var mapped := MapWhere(blocks, meant, rewrite);
      assert mapped[..|mapped| - 1] == MapWhere(blocks[..|blocks| - 1], meant, rewrite);
      MapKeepsUntouched(wire, user, tool, blocks[..|blocks| - 1], meant, rewrite);
    }
  }

  lemma UntouchedSnoc(wire: Wire, user: bool, tool: bool, blocks: seq<Value>, last: Value)
    ensures Untouched(wire, user, tool, blocks + [last])
         == Untouched(wire, user, tool, blocks) + (if Touchable(wire, user, tool, last) then [] else [last])
  {
    assert (blocks + [last])[..|blocks|] == blocks;
  }

  lemma {:induction false} StripKeepsUntouched(wire: Wire, tool: bool, remove: string -> string, blocks: seq<Value>)
    requires !wire.Opaque?
    ensures Untouched(wire, true, tool, StripBlocks(TextKind(wire), remove, blocks)) == Untouched(wire, true, tool, blocks)
  {
    if blocks != [] {
      var kind := TextKind(wire);
      var before, last := blocks[..|blocks| - 1], blocks[|blocks| - 1];
      StripKeepsUntouched(wire, tool, remove, before);
      var kept := StripBlocks(kind, remove, before);
      if !IsText(kind, last) {
        assert StripBlocks(kind, remove, blocks) == kept + [last];
        UntouchedSnoc(wire, true, tool, kept, last);
      } else {
        assert Touchable(wire, true, tool, last);
        TextStaysText(kind, remove, last);
        UntouchedSnoc(wire, true, tool, kept, StripBlock(remove, last));
        assert kept + [] == kept;
      }
    }
  }

  lemma TextStaysText(kind: string, remove: string -> string, block: Value)
    requires IsText(kind, block)
    ensures IsText(kind, StripBlock(remove, block))
    ensures StripBlock(remove, block).GetStr("text") == Some(remove(block.GetStr("text").value))
  {
    var text := String(remove(block.GetStr("text").value));
    GetWith(block, "text", text, "text");
    GetWith(block, "text", text, "type");
    assert "text"[1] != "type"[1];
  }

  /** Writing a key other than `type` leaves a value's kind. */
  lemma KindStays(value: Value, key: string, v: Value, kind: string)
    requires key != "type"
    ensures IsKind(value.With(key, v), kind) == IsKind(value, kind)
  {
    GetWith(value, key, v, "type");
  }

  lemma TrimFieldKeepsKind(cfg: Trim, value: Value, key: string, kind: string)
    requires key != "type"
    ensures IsKind(TrimField(cfg, value, key), kind) == IsKind(value, kind)
  {
    forall v { KindStays(value, key, v, kind); }
  }

  lemma TrimContentKeepsKind(cfg: Trim, value: Value, kind: string)
    ensures IsKind(TrimContent(cfg, value), kind) == IsKind(value, kind)
  {
    assert "content"[0] != "type"[0];
    TrimFieldKeepsKind(cfg, value, "content", kind);
    forall v { KindStays(value, "content", v, kind); }
  }

  /** Writing an item's own key, with the blocks nobody may touch kept, respects the item. */
  lemma WriteRespects(wire: Wire, item: Value, v: Value)
    requires TouchableItem(wire, item) && item.Get(TouchedKey(wire, item)).Some?
    requires TouchedKey(wire, item) == "content" ==>
      match item.Get("content").value
      case Array(blocks) =>
        v.Array? && Untouched(wire, IsUserItem(wire, item), IsToolOutput(wire, item), v.items)
                    == Untouched(wire, IsUserItem(wire, item), IsToolOutput(wire, item), blocks)
      case _ => !v.Array?
    ensures Respects(wire, item, item.With(TouchedKey(wire, item), v))
  {
    forall key { GetWith(item, TouchedKey(wire, item), v, key); }
    assert "output"[0] != "content"[0];
  }

  lemma ToolResultsRespect(cfg: Trim, item: Value, blocks: seq<Value>)
    requires item.Get("content") == Some(Array(blocks))
    ensures Respects(AnthropicMessages, item, TrimItem(AnthropicMessages, cfg, item))
  {
    var user := IsUserItem(AnthropicMessages, item);
    forall b: Value { TrimContentKeepsKind(cfg, b, "tool_result"); }
    MapKeepsUntouched(AnthropicMessages, user, false, blocks, OfKind("tool_result"), ContentTrimmer(cfg));
    WriteRespects(AnthropicMessages, item, Array(MapWhere(blocks, OfKind("tool_result"), ContentTrimmer(cfg))));
  }

  lemma ToolMessageRespects(cfg: Trim, item: Value)
    requires IsToolOutput(OpenAiChat, item)
    ensures Respects(OpenAiChat, item, TrimContent(cfg, item))
  {
    match item.Get("content")
    case Some(Array(parts)) =>
      var user := IsUserItem(OpenAiChat, item);
      assert "text"[1] != "type"[1];
      forall b: Value { TrimFieldKeepsKind(cfg, b, "text", "text"); }
      MapKeepsUntouched(OpenAiChat, user, true, parts, OfKind("text"), TextTrimmer(cfg));
      WriteRespects(OpenAiChat, item, Array(MapWhere(parts, OfKind("text"), TextTrimmer(cfg))));
    case Some(String(text)) =>
      if |text| > cfg.maxChars {
        WriteRespects(OpenAiChat, item, String(TrimText(cfg, text).value));
      }
    case _ =>
  }

  lemma TrimRespects(wire: Wire, cfg: Trim, item: Value)
    ensures Respects(wire, item, TrimItem(wire, cfg, item))
  {
    match wire
    case AnthropicMessages =>
      if item.GetArray("content").Some? {
        ToolResultsRespect(cfg, item, item.GetArray("content").value);
      }
    case OpenAiResponses =>
      if IsToolOutput(wire, item) && TrimsField(cfg, item, "output") {
        WriteRespects(wire, item, String(TrimText(cfg, item.GetStr("output").value).value));
      }
    case OpenAiChat =>
      if IsToolOutput(wire, item) {
        ToolMessageRespects(cfg, item);
      }
    case Opaque =>
  }

  lemma StripRespects(wire: Wire, remove: string -> string, item: Value)
    ensures Respects(wire, item, StripItem(wire, remove, item))
  {
    if IsUserItem(wire, item) {
      UsersAreNotTools(wire, item);
      match item.Get("content")
      case Some(String(text)) =>
        if !wire.OpenAiResponses? {
          WriteRespects(wire, item, String(remove(text)));
        }
      case Some(Array(blocks)) =>
        StripKeepsUntouched(wire, IsToolOutput(wire, item), remove, blocks);
        WriteRespects(wire, item, Array(StripBlocks(TextKind(wire), remove, blocks)));
      case _ =>
    }
  }

  lemma UsersAreNotTools(wire: Wire, item: Value)
    requires IsUserItem(wire, item)
    ensures !IsToolOutput(wire, item)
  {
    assert "user"[0] != "tool"[0];
    assert "message"[0] != "function_call_output"[0] && "message"[0] != "custom_tool_call_output"[0];
  }

  lemma {:induction false} StripPassesRespect(wire: Wire, rules: seq<StripRule>)
    ensures forall p :: p in StripPasses(wire, rules) ==> PassRespects(wire, p)
  {
    if rules != [] {
      StripPassesRespect(wire, rules[..|rules| - 1]);
      var last := rules[|rules| - 1];
      if last.remove.Some? {
        forall item { StripRespects(wire, last.remove.value, item); }
      }
    }
  }

  /** Reasoning, signatures, calls, images, assistant text: whatever the configuration, every pass leaves them alone. */
  lemma OnlyToolOutputsAndUserTextChange(wire: Wire, cfg: Config, item: Value)
    ensures Respects(wire, item, PassAll(Passes(wire, cfg), item))
  {
    StripPassesRespect(wire, cfg.strip);
    if cfg.toolOutput.Some? {
      forall v { TrimRespects(wire, cfg.toolOutput.value, v); }
      assert PassRespects(wire, TrimPass(wire, cfg.toolOutput.value));
    }
    ChainRespects(wire, Passes(wire, cfg), item);
  }

  // ---------- a pass that reports no change ----------

  /** A user item with a text block that holds no text. */
  predicate HoldsEmptyText(wire: Wire, item: Value) {
    IsUserItem(wire, item) && item.GetArray("content").Some? && HasEmpty(TextKind(wire), item.GetArray("content").value)
  }

  predicate IsEmptyText(kind: string, block: Value) {
    IsKind(block, kind) && block.GetStr("text") == Some("")
  }

  function WithoutEmpty(kind: string, blocks: seq<Value>): seq<Value> {
    if blocks == [] then [] else
    WithoutEmpty(kind, blocks[..|blocks| - 1])
    + (if IsEmptyText(kind, blocks[|blocks| - 1]) then [] else [blocks[|blocks| - 1]])
  }

  /** What silently happens to an item: its empty text blocks go. */
  function DropEmpty(wire: Wire, item: Value): Value {
    if IsUserItem(wire, item) && item.GetArray("content").Some?
    then item.With("content", Array(WithoutEmpty(TextKind(wire), item.GetArray("content").value)))
    else item
  }

  predicate HasEmpty(kind: string, blocks: seq<Value>) {
    exists b :: b in blocks && IsEmptyText(kind, b)
  }

  lemma HasEmptySnoc(kind: string, blocks: seq<Value>, last: Value)
    ensures HasEmpty(kind, blocks + [last]) <==> HasEmpty(kind, blocks) || IsEmptyText(kind, last)
  {
    var all := blocks + [last];
    assert all[|blocks|] == last;
    if b :| b in blocks && IsEmptyText(kind, b) {
      assert b in all;
    }
  }

  lemma {:induction false} WithoutEmptyIsShorter(kind: string, blocks: seq<Value>)
    ensures if HasEmpty(kind, blocks) then |WithoutEmpty(kind, blocks)| < |blocks| else WithoutEmpty(kind, blocks) == blocks
    ensures !HasEmpty(kind, WithoutEmpty(kind, blocks))
  {
    if blocks != [] {
      var before, last := blocks[..|blocks| - 1], blocks[|blocks| - 1];
      WithoutEmptyIsShorter(kind, before);
      assert blocks == before + [last];
      HasEmptySnoc(kind, before, last);
      HasEmptySnoc(kind, WithoutEmpty(kind, before), last);
    }
  }

  lemma DropEmptyExactly(wire: Wire, item: Value)
    ensures DropEmpty(wire, item) == item <==> !HoldsEmptyText(wire, item)
    ensures !HoldsEmptyText(wire, DropEmpty(wire, item))
  {
    if IsUserItem(wire, item) && item.GetArray("content").Some? {
      var kind, blocks := TextKind(wire), item.GetArray("content").value;
      WithoutEmptyIsShorter(kind, blocks);
      GetWith(item, "content", Array(WithoutEmpty(kind, blocks)), "content");
      if !HoldsEmptyText(wire, item) {
        WithSame(item, "content");
      }
    }
  }

  lemma {:induction false} QuietStripOfBlocks(kind: string, remove: string -> string, blocks: seq<Value>)
    requires !StripsSome(kind, remove, blocks)
    ensures StripBlocks(kind, remove, blocks) == WithoutEmpty(kind, blocks)
  {
    if blocks != [] {
      var before, last := blocks[..|blocks| - 1], blocks[|blocks| - 1];
      assert blocks == before + [last];
      StripsSomeSnoc(kind, remove, before, last);
      QuietStripOfBlocks(kind, remove, before);
      if IsText(kind, last) {
        WithSame(last, "text");
      }
    }
  }

  lemma QuietStrip(wire: Wire, remove: string -> string, item: Value)
    requires !StripsItem(wire, remove, item)
    ensures StripItem(wire, remove, item) == DropEmpty(wire, item)
  {
    if IsUserItem(wire, item) {
      match item.Get("content")
      case Some(String(text)) => WithSame(item, "content");
      case Some(Array(blocks)) => QuietStripOfBlocks(TextKind(wire), remove, blocks);
      case _ =>
    }
  }

  lemma QuietMap(list: seq<Value>, meant: Value -> bool, rewrite: Value -> Value, changes: Value -> bool)
    requires !AnyWhere(list, meant, changes)
    requires forall v :: v in list && !changes(v) ==> rewrite(v) == v
    ensures MapWhere(list, meant, rewrite) == list
  {
    forall i | 0 <= i < |list| ensures MapWhere(list, meant, rewrite)[i] == list[i] {
      assert list[i] in list;
    }
  }

  lemma QuietTrimOfContent(cfg: Trim, value: Value)
    requires !TrimsContent(cfg, value)
    ensures TrimContent(cfg, value) == value
  {
    match value.Get("content")
    case Some(Array(parts)) =>
      QuietMap(parts, OfKind("text"), TextTrimmer(cfg), TextIsLong(cfg));
      WithSame(value, "content");
    case _ =>
  }

  lemma QuietTrim(wire: Wire, cfg: Trim, item: Value)
    requires !TrimsItem(wire, cfg, item)
    ensures TrimItem(wire, cfg, item) == item
  {
    if IsToolOutput(wire, item) && wire.OpenAiChat? {
      QuietTrimOfContent(cfg, item);
    } else if wire.AnthropicMessages? && item.GetArray("content").Some? {
      var blocks := item.GetArray("content").value;
      forall b | b in blocks && !ContentIsLong(cfg)(b) ensures ContentTrimmer(cfg)(b) == b {
        QuietTrimOfContent(cfg, b);
      }
      QuietMap(blocks, OfKind("tool_result"), ContentTrimmer(cfg), ContentIsLong(cfg));
      WithSame(item, "content");
    }
  }

  // ---------- passes in a row ----------

  lemma {:induction false} PassAllAppend(first: seq<Pass>, second: seq<Pass>, item: Value)
    ensures PassAll(first + second, item) == PassAll(second, PassAll(first, item))
  {
    if second == [] {
      assert first + second == first;
    } else {
      var all := first + second;
      assert all[..|all| - 1] == first + second[..|second| - 1];
      PassAllAppend(first, second[..|second| - 1], item);
    }
  }

  lemma PassItemsAppend(first: seq<Pass>, second: seq<Pass>, items: seq<Value>)
    ensures PassItems(first + second, items) == PassItems(second, PassItems(first, items))
  {
    forall i: nat | i < |items| { PassAllAppend(first, second, items[i]); }
  }

  lemma {:induction false} ChangedAppend(first: seq<Pass>, second: seq<Pass>, items: seq<Value>)
    ensures Changed(first + second, items) == Changed(first, items) + Changed(second, PassItems(first, items))
  {
    if second == [] {
      assert first + second == first;
    } else {
      var all := first + second;
      var before := second[..|second| - 1];
      assert all[..|all| - 1] == first + before;
      ChangedAppend(first, before, items);
      PassItemsAppend(first, before, items);
    }
  }

  function DropEmpties(wire: Wire, items: seq<Value>): seq<Value> {
    seq(|items|, i requires 0 <= i < |items| => DropEmpty(wire, items[i]))
  }

  /** Strip rules that report nothing do nothing but drop the empty blocks. */
  lemma {:induction false} QuietStrips(wire: Wire, rules: seq<StripRule>, items: seq<Value>)
    requires Changed(StripPasses(wire, rules), items) == []
    ensures PassItems(StripPasses(wire, rules), items)
         == if StripPasses(wire, rules) == [] then items else DropEmpties(wire, items)
  {
    var passes := StripPasses(wire, rules);
    if rules != [] {
      var before := StripPasses(wire, rules[..|rules| - 1]);
      match rules[|rules| - 1].remove
      case None =>
        assert passes == before;
        QuietStrips(wire, rules[..|rules| - 1], items);
      case Some(remove) =>
        assert passes[..|passes| - 1] == before;
        QuietStrips(wire, rules[..|rules| - 1], items);
        forall i: nat | i < |items| ensures PassItems(passes, items)[i] == DropEmpty(wire, items[i]) {
          var v := PassItems(before, items)[i];
          assert v in PassItems(before, items);
          QuietStrip(wire, remove, v);
          DropEmptyExactly(wire, items[i]);
          DropEmptyExactly(wire, DropEmpty(wire, items[i]));
        }
    }
  }

  predicate HoldsNoEmptyText(wire: Wire, items: seq<Value>) {
    forall v :: v in items ==> !HoldsEmptyText(wire, v)
  }

  function TrimPasses(wire: Wire, cfg: Config): seq<Pass> {
    match cfg.toolOutput case Some(trim) => [TrimPass(wire, trim)] case None => []
  }

  lemma OnePass(pass: Pass, items: seq<Value>)
    ensures Changed([pass], items) == if AnyChanged(pass, items) then [pass.name] else []
    ensures PassItems([], items) == items
    ensures |PassItems([pass], items)| == |items|
    ensures forall i: nat :: i < |items| ==> PassItems([pass], items)[i] == pass.rewrite(items[i])
  {
    assert [pass][..0] == [];
    assert PassItems([], items) == items;
  }

  lemma QuietTrims(wire: Wire, cfg: Config, items: seq<Value>)
    requires Changed(TrimPasses(wire, cfg), items) == []
    ensures PassItems(TrimPasses(wire, cfg), items) == items
  {
    if cfg.toolOutput.Some? {
      var pass := TrimPass(wire, cfg.toolOutput.value);
      OnePass(pass, items);
      forall i: nat | i < |items| ensures pass.rewrite(items[i]) == items[i] {
        assert items[i] in items;
        QuietTrim(wire, cfg.toolOutput.value, items[i]);
      }
    }
  }

  lemma DropEmptiesExactly(wire: Wire, items: seq<Value>)
    ensures DropEmpties(wire, items) == items <==> HoldsNoEmptyText(wire, items)
  {
    forall v: Value { DropEmptyExactly(wire, v); }
    if v :| v in items && HoldsEmptyText(wire, v) {
      var i: nat :| i < |items| && items[i] == v;
      assert DropEmpties(wire, items)[i] != items[i];
    }
  }

  /** When no pass reports a change, the tree is the original one exactly when no rule met an empty block. */
  lemma QuietTree(wire: Wire, cfg: Config, items: seq<Value>)
    requires Changed(Passes(wire, cfg), items) == []
    ensures PassItems(Passes(wire, cfg), items) == items
        <==> StripPasses(wire, cfg.strip) == [] || HoldsNoEmptyText(wire, items)
  {
    var strips := StripPasses(wire, cfg.strip);
    ChangedAppend(TrimPasses(wire, cfg), strips, items);
    PassItemsAppend(TrimPasses(wire, cfg), strips, items);
    QuietTrims(wire, cfg, items);
    QuietStrips(wire, cfg.strip, items);
    DropEmptiesExactly(wire, items);
  }

  // ---------- conversations that grow ----------

  lemma PassItemsConcat(passes: seq<Pass>, a: seq<Value>, b: seq<Value>)
    ensures PassItems(passes, a + b) == PassItems(passes, a) + PassItems(passes, b)
  {}

  /** What one conversation changes, a longer one changes too. */
  lemma {:induction false} ChangedGrows(passes: seq<Pass>, a: seq<Value>, b: seq<Value>)
    ensures Changed(passes, a) != [] ==> Changed(passes, a + b) != []
  {
    if passes != [] {
      var before, last := passes[..|passes| - 1], passes[|passes| - 1];
      ChangedGrows(before, a, b);
      PassItemsConcat(before, a, b);
      if v :| v in PassItems(before, a) && last.changes(v) {
        assert v in PassItems(before, a + b);
      }
    }
  }

  lemma AppliedItems(wire: Wire, cfg: Config, root: Value, items: seq<Value>)
    requires HasItems(wire, root)
    ensures Apply(wire, cfg, Parsed(WithItems(wire, root, items))).body.Parsed?
    ensures Apply(wire, cfg, Parsed(WithItems(wire, root, items))).changed == Changed(Passes(wire, cfg), items)
    ensures ItemsOf(wire, Apply(wire, cfg, Parsed(WithItems(wire, root, items))).body.root)
         == if Changed(Passes(wire, cfg), items) == [] then items else PassItems(Passes(wire, cfg), items)
  {
    var body := WithItems(wire, root, items);
    GetWith(root, ItemsKey(wire), Array(items), ItemsKey(wire));
    GetWith(body, ItemsKey(wire), Array(PassItems(Passes(wire, cfg), items)), ItemsKey(wire));
  }

  /**
   Prompt caching asks that the body sent for a longer conversation begin with the one sent for its beginning. It does,
   except when the beginning was sent as it came, the longer one is rewritten, and a strip rule then drops from the
   beginning a text block that was empty all along.
   */
  lemma LongerConversationsExtend(wire: Wire, cfg: Config, root: Value, a: seq<Value>, b: seq<Value>)
    requires HasItems(wire, root)
    ensures Apply(wire, cfg, Parsed(WithItems(wire, root, a))).body.Parsed?
    ensures Apply(wire, cfg, Parsed(WithItems(wire, root, a + b))).body.Parsed?
    ensures ItemsOf(wire, Apply(wire, cfg, Parsed(WithItems(wire, root, a))).body.root)
         <= ItemsOf(wire, Apply(wire, cfg, Parsed(WithItems(wire, root, a + b))).body.root)
       <==> || HoldsNoEmptyText(wire, a)
            || StripPasses(wire, cfg.strip) == []
            || Apply(wire, cfg, Parsed(WithItems(wire, root, a))).changed != []
            || Apply(wire, cfg, Parsed(WithItems(wire, root, a + b))).changed == []
  {
    var passes := Passes(wire, cfg);
    AppliedItems(wire, cfg, root, a);
    AppliedItems(wire, cfg, root, a + b);
    ChangedGrows(passes, a, b);
    PassItemsConcat(passes, a, b);
    if Changed(passes, a) == [] {
      QuietTree(wire, cfg, a);
      if Changed(passes, a + b) != [] {
        assert (PassItems(passes, a) + PassItems(passes, b))[..|a|] == PassItems(passes, a);
      }
    }
  }

  /** Stripping that removes everything. */
  function Everything(): string -> string {
    (text: string) => ""
  }

  function UserText(text: string): Value {
    Object([Field("role", String("user")), Field("content", Array([Text("text", text)]))])
  }

  lemma UserTextReads(text: string)
    ensures IsUserItem(AnthropicMessages, UserText(text))
    ensures UserText(text).Get("content") == Some(Array([Text("text", text)]))
    ensures IsKind(Text("text", text), "text") && Text("text", text).GetStr("text") == Some(text)
  {
    assert "role"[0] != "content"[0] && "type"[1] != "text"[1];
    var role, content := Field("role", String("user")), Field("content", Array([Text("text", text)]));
    GetSecond(role, content, []);
    assert [role, content] + [] == [role, content];
    var kind, words := Field("type", String("text")), Field("text", String(text));
    GetSecond(kind, words, []);
    assert [kind, words] + [] == [kind, words];
  }

  lemma UserTextStrips(text: string)
    ensures StripsItem(AnthropicMessages, Everything(), UserText(text)) <==> text != ""
    ensures HoldsEmptyText(AnthropicMessages, UserText(text)) <==> text == ""
  {
    UserTextReads(text);
    var blocks := [Text("text", text)];
    assert blocks[0] in blocks;
  }

  function StripAll(): Config {
    Config(None, [StripRule("all", Some(Everything()))])
  }

  lemma OneRule(wire: Wire, rule: StripRule)
    requires rule.remove.Some?
    ensures Passes(wire, Config(None, [rule])) == [StripPass(wire, rule.name, rule.remove.value)]
    ensures StripPasses(wire, [rule]) == [StripPass(wire, rule.name, rule.remove.value)]
  {
    var rules := [rule];
    assert rules[..0] == [];
    assert StripPasses(wire, rules[..0]) == [];
  }

  lemma StripAllChanges(items: seq<Value>)
    ensures Changed(Passes(AnthropicMessages, StripAll()), items) != []
        <==> exists v :: v in items && StripsItem(AnthropicMessages, Everything(), v)
    ensures StripPasses(AnthropicMessages, StripAll().strip) != []
  {
    OneRule(AnthropicMessages, StripRule("all", Some(Everything())));
    OnePass(StripPass(AnthropicMessages, "all", Everything()), items);
  }

  lemma OnlyTheSecondChanges(first: seq<Value>, second: seq<Value>)
    requires first == [UserText("")] && second == [UserText("hi")]
    ensures !HoldsNoEmptyText(AnthropicMessages, first) && StripPasses(AnthropicMessages, StripAll().strip) != []
    ensures Changed(Passes(AnthropicMessages, StripAll()), first) == []
    ensures Changed(Passes(AnthropicMessages, StripAll()), first + second) != []
  {
    UserTextStrips("");
    UserTextStrips("hi");
    StripAllChanges(first);
    StripAllChanges(first + second);
    assert (first + second)[1] in first + second && first[0] in first;
  }

  /** The exception is real: one empty block, then a message the rule applies to. */
  lemma AnEmptyBlockBreaksThePrefix(root: Value, first: seq<Value>, second: seq<Value>)
    requires HasItems(AnthropicMessages, root)
    requires first == [UserText("")] && second == [UserText("hi")]
    ensures Apply(AnthropicMessages, StripAll(), Parsed(WithItems(AnthropicMessages, root, first))).body.Parsed?
    ensures Apply(AnthropicMessages, StripAll(), Parsed(WithItems(AnthropicMessages, root, first + second))).body.Parsed?
    ensures !(ItemsOf(AnthropicMessages, Apply(AnthropicMessages, StripAll(),
                Parsed(WithItems(AnthropicMessages, root, first))).body.root)
              <= ItemsOf(AnthropicMessages, Apply(AnthropicMessages, StripAll(),
                Parsed(WithItems(AnthropicMessages, root, first + second))).body.root))
  {
    OnlyTheSecondChanges(first, second);
    AppliedItems(AnthropicMessages, StripAll(), root, first);
    AppliedItems(AnthropicMessages, StripAll(), root, first + second);
    LongerConversationsExtend(AnthropicMessages, StripAll(), root, first, second);
  }

  // ---------- the whole body ----------

  /** `apply` on a body: every key but the conversation is kept, and each of its items becomes one that respects it. */
  lemma AppliedRespects(wire: Wire, cfg: Config, body: Body)
    ensures var after := Apply(wire, cfg, body).body;
      match body
      case Unparseable(_) => after == body
      case Parsed(root) =>
        && after.Parsed?
        && (forall key :: key != ItemsKey(wire) ==> after.root.Get(key) == root.Get(key))
        && |ItemsOf(wire, after.root)| == |ItemsOf(wire, root)|
        && (forall i :: 0 <= i < |ItemsOf(wire, root)| ==>
              Respects(wire, ItemsOf(wire, root)[i], ItemsOf(wire, after.root)[i]))
        && (!HasItems(wire, root) ==> after == body)
  {
    if body.Parsed? {
      var root, items := body.root, ItemsOf(wire, body.root);
      var passes := Passes(wire, cfg);
      if HasItems(wire, root) {
        WithItemsReads(wire, root, PassItems(passes, items));
        GetWith(root, ItemsKey(wire), Array(PassItems(passes, items)), ItemsKey(wire));
      }
      forall i: nat | i < |items| ensures Respects(wire, items[i], PassItems(passes, items)[i]) {
        OnlyToolOutputsAndUserTextChange(wire, cfg, items[i]);
      }
    }
  }
}
