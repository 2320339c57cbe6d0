/**
 Request rewriting (`src/transform.rs:59-294`): long tool outputs are trimmed and user text is stripped, item by item. A pass
 is a rewriting of one conversation item together with the report of whether it changed it; the methods are the source's
 loops over blocks, items and rules.
 */
module Rewrite {
  import opened Wrappers
  import opened Json
  import opened Injection

  datatype Trim = Trim(maxChars: nat, keepHead: nat, keepTail: nat)

  /** A strip rule: what its regex removes from a text, or nothing when the pattern does not compile. */
  datatype StripRule = StripRule(name: string, remove: Option<string -> string>)

  datatype Config = Config(toolOutput: Option<Trim>, strip: seq<StripRule>)

  datatype Pass = Pass(name: string, rewrite: Value -> Value, changes: Value -> bool)

  // ---------- trimming ----------

  function Decimal(n: nat): string {
    if n < 10 then ["0123456789"[n]] else Decimal(n / 10) + ["0123456789"[n % 10]]
  }

  function MarkerOf(digits: string): string {
    "\n[ashkelon: trimmed " + digits + " chars]\n"
  }

  function Marker(removed: nat): string {
    MarkerOf(Decimal(removed))
  }

  function Min(a: nat, b: nat): nat {
    if a < b then a else b
  }

  function TrimText(cfg: Trim, text: string): Option<string> {
    if |text| <= cfg.maxChars then None else
    var head := Min(cfg.keepHead, |text|);
    var tail := Min(cfg.keepTail, |text| - head);
    Some(text[..head] + Marker(|text| - head - tail) + text[|text| - tail..])
  }

  /** One string field, trimmed when it is over the limit. */
  function TrimField(cfg: Trim, value: Value, key: string): Value {
    match value.GetStr(key)
    case Some(text) =>
      (match TrimText(cfg, text) case Some(shorter) => value.With(key, String(shorter)) case None => value)
    case None => value
  }

  predicate TrimsField(cfg: Trim, value: Value, key: string) {
    value.GetStr(key).Some? && TrimText(cfg, value.GetStr(key).value).Some?
  }

  predicate IsKind(value: Value, kind: string) {
    value.GetStr("type") == Some(kind)
  }

  /** A rewriting applied to the values of a list for which it is meant. */
  function MapWhere(list: seq<Value>, meant: Value -> bool, rewrite: Value -> Value): seq<Value> {
    seq(|list|, i requires 0 <= i < |list| => if meant(list[i]) then rewrite(list[i]) else list[i])
  }

  predicate AnyWhere(list: seq<Value>, meant: Value -> bool, changes: Value -> bool) {
    exists v :: v in list && meant(v) && changes(v)
  }

  function OfKind(kind: string): Value -> bool {
    (v: Value) => IsKind(v, kind)
  }

  function TextTrimmer(cfg: Trim): Value -> Value {
    (part: Value) => TrimField(cfg, part, "text")
  }

  function TextIsLong(cfg: Trim): Value -> bool {
    (part: Value) => TrimsField(cfg, part, "text")
  }

  function ContentTrimmer(cfg: Trim): Value -> Value {
    (block: Value) => TrimContent(cfg, block)
  }

  function ContentIsLong(cfg: Trim): Value -> bool {
    (block: Value) => TrimsContent(cfg, block)
  }

  /** Text content, whether one string or an array with text parts. */
  function TrimContent(cfg: Trim, value: Value): Value {
    match value.Get("content")
    case Some(Array(parts)) =>
      value.With("content", Array(MapWhere(parts, OfKind("text"), TextTrimmer(cfg))))
    case _ => TrimField(cfg, value, "content")
  }

  predicate TrimsContent(cfg: Trim, value: Value) {
    match value.Get("content")
    case Some(Array(parts)) => AnyWhere(parts, OfKind("text"), TextIsLong(cfg))
    case _ => TrimsField(cfg, value, "content")
  }

  /** One conversation item: the tool outputs it holds, or is. */
  function TrimItem(wire: Wire, cfg: Trim, item: Value): Value {
    match wire
    case AnthropicMessages =>
      (match item.Get("content")
       case Some(Array(blocks)) =>
         item.With("content", Array(MapWhere(blocks, OfKind("tool_result"), ContentTrimmer(cfg))))
       case _ => item)
    case OpenAiResponses => if IsToolOutput(wire, item) then TrimField(cfg, item, "output") else item
    case OpenAiChat => if IsToolOutput(wire, item) then TrimContent(cfg, item) else item
    case Opaque => item
  }

  predicate TrimsItem(wire: Wire, cfg: Trim, item: Value) {
    match wire
    case AnthropicMessages =>
      (match item.Get("content")
       case Some(Array(blocks)) => AnyWhere(blocks, OfKind("tool_result"), ContentIsLong(cfg))
       case _ => false)
    case OpenAiResponses => IsToolOutput(wire, item) && TrimsField(cfg, item, "output")
    case OpenAiChat => IsToolOutput(wire, item) && TrimsContent(cfg, item)
    case Opaque => false
  }

  function TrimPass(wire: Wire, cfg: Trim): Pass {
    Pass("tool_output", (item: Value) => TrimItem(wire, cfg, item), (item: Value) => TrimsItem(wire, cfg, item))
  }

  // ---------- stripping ----------

  /** A block whose text is subject to stripping. */
  predicate IsText(kind: string, block: Value) {
    IsKind(block, kind) && block.GetStr("text").Some?
  }

  function StripBlock(remove: string -> string, block: Value): Value {
    match block.GetStr("text") case Some(text) => block.With("text", String(remove(text))) case None => block
  }

  /** Whether stripping leaves nothing of a block, which is then dropped. */
  predicate Vanishes(kind: string, remove: string -> string, block: Value) {
    IsText(kind, block) && remove(block.GetStr("text").value) == ""
  }

  predicate StripsBlock(kind: string, remove: string -> string, block: Value) {
    IsText(kind, block) && remove(block.GetStr("text").value) != block.GetStr("text").value
  }

  function StripBlocks(kind: string, remove: string -> string, blocks: seq<Value>): seq<Value> {
    if blocks == [] then [] else
    var last := blocks[|blocks| - 1];
    StripBlocks(kind, remove, blocks[..|blocks| - 1])
    + (if Vanishes(kind, remove, last) then [] else if IsText(kind, last) then [StripBlock(remove, last)] else [last])
  }

  predicate StripsSome(kind: string, remove: string -> string, blocks: seq<Value>) {
    exists b :: b in blocks && StripsBlock(kind, remove, b)
  }

  predicate IsUserItem(wire: Wire, item: Value) {
    !wire.Opaque? && IsUser(item) && (wire.OpenAiResponses? ==> IsKind(item, "message"))
  }

  function StripItem(wire: Wire, remove: string -> string, item: Value): Value {
    if !IsUserItem(wire, item) then item else
    match item.Get("content")
    case Some(String(text)) => if wire.OpenAiResponses? then item else item.With("content", String(remove(text)))
    case Some(Array(blocks)) => item.With("content", Array(StripBlocks(TextKind(wire), remove, blocks)))
    case _ => item
  }

  predicate StripsItem(wire: Wire, remove: string -> string, item: Value) {
    IsUserItem(wire, item) &&
    match item.Get("content")
    case Some(String(text)) => !wire.OpenAiResponses? && remove(text) != text
    case Some(Array(blocks)) => StripsSome(TextKind(wire), remove, blocks)
    case _ => false
  }

  function StripPass(wire: Wire, name: string, remove: string -> string): Pass {
    Pass(name, (item: Value) => StripItem(wire, remove, item), (item: Value) => StripsItem(wire, remove, item))
  }

  // ---------- all passes ----------

  function StripPasses(wire: Wire, rules: seq<StripRule>): seq<Pass> {
    if rules == [] then [] else
    var last := rules[|rules| - 1];
    StripPasses(wire, rules[..|rules| - 1])
    + (match last.remove case Some(remove) => [StripPass(wire, last.name, remove)] case None => [])
  }

  function Passes(wire: Wire, cfg: Config): seq<Pass> {
    (match cfg.toolOutput case Some(trim) => [TrimPass(wire, trim)] case None => []) + StripPasses(wire, cfg.strip)
  }

  function PassAll(passes: seq<Pass>, item: Value): Value {
    if passes == [] then item else passes[|passes| - 1].rewrite(PassAll(passes[..|passes| - 1], item))
  }

  function PassItems(passes: seq<Pass>, items: seq<Value>): seq<Value> {
    seq(|items|, i requires 0 <= i < |items| => PassAll(passes, items[i]))
  }

  predicate AnyChanged(pass: Pass, items: seq<Value>) {
    exists v :: v in items && pass.changes(v)
  }

  /** The names of the passes that changed something, each judged on what the earlier ones left. */
  function Changed(passes: seq<Pass>, items: seq<Value>): seq<string> {
    if passes == [] then [] else
    var before, last := passes[..|passes| - 1], passes[|passes| - 1];
    Changed(before, items) + (if AnyChanged(last, PassItems(before, items)) then [last.name] else [])
  }

  function ItemsOf(wire: Wire, root: Value): seq<Value> {
    match root.GetArray(ItemsKey(wire)) case Some(items) => if wire.Opaque? then [] else items case None => []
  }

  predicate HasItems(wire: Wire, root: Value) {
    !wire.Opaque? && root.GetArray(ItemsKey(wire)).Some?
  }

  /** The tree with every pass applied, whether or not any of them reported a change. */
  function Rewritten(wire: Wire, passes: seq<Pass>, root: Value): Value {
    if HasItems(wire, root) then WithItems(wire, root, PassItems(passes, ItemsOf(wire, root))) else root
  }

  datatype Applied = Applied(body: Body, changed: seq<string>)

  /** `apply`: the original bytes come back unless some pass reported a change. */
  function Apply(wire: Wire, cfg: Config, body: Body): Applied {
    if body.Unparseable? then Applied(body, []) else
    var changed := Changed(Passes(wire, cfg), ItemsOf(wire, body.root));
    Applied(if changed == [] then body else Parsed(Rewritten(wire, Passes(wire, cfg), body.root)), changed)
  }

  // ---------- the source's loops ----------

  /** A loop over the values of a list that rewrites in place those it is meant for. */
  method RewriteWhere(list: seq<Value>, meant: Value -> bool, rewrite: Value -> Value, changes: Value -> bool)
    returns (rewritten: seq<Value>, changed: bool)
    ensures rewritten == MapWhere(list, meant, rewrite)
    ensures changed == AnyWhere(list, meant, changes)
  {
    rewritten, changed := list, false;
    for i := 0 to |list|
      invariant |rewritten| == |list|
      invariant forall j :: 0 <= j < i ==> rewritten[j] == if meant(list[j]) then rewrite(list[j]) else list[j]
      invariant forall j :: i <= j < |list| ==> rewritten[j] == list[j]
      invariant changed == exists j :: 0 <= j < i && meant(list[j]) && changes(list[j])
    {
      if meant(list[i]) {
        changed := changed || changes(list[i]);
        rewritten := rewritten[i := rewrite(list[i])];
      }
    }
  }

  lemma StripsSomeSnoc(kind: string, remove: string -> string, blocks: seq<Value>, last: Value)
    ensures StripsSome(kind, remove, blocks + [last])
        <==> StripsSome(kind, remove, blocks) || StripsBlock(kind, remove, last)
  {
    var all := blocks + [last];
    assert last == all[|blocks|];
    assert forall b :: b in blocks ==> b in all;
    assert forall b :: b in all ==> b in blocks || b == last;
  }

  /** `retain_mut` over the blocks of a user message. */
  method RetainStripped(kind: string, remove: string -> string, blocks: seq<Value>)
    returns (kept: seq<Value>, changed: bool)
    ensures kept == StripBlocks(kind, remove, blocks)
    ensures changed == StripsSome(kind, remove, blocks)
  {
    kept, changed := [], false;
    for i := 0 to |blocks|
      invariant kept == StripBlocks(kind, remove, blocks[..i])
      invariant changed == StripsSome(kind, remove, blocks[..i])
    {
      var block := blocks[i];
      assert blocks[..i + 1][..i] == blocks[..i] && blocks[..i + 1] == blocks[..i] + [block];
      StripsSomeSnoc(kind, remove, blocks[..i], block);
      if !IsText(kind, block) {
        kept := kept + [block];
      } else {
        var text := block.GetStr("text").value;
        var stripped := remove(text);
        if stripped != text {
          changed := true;
        }
        if stripped != "" {
          kept := kept + [StripBlock(remove, block)];
        }
      }
    }
    assert blocks[..|blocks|] == blocks;
  }

  /** The part of `apply_tool_output_trim` inside its loop over the conversation. */
  method TrimOneItem(wire: Wire, cfg: Trim, item: Value) returns (trimmed: Value, changed: bool)
    ensures trimmed == TrimItem(wire, cfg, item)
    ensures changed == TrimsItem(wire, cfg, item)
  {
    trimmed, changed := item, false;
    if wire.AnthropicMessages? {
      var content := item.GetArray("content");
      if content.Some? {
        var blocks, any := RewriteWhere(content.value, OfKind("tool_result"), ContentTrimmer(cfg), ContentIsLong(cfg));
        trimmed, changed := item.With("content", Array(blocks)), any;
      }
    } else if IsToolOutput(wire, item) {
      if wire.OpenAiResponses? {
        trimmed, changed := TrimField(cfg, item, "output"), TrimsField(cfg, item, "output");
      } else {
        trimmed, changed := TrimContent(cfg, item), TrimsContent(cfg, item);
      }
    }
  }

  /** The part of `apply_strip` inside its loop over the conversation, with `strip_user_content`. */
  method StripOneItem(wire: Wire, remove: string -> string, item: Value) returns (stripped: Value, changed: bool)
    ensures stripped == StripItem(wire, remove, item)
    ensures changed == StripsItem(wire, remove, item)
  {
    stripped, changed := item, false;
    if !IsUserItem(wire, item) {
      return;
    }
    match item.Get("content")
    case Some(String(text)) =>
      if !wire.OpenAiResponses? {
        var rest := remove(text);
        stripped, changed := item.With("content", String(rest)), rest != text;
      }
    case Some(Array(blocks)) =>
      var kept, any := RetainStripped(TextKind(wire), remove, blocks);
      stripped, changed := item.With("content", Array(kept)), any;
    case _ =>
  }

  /** `apply`, one pass after another over the tree. */
  method ApplyPasses(wire: Wire, passes: seq<Pass>, root: Value) returns (tree: Value, changed: seq<string>)
    ensures tree == Rewritten(wire, passes, root)
    ensures changed == Changed(passes, ItemsOf(wire, root))
  {
    var items := ItemsOf(wire, root);
    changed := [];
    assert PassItems([], ItemsOf(wire, root)) == items;
    for p := 0 to |passes|
      invariant items == PassItems(passes[..p], ItemsOf(wire, root))
      invariant changed == Changed(passes[..p], ItemsOf(wire, root))
    {
      assert passes[..p + 1][..p] == passes[..p];
      var rewritten, any := RewriteWhere(items, (v: Value) => true, passes[p].rewrite, passes[p].changes);
      assert any == AnyChanged(passes[p], items);
      if any {
        changed := changed + [passes[p].name];
      }
      items := rewritten;
    }
    assert passes[..|passes|] == passes;
    tree := if HasItems(wire, root) then WithItems(wire, root, items) else root;
  }
}
