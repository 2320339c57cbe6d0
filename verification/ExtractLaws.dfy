/**
 What a request's last conversation item says, told from its document (`src/hooks/extract.rs`), and so what a request makes
 fire (`src/hooks/mod.rs:206-262`).
 */
module ExtractLaws {
  import opened Wrappers
  import opened Json
  import opened Pings
  import opened Injection
  import opened Extract
  import opened Session
  import opened Texts
  import SessionLaws

  // ---------- words and pings ----------

  /** White space, and then a pattern. */
  ghost predicate OpensAt(text: string, pattern: string, n: nat) {
    n <= |text| && (forall i :: 0 <= i < n ==> IsWhitespace(text[i])) && Occurs(text, pattern, n)
  }

  lemma OpensOnwards(text: string, pattern: string, n: nat)
    requires text != "" && IsWhitespace(text[0])
    ensures OpensAt(text[1..], pattern, n) <==> OpensAt(text, pattern, n + 1)
  {
    if n + |pattern| <= |text| - 1 {
      assert text[1..][n..n + |pattern|] == text[n + 1..n + 1 + |pattern|];
    }
  }

  lemma {:induction false} OpensExactly(text: string, pattern: string)
    requires pattern != "" && !IsWhitespace(pattern[0])
    ensures pattern <= TrimStart(text) <==> exists n: nat :: OpensAt(text, pattern, n)
  {
    if text != "" && IsWhitespace(text[0]) {
      OpensExactly(text[1..], pattern);
      forall n: nat { OpensOnwards(text, pattern, n); }
      if n: nat :| OpensAt(text[1..], pattern, n) {
        assert OpensAt(text, pattern, n + 1);
      }
      if n: nat :| OpensAt(text, pattern, n) {
        assert n > 0 && OpensAt(text[1..], pattern, n - 1);
      }
    } else if pattern <= text {
      assert OpensAt(text, pattern, 0);
    }
  }

  /** A text is one of our own pings when it opens as one, white space aside. */
  lemma PingTextExactly(text: string)
    ensures IsPingText(text) <==> exists n: nat :: OpensAt(text, "<ashkelon-ping", n)
  {
    OpensExactly(text, "<ashkelon-ping");
  }

  /** A text that counts as part of a prompt. */
  predicate IsWords(text: string) {
    text != "" && !IsPingText(text)
  }

  // ---------- the prompt a content makes ----------

  /** A part of a content that says something: a text block on Anthropic, any part with a text elsewhere. */
  predicate Says(wire: Wire, part: Value, words: string) {
    && part.GetStr("text") == Some(words) && IsWords(words)
    && (wire.AnthropicMessages? ==> part.GetStr("type") == Some("text"))
  }

  /** The words of exactly the parts that say something, in order. */
  ghost predicate AreWords(wire: Wire, parts: seq<Value>, at: seq<nat>, words: seq<string>) {
    && |at| == |words|
    && (forall i, j :: 0 <= i < j < |at| ==> at[i] < at[j])
    && (forall k :: 0 <= k < |at| ==> at[k] < |parts| && Says(wire, parts[at[k]], words[k]))
    && (forall i: nat, t :: i < |parts| && Says(wire, parts[i], t) ==> i in at)
  }

  /** What a content says: a string, or the words of its parts a line break apart; nothing when there are none. */
  ghost predicate IsPrompt(wire: Wire, content: Option<Value>, prompt: Option<string>) {
    match content
    case Some(String(s)) => prompt == if IsWords(s) then Some(s) else None
    case Some(Array(parts)) => exists at, words :: AreWords(wire, parts, at, words) && IsJoined(prompt, words)
    case _ => prompt == None
  }

  ghost predicate IsJoined(prompt: Option<string>, words: seq<string>) {
    match prompt case Some(text) => words != [] && Joins(text, words, "\n") case None => words == []
  }

  predicate HasWords(wire: Wire, part: Value) {
    part.GetStr("text").Some? && Says(wire, part, part.GetStr("text").value)
  }

  function Places(wire: Wire, parts: seq<Value>): seq<nat> {
    if parts == [] then [] else
    Places(wire, parts[..|parts| - 1]) + (if HasWords(wire, parts[|parts| - 1]) then [|parts| - 1] else [])
  }

  function WordsOf(wire: Wire, parts: seq<Value>): seq<string> {
    if parts == [] then [] else
    var last := parts[|parts| - 1];
    WordsOf(wire, parts[..|parts| - 1]) + (if HasWords(wire, last) then [last.GetStr("text").value] else [])
  }

  lemma {:induction false} PlacesHaveWords(wire: Wire, parts: seq<Value>)
    ensures AreWords(wire, parts, Places(wire, parts), WordsOf(wire, parts))
  {
    if parts != [] {
      var shorter := parts[..|parts| - 1];
      PlacesHaveWords(wire, shorter);
      var at, all := Places(wire, shorter), Places(wire, parts);
      forall i: nat, t | i < |parts| && Says(wire, parts[i], t) ensures i in all {
        if i < |shorter| {
          assert Says(wire, shorter[i], t);
          assert i in at;
        }
      }
    }
  }

  /** A buffer that has taken some words. */
  ghost predicate Buffers(buffer: string, words: seq<string>) {
    IsJoined(PromptOf(buffer), words)
  }

  lemma PushBuffers(buffer: string, words: seq<string>, text: string)
    requires Buffers(buffer, words)
    ensures Buffers(PushText(buffer, text), if IsWords(text) then words + [text] else words)
  {
    if IsWords(text) {
      if words == [] {
        JoinsOne(text, "\n");
        NoPieces(text);
      } else {
        JoinsOneMore(buffer, words, "\n", text);
      }
    }
  }

  lemma {:induction false} PartsAreBuffered(wire: Wire, parts: seq<Value>)
    ensures Buffers(Pushed("", PartTexts(wire, parts)), WordsOf(wire, parts))
  {
    if parts != [] {
      var shorter, n := parts[..|parts| - 1], |parts| - 1;
      PartsAreBuffered(wire, shorter);
      PushedPart(wire, parts, n);
      assert parts[..n + 1] == parts && parts[..n] == shorter;
      OnePart(wire, Pushed("", PartTexts(wire, shorter)), WordsOf(wire, shorter), parts[n]);
    }
  }

  lemma OnePart(wire: Wire, buffer: string, words: seq<string>, part: Value)
    requires Buffers(buffer, words)
    ensures var texts := PartText(wire, part);
      Buffers(if texts == [] then buffer else PushText(buffer, texts[0]),
              words + (if HasWords(wire, part) then [part.GetStr("text").value] else []))
  {
    assert words + [] == words;
    if PartText(wire, part) != [] {
      PushBuffers(buffer, words, PartText(wire, part)[0]);
    }
  }

  lemma ContentIsRead(wire: Wire, content: Option<Value>)
    ensures IsPrompt(wire, content, PromptOf(Pushed("", ContentTexts(wire, content))))
  {
    match content
    case Some(String(s)) => assert [s][..0] == [] && Pushed("", [s]) == PushText(Pushed("", []), s);
    case Some(Array(parts)) =>
      PartsAreBuffered(wire, parts);
      PlacesHaveWords(wire, parts);
      assert AreWords(wire, parts, Places(wire, parts), WordsOf(wire, parts));
    case _ =>
  }

  // ---------- the last item ----------

  predicate HoldsToolResult(content: Option<Value>) {
    content.Some? && content.value.Array?
    && exists i :: 0 <= i < |content.value.items| && content.value.items[i].GetStr("type") == Some("tool_result")
  }

  /** What an item says, wire by wire. */
  ghost predicate Reads(wire: Wire, item: Value, e: Extracted) {
    var role, kind, content := item.GetStr("role"), item.GetStr("type"), item.Get("content");
    match wire
    case AnthropicMessages =>
      if role == Some("user") then IsPrompt(wire, content, e.prompt) && (e.hasToolResult <==> HoldsToolResult(content))
      else e.prompt == None && !e.hasToolResult
    case OpenAiResponses =>
      if kind == Some("function_call_output") || kind == Some("custom_tool_call_output") then e.prompt == None && e.hasToolResult
      else if role == Some("user") && (kind == None || kind == Some("message")) then
        IsPrompt(wire, content, e.prompt) && !e.hasToolResult
      else e.prompt == None && !e.hasToolResult
    case OpenAiChat =>
      if role == Some("tool") then e.prompt == None && e.hasToolResult
      else if role == Some("user") then IsPrompt(wire, content, e.prompt) && !e.hasToolResult
      else e.prompt == None && !e.hasToolResult
    case Opaque => false
  }

  /** The prompt and the tool-result flag of an item, on every wire, for every document. */
  lemma ItemIsRead(wire: Wire, item: Value)
    requires !wire.Opaque?
    ensures Reads(wire, item, ExtractItem(wire, item))
  {
    ContentIsRead(wire, item.Get("content"));
    ResultsAreHeld(item.Get("content"));
    assert "user"[0] != "tool"[0];
  }

  lemma ResultsAreHeld(content: Option<Value>)
    ensures HasToolResult(content) <==> HoldsToolResult(content)
  {
    if content.Some? && content.value.Array? {
      var items := content.value.items;
      if b :| b in items && IsToolResult(b) {
        var i :| 0 <= i < |items| && items[i] == b;
        assert items[i].GetStr("type") == Some("tool_result");
      }
      if i :| 0 <= i < |items| && items[i].GetStr("type") == Some("tool_result") {
        assert items[i] in items && IsToolResult(items[i]);
      }
    }
  }

  /** The conversation of a body, under the key of its wire. */
  function ItemsIn(wire: Wire, body: Body): Option<seq<Value>> {
    match body
    case Unparseable(_) => None
    case Parsed(root) =>
      match wire
      case Opaque => None
      case OpenAiResponses => root.GetArray("input")
      case _ => root.GetArray("messages")
  }

  /** What a body's last item says; nothing when there is none. */
  ghost predicate LastReads(wire: Wire, body: Body, seen: Option<Extracted>) {
    match ItemsIn(wire, body)
    case Some(items) =>
      if items == [] then seen == None else seen.Some? && Reads(wire, items[|items| - 1], seen.value)
    case None => seen == None
  }

  predicate HasLength(wire: Wire, body: Body, len: Option<nat>) {
    match ItemsIn(wire, body) case Some(items) => len == Some(|items|) case None => len == None
  }

  lemma LastItemIsRead(wire: Wire, body: Body)
    ensures LastReads(wire, body, LastItem(wire, body)) && HasLength(wire, body, ConversationLength(wire, body))
  {
    match ItemsIn(wire, body)
    case Some(items) =>
      if items != [] {
        ItemIsRead(wire, items[|items| - 1]);
      }
    case None =>
  }

  /**
   What a request fires, from its document: a session start when it is the first, a compaction when its conversation is shorter
   than the last one, its prompt when its last item has one that is new, a tool result when its last item has one.
   */
  lemma RequestFires(cfg: Config, s: State, isNew: bool, wire: Wire, body: Body)
    ensures exists seen, len ::
      && LastReads(wire, body, seen) && HasLength(wire, body, len)
      && SessionLaws.FiresFor(cfg, s, isNew, len, seen, RecordRequest(cfg, s, isNew, wire, body).1)
  {
    var seen, len := LastItem(wire, body), ConversationLength(wire, body);
    LastItemIsRead(wire, body);
    SessionLaws.SeenFires(cfg, s, isNew, len, seen);
    assert LastReads(wire, body, seen) && HasLength(wire, body, len);
  }
}
