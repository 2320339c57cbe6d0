/**
 The bytes that end a cut stream (`src/rules.rs:155-183`), down to their UTF-8 and JSON escapes, and what a client's parser
 makes of them after the bytes it already has.
 */
module CutTail {
  import opened Wrappers
  import opened Json
  import opened Injection
  import opened Printing
  import opened Sse
  import opened SseLaws
  import opened Texts
  import opened Usage
  import opened Utf8
  import Anthropic
  import Responses
  import Chat

  // ---------- the tail ----------

  function Message(rule: string): string {
    "ashkelon rule " + rule
  }

  /** The error document of each wire, and its compact text. */
  function ErrorValue(wire: Wire, rule: string): (value: Value)
    ensures OfTexts(value)
  {
    var message := Json.Field("message", String(Message(rule)));
    var code := Json.Field("code", String("ashkelon_rule"));
    match wire
    case AnthropicMessages =>
      var error := Object([Json.Field("type", String("ashkelon_rule")), message]);
      assert OfTexts(error);
      Object([Json.Field("type", String("error")), Json.Field("error", error)])
    case OpenAiResponses =>
      var error := Object([code, message]);
      assert OfTexts(error);
      var response := Object([Json.Field("status", String("failed")), Json.Field("error", error)]);
      assert OfTexts(response);
      Object([Json.Field("type", String("response.failed")), Json.Field("response", response)])
    case _ =>
      var error := Object([message, Json.Field("type", String("invalid_request_error")), code]);
      assert OfTexts(error);
      Object([Json.Field("error", error)])
  }

  function ErrorText(wire: Wire, rule: string): string {
    Print(ErrorValue(wire, rule))
  }

  /** The event name the tail gives its error, on the wires whose errors are named. */
  function TailKind(wire: Wire): Option<string> {
    match wire
    case AnthropicMessages => Some("error")
    case OpenAiResponses => Some("response.failed")
    case _ => None
  }

  function LinesFor(kind: Option<string>, text: string): seq<string> {
    match kind
    case Some(k) => [FieldLine("event", k), FieldLine("data", text), ""]
    case None => [FieldLine("data", text), "", FieldLine("data", "[DONE]"), ""]
  }

  function TailLines(wire: Wire, rule: string): seq<string> {
    LinesFor(TailKind(wire), ErrorText(wire, rule))
  }

  function Unlines(lines: seq<string>): string {
    if lines == [] then "" else Unlines(lines[..|lines| - 1]) + lines[|lines| - 1] + "\n"
  }

  function TailBytes(wire: Wire, rule: string): seq<byte> {
    Encode(Unlines(TailLines(wire, rule)))
  }

  /** The events the tail stands for. */
  function TailEvents(wire: Wire, rule: string): seq<Event> {
    [Event(TailKind(wire), ErrorText(wire, rule))] + Ending(TailKind(wire))
  }

  function Ending(kind: Option<string>): seq<Event> {
    if kind.None? then [Event(None, "[DONE]")] else []
  }

  // ---------- reading lines back ----------

  lemma {:induction false} LinesReadBack(decode: Decoder, lines: seq<string>)
    requires ReadsUtf8(decode) && forall l :: l in lines ==> OneLineText(l)
    ensures Decoded(decode, Lines(Encode(Unlines(lines)))) == lines
    ensures Rest(Encode(Unlines(lines))) == []
  {
    if lines != [] {
      var shorter, last := lines[..|lines| - 1], lines[|lines| - 1];
      LinesReadBack(decode, shorter);
      LineReadsBack(decode, Unlines(shorter), last);
      DecodedConcat(decode, Lines(Encode(Unlines(shorter))), [Encode(last)]);
      EncodedLine(decode, last);
      assert lines == shorter + [last];
    }
  }

  lemma LineReadsBack(decode: Decoder, text: string, last: string)
    requires ReadsUtf8(decode) && OneLineText(last)
    requires Rest(Encode(text)) == []
    ensures Lines(Encode(text + last + "\n")) == Lines(Encode(text)) + [Encode(last)]
    ensures Rest(Encode(text + last + "\n")) == []
  {
    EncodedLine(decode, last);
    EncodeConcat(text + last, "\n");
    EncodeConcat(text, last);
    AppendLine(Encode(text), Encode(last));
  }

  lemma EncodedLine(decode: Decoder, line: string)
    requires ReadsUtf8(decode) && OneLineText(line)
    ensures Encode("\n") == [LF] && LF !in Encode(line)
    ensures Lines(Encode(line) + [LF]) == [Encode(line)] && Rest(Encode(line) + [LF]) == []
    ensures Decoded(decode, [Encode(line)]) == [line]
  {
    EncodeOne('\n');
    EncodeLacks(line, '\n');
    EncodeLacks(line, '\r');
    OneLine(Encode(line));
    assert StripCr(Encode(line)) == Encode(line);
  }

  lemma TailLinesAreLines(wire: Wire, rule: string)
    ensures forall l :: l in TailLines(wire, rule) ==> OneLineText(l)
  {
    ErrorTextIsOneLine(wire, rule);
    KindIsOneLine(wire);
    LinesForAreLines(TailKind(wire), ErrorText(wire, rule));
  }

  lemma KindIsOneLine(wire: Wire)
    ensures TailKind(wire).Some? ==> OneLineText(TailKind(wire).value)
  {
  }

  lemma LinesForAreLines(kind: Option<string>, text: string)
    requires OneLineText(text) && (kind.Some? ==> OneLineText(kind.value))
    ensures forall l :: l in LinesFor(kind, text) ==> OneLineText(l)
  {
    FieldLineIsOneLine("data", text);
    if kind.Some? {
      FieldLineIsOneLine("event", kind.value);
    } else {
      FieldLineIsOneLine("data", "[DONE]");
    }
  }

  lemma FieldLineIsOneLine(field: string, value: string)
    requires OneLineText(field) && OneLineText(value)
    ensures OneLineText(FieldLine(field, value))
  {
    OneLineConcat(field, ": ");
    OneLineConcat(field + ": ", value);
  }

  lemma ErrorTextIsOneLine(wire: Wire, rule: string)
    ensures OneLineText(ErrorText(wire, rule))
  {
    PrintIsOneLine(ErrorValue(wire, rule));
  }

  /** The text the tail sends stands for the error document, whatever the rule is called. */
  lemma ErrorTextSpells(wire: Wire, rule: string)
    ensures Spells(ErrorText(wire, rule), ErrorValue(wire, rule))
  {
    PrintSpells(ErrorValue(wire, rule));
  }

  // ---------- the round trip ----------

  /** Joining more than one data line gives something longer than the last of them. */
  lemma JoinIsLonger(before: seq<string>, last: string)
    ensures |Join(before + [last])| == |last| <==> before == []
    ensures before == [] ==> Join(before + [last]) == last
  {
    if before != [] {
      assert (before + [last])[..|before|] == before;
    }
  }

  lemma DoneAdds(lines: seq<string>)
    requires PendingAfter(lines) == Pending(None, [])
    ensures var all := lines + [FieldLine("data", "[DONE]")] + [""];
            ClosedEvents(all) + EventFrom(PendingAfter(all)) == ClosedEvents(lines) + [Event(None, "[DONE]")]
  {
    DataThenBlank(lines, "[DONE]");
    assert [] + ["[DONE]"] == ["[DONE]"];
  }

  lemma FirstDecides(before: seq<Event>, a: Event, b: Event, rest: seq<Event>)
    ensures before + [a] + rest == before + ([b] + rest) <==> a == b
  {
    assert (before + [a] + rest)[|before|] == a && (before + ([b] + rest))[|before|] == b;
    if a == b {
      assert before + [a] + rest == before + ([b] + rest);
    }
  }

  // ---------- in the middle of a line ----------

  /** What the tail's first line is read as: the unfinished line of the forwarded bytes and that line, run together. */
  function GluedLine(decode: Decoder, bytes: seq<byte>, wire: Wire, rule: string): string {
    decode(StripCr(Rest(bytes) + Encode(TailLines(wire, rule)[0])))
  }

  /** What is pending behind the glued line. */
  function PendingBehind(decode: Decoder, bytes: seq<byte>, wire: Wire, rule: string): Pending {
    Taken(PendingAfter(Decoded(decode, Lines(bytes))), GluedLine(decode, bytes, wire, rule))
  }

  lemma {:induction false} UnlinesFirst(lines: seq<string>)
    requires lines != []
    ensures Unlines(lines) == lines[0] + "\n" + Unlines(lines[1..])
  {
    if |lines| == 1 {
      assert lines[..0] == [] && lines[1..] == [];
    } else {
      var shorter, last := lines[..|lines| - 1], lines[|lines| - 1];
      UnlinesFirst(shorter);
      assert lines[1..][..|lines| - 2] == shorter[1..];
      Ungroup(lines[0] + "\n", Unlines(shorter[1..]), last + "\n");
      Ungroup(Unlines(shorter[1..]), last, "\n");
      Ungroup(Unlines(shorter), last, "\n");
    }
  }

  lemma Ungroup(a: string, b: string, c: string)
    ensures a + b + c == a + (b + c)
  {
  }

  /** The bytes of a list of lines, with the first of them in front. */
  lemma EncodedFirst(decode: Decoder, lines: seq<string>)
    requires ReadsUtf8(decode) && lines != [] && OneLineText(lines[0])
    ensures Encode(Unlines(lines)) == (Encode(lines[0]) + [LF]) + Encode(Unlines(lines[1..]))
  {
    UnlinesFirst(lines);
    EncodedLine(decode, lines[0]);
    EncodeConcat(lines[0] + "\n", Unlines(lines[1..]));
    EncodeConcat(lines[0], "\n");
  }

  /** Reading goes on from an unfinished line: it is completed by the first line that follows. */
  lemma LinesBehind(bytes: seq<byte>, first: seq<byte>, later: seq<byte>)
    requires LF !in first
    ensures Lines(bytes + ((first + [LF]) + later)) == Lines(bytes) + ([Rest(bytes) + first] + Lines(later))
    ensures Rest(bytes + ((first + [LF]) + later)) == Rest(later)
  {
    LinesConcat(bytes, (first + [LF]) + later);
    RestHasNoLine(bytes);
    var buffer := Rest(bytes) + ((first + [LF]) + later);
    var at := |Rest(bytes)| + |first|;
    assert buffer[..at] == Rest(bytes) + first && buffer[at + 1..] == later;
    FirstLine(buffer, at);
  }

  lemma GluedReadsBack(decode: Decoder, bytes: seq<byte>, wire: Wire, rule: string)
    requires ReadsUtf8(decode)
    ensures var lines := Decoded(decode, Lines(bytes)) + ([GluedLine(decode, bytes, wire, rule)] + TailLines(wire, rule)[1..]);
            AllEvents(decode, bytes + TailBytes(wire, rule)) == ClosedEvents(lines) + EventFrom(PendingAfter(lines))
  {
    var lines := TailLines(wire, rule);
    TailLinesAreLines(wire, rule);
    GluedLines(decode, bytes, lines);
    EndOfStream(decode, bytes + TailBytes(wire, rule));
    DecodesEmpty(decode);
    EventFromPending(OpenBlock(Decoded(decode, Lines(bytes)) + ([GluedLine(decode, bytes, wire, rule)] + lines[1..])));
  }

  lemma DecodesEmpty(decode: Decoder)
    requires ReadsUtf8(decode)
    ensures decode(StripCr([])) == ""
  {
    assert decode(Encode("")) == "";
  }

  lemma GluedLines(decode: Decoder, bytes: seq<byte>, lines: seq<string>)
    requires ReadsUtf8(decode) && lines != [] && forall l :: l in lines ==> OneLineText(l)
    ensures var all := bytes + Encode(Unlines(lines));
      && Decoded(decode, Lines(all))
         == Decoded(decode, Lines(bytes)) + ([decode(StripCr(Rest(bytes) + Encode(lines[0])))] + lines[1..])
      && Rest(all) == []
  {
    var first, later := Encode(lines[0]), Encode(Unlines(lines[1..]));
    EncodedFirst(decode, lines);
    EncodedLine(decode, lines[0]);
    LinesReadBack(decode, lines[1..]);
    LinesBehind(bytes, first, later);
    DecodedConcat(decode, Lines(bytes), [Rest(bytes) + first] + Lines(later));
    DecodedConcat(decode, [Rest(bytes) + first], Lines(later));
    assert Decoded(decode, [Rest(bytes) + first]) == [decode(StripCr(Rest(bytes) + first))];
  }

  /** A named error behind a glued line: its data and its blank line. */
  lemma NamedBehind(lines: seq<string>, glued: string, text: string)
    ensures var all, p := lines + ([glued] + [FieldLine("data", text), ""]), Taken(PendingAfter(lines), glued);
      ClosedEvents(all) + EventFrom(PendingAfter(all))
      == if glued == "" then ClosedEvents(lines) + EventFrom(PendingAfter(lines)) + [Event(None, text)]
         else ClosedEvents(lines) + [Event(p.kind, Join(p.data + [text]))]
  {
    AnyLine(lines, glued);
    DataThenBlank(lines + [glued], text);
    assert lines + ([glued] + [FieldLine("data", text), ""]) == (lines + [glued]) + [FieldLine("data", text)] + [""];
    assert [] + [text] == [text];
  }

  /** An unnamed error glued to an unfinished line: a blank line and the end marker. */
  lemma PlainBehind(lines: seq<string>, glued: string)
    ensures var all, p := lines + ([glued] + ["", FieldLine("data", "[DONE]"), ""]), Taken(PendingAfter(lines), glued);
      ClosedEvents(all) + EventFrom(PendingAfter(all)) == ClosedEvents(lines) + EventFrom(p) + [Event(None, "[DONE]")]
  {
    var two := lines + [glued] + [""];
    AnyLine(lines, glued);
    AddBlank(lines + [glued]);
    DoneAdds(two);
    FourLines(lines, glued, "", FieldLine("data", "[DONE]"), "");
  }

  lemma FourLines(lines: seq<string>, a: string, b: string, c: string, d: string)
    ensures lines + ([a] + [b, c, d]) == lines + [a] + [b] + [c] + [d]
    ensures lines + [a, b, c, d] == lines + [a] + [b] + [c] + [d]
  {
  }

  lemma {:induction false} OnlyOneLineJoins(data: seq<string>, text: string)
    requires data != [] && '\n' !in text
    ensures Join(data) == text <==> data == [text]
  {
    if |data| > 1 {
      var front := Join(data[..|data| - 1]);
      assert Join(data)[|front|] == '\n';
    }
  }

  lemma NamedDecides(before: seq<Event>, waiting: seq<Event>, glued: string, p: Pending, kind: string, text: string)
    ensures (if glued == "" then before + waiting + [Event(None, text)] else before + [Event(p.kind, Join(p.data + [text]))])
            == before + [Event(Some(kind), text)]
       <==> glued != "" && p == Pending(Some(kind), [])
  {
    JoinIsLonger(p.data, text);
    if glued == "" {
      var all := before + waiting + [Event(None, text)];
      assert all[|all| - 1] == Event(None, text);
      assert (before + [Event(Some(kind), text)])[|before|] == Event(Some(kind), text);
    } else {
      assert (before + [Event(p.kind, Join(p.data + [text]))])[|before|] == Event(p.kind, Join(p.data + [text]));
      assert (before + [Event(Some(kind), text)])[|before|] == Event(Some(kind), text);
    }
  }

  lemma PlainDecides(before: seq<Event>, p: Pending, text: string, rest: seq<Event>)
    requires '\n' !in text
    ensures before + EventFrom(p) + rest == before + ([Event(None, text)] + rest) <==> p == Pending(None, [text])
  {
    if p.data != [] {
      OnlyOneLineJoins(p.data, text);
      FirstDecides(before, Event(p.kind, Join(p.data)), Event(None, text), rest);
    } else {
      assert |before + EventFrom(p) + rest| < |before + ([Event(None, text)] + rest)|;
    }
  }

  /** Whether the tail is read as intended, judged by the line its first line becomes. */
  predicate IsRead(decode: Decoder, bytes: seq<byte>, wire: Wire, rule: string) {
    match TailKind(wire)
    case Some(kind) =>
      GluedLine(decode, bytes, wire, rule) != "" && PendingBehind(decode, bytes, wire, rule) == Pending(Some(kind), [])
    case None => PendingBehind(decode, bytes, wire, rule) == Pending(None, [ErrorText(wire, rule)])
  }

  /**
   Wherever the forwarded bytes end, parsing them with the cut tail gives the events already seen and then exactly the
   tail's own, precisely when the line the tail's first line completes leaves pending what that first line alone would have.
   */
  lemma TailIsReadExactlyWhen(decode: Decoder, bytes: seq<byte>, wire: Wire, rule: string)
    requires ReadsUtf8(decode)
    ensures AllEvents(decode, bytes + TailBytes(wire, rule)) == EventsSoFar(decode, bytes) + TailEvents(wire, rule)
       <==> IsRead(decode, bytes, wire, rule)
  {
    GluedReadsBack(decode, bytes, wire, rule);
    ErrorTextIsOneLine(wire, rule);
    TailShape(wire, rule);
    var lines, glued := Decoded(decode, Lines(bytes)), GluedLine(decode, bytes, wire, rule);
    if TailKind(wire).Some? {
      NamedTail(lines, glued, TailKind(wire).value, ErrorText(wire, rule));
    } else {
      PlainTail(lines, glued, ErrorText(wire, rule));
    }
  }

  /** The tail past its first line, and the events it stands for. */
  lemma TailShape(wire: Wire, rule: string)
    ensures TailKind(wire).Some? ==>
      && TailLines(wire, rule)[1..] == [FieldLine("data", ErrorText(wire, rule)), ""]
      && TailEvents(wire, rule) == [Event(TailKind(wire), ErrorText(wire, rule))]
    ensures TailKind(wire).None? ==>
      && TailLines(wire, rule)[1..] == ["", FieldLine("data", "[DONE]"), ""]
      && TailEvents(wire, rule) == [Event(None, ErrorText(wire, rule))] + [Event(None, "[DONE]")]
  {
    LinesShape(TailKind(wire), ErrorText(wire, rule));
  }

  lemma LinesShape(kind: Option<string>, text: string)
    ensures kind.Some? ==> LinesFor(kind, text)[1..] == [FieldLine("data", text), ""]
    ensures kind.None? ==> LinesFor(kind, text)[1..] == ["", FieldLine("data", "[DONE]"), ""]
  {
  }

  lemma NamedTail(lines: seq<string>, glued: string, kind: string, text: string)
    ensures var all := lines + ([glued] + [FieldLine("data", text), ""]);
      ClosedEvents(all) + EventFrom(PendingAfter(all)) == ClosedEvents(lines) + [Event(Some(kind), text)]
      <==> glued != "" && Taken(PendingAfter(lines), glued) == Pending(Some(kind), [])
  {
    NamedBehind(lines, glued, text);
    NamedDecides(ClosedEvents(lines), EventFrom(PendingAfter(lines)), glued, Taken(PendingAfter(lines), glued), kind, text);
  }

  lemma PlainTail(lines: seq<string>, glued: string, text: string)
    requires '\n' !in text
    ensures var all := lines + ([glued] + ["", FieldLine("data", "[DONE]"), ""]);
      ClosedEvents(all) + EventFrom(PendingAfter(all))
      == ClosedEvents(lines) + ([Event(None, text)] + [Event(None, "[DONE]")])
      <==> Taken(PendingAfter(lines), glued) == Pending(None, [text])
  {
    PlainBehind(lines, glued);
    PlainDecides(ClosedEvents(lines), Taken(PendingAfter(lines), glued), text, [Event(None, "[DONE]")]);
  }

  /**
   So when the forwarded bytes end on a line boundary, it is enough to look at what is pending there: the tail is read as
   intended precisely when no data is and, on a wire whose tail names no event, no event name is either.
   */
  lemma TailIsReadExactlyWhenNothingIsPending(decode: Decoder, bytes: seq<byte>, wire: Wire, rule: string)
    requires ReadsUtf8(decode) && Rest(bytes) == []
    ensures var pending := PendingAfter(Decoded(decode, Lines(bytes)));
            AllEvents(decode, bytes + TailBytes(wire, rule)) == EventsSoFar(decode, bytes) + TailEvents(wire, rule)
            <==> pending.data == [] && (TailKind(wire).Some? || pending.kind == None)
  {
    TailIsReadExactlyWhen(decode, bytes, wire, rule);
    TailLinesAreLines(wire, rule);
    GlueAtBoundary(decode, bytes, TailLines(wire, rule)[0]);
    BoundaryDecides(PendingAfter(Decoded(decode, Lines(bytes))), TailKind(wire), ErrorText(wire, rule),
                    GluedLine(decode, bytes, wire, rule));
  }

  /** What a tail is read as on its own: an event of the wire's own kind with the error, and on Chat the sentinel behind it. */
  lemma TailAloneIsRead(decode: Decoder, wire: Wire, rule: string)
    requires ReadsUtf8(decode)
    ensures var text := ErrorText(wire, rule);
      AllEvents(decode, TailBytes(wire, rule)) ==
      match wire
      case AnthropicMessages => [Event(Some("error"), text)]
      case OpenAiResponses => [Event(Some("response.failed"), text)]
      case _ => [Event(None, text), Event(None, "[DONE]")]
  {
    TailIsReadExactlyWhenNothingIsPending(decode, [], wire, rule);
    NothingPending();
    assert Decoded(decode, Lines([])) == [];
    assert [] + TailBytes(wire, rule) == TailBytes(wire, rule) && EventsSoFar(decode, []) == [];
    assert [] + TailEvents(wire, rule) == TailEvents(wire, rule);
  }

  lemma GlueAtBoundary(decode: Decoder, bytes: seq<byte>, first: string)
    requires ReadsUtf8(decode) && Rest(bytes) == [] && OneLineText(first)
    ensures decode(StripCr(Rest(bytes) + Encode(first))) == first
  {
    GlueDecodes(decode, first);
    assert [] + Encode(first) == Encode(first);
  }

  /** What the tail's first line makes of what is pending. */
  lemma BoundaryDecides(pending: Pending, kind: Option<string>, text: string, glued: string)
    requires glued == LinesFor(kind, text)[0]
    ensures (match kind
             case Some(k) => glued != "" && Taken(pending, glued) == Pending(Some(k), [])
             case None => Taken(pending, glued) == Pending(None, [text]))
       <==> pending.data == [] && (kind.Some? || pending.kind == None)
  {
    if kind.Some? {
      FieldReads("event", kind.value);
    } else {
      FieldReads("data", text);
      assert "event"[0] != "data"[0];
    }
  }

  /** A single stray byte: nothing is pending, and yet on no wire is the tail read as intended. */
  lemma AStrayByteHidesTheTail(decode: Decoder, wire: Wire, rule: string)
    requires ReadsUtf8(decode)
    ensures PendingAfter(Decoded(decode, Lines(Encode("x")))) == Pending(None, [])
    ensures !IsRead(decode, Encode("x"), wire, rule)
  {
    TailLinesAreLines(wire, rule);
    StrayGlue(decode, TailLines(wire, rule)[0]);
    if TailKind(wire).Some? {
      StrayField("event", TailKind(wire).value);
    } else {
      StrayField("data", ErrorText(wire, rule));
    }
  }

  lemma StrayGlue(decode: Decoder, first: string)
    requires ReadsUtf8(decode) && OneLineText(first)
    ensures Lines(Encode("x")) == [] && PendingAfter(Decoded(decode, [])) == Pending(None, [])
    ensures decode(StripCr(Rest(Encode("x")) + Encode(first))) == "x" + first
  {
    EncodeOne('x');
    NoLine(Encode("x"));
    NothingPending();
    OneLineConcat("x", first);
    EncodeConcat("x", first);
    GlueDecodes(decode, "x" + first);
  }

  lemma StrayField(field: string, value: string)
    requires field == "event" || field == "data"
    ensures Taken(Pending(None, []), "x" + FieldLine(field, value)) == Pending(None, [])
  {
    assert "x" + FieldLine(field, value) == FieldLine("x" + field, value);
    FieldReads("x" + field, value);
    assert ("x" + field)[0] != "event"[0] && ("x" + field)[0] != "data"[0];
  }

  lemma GlueDecodes(decode: Decoder, line: string)
    requires ReadsUtf8(decode) && OneLineText(line)
    ensures decode(StripCr(Encode(line))) == line
  {
    EncodedLine(decode, line);
    assert Decoded(decode, [Encode(line)])[0] == line;
  }

  /** And a comment just begun, behind an event name, lets the tail through: the glued line is a comment. */
  lemma ACommentLetsTheTailThrough(decode: Decoder, rule: string)
    requires ReadsUtf8(decode)
    ensures IsRead(decode, Encode(Unlines(["event: error"]) + ":"), AnthropicMessages, rule)
  {
    var line := FieldLine("event", "error");
    assert line == "event: error";
    TailLinesAreLines(AnthropicMessages, rule);
    NamedPending(decode, "error");
    CommentBegun(decode, Encode(Unlines([line])), TailLines(AnthropicMessages, rule)[0]);
    EncodeConcat(Unlines([line]), ":");
  }

  lemma NamedPending(decode: Decoder, kind: string)
    requires ReadsUtf8(decode) && OneLineText(kind)
    ensures Rest(Encode(Unlines([FieldLine("event", kind)]))) == []
    ensures PendingAfter(Decoded(decode, Lines(Encode(Unlines([FieldLine("event", kind)]))))) == Pending(Some(kind), [])
  {
    var line := FieldLine("event", kind);
    assert OneLineText("event");
    FieldLineIsOneLine("event", kind);
    LinesReadBack(decode, [line]);
    assert [] + [line] == [line];
    AddLine([], "event", kind);
    NothingPending();
  }

  lemma CommentBegun(decode: Decoder, bytes: seq<byte>, first: string)
    requires ReadsUtf8(decode) && Rest(bytes) == [] && OneLineText(first)
    ensures Lines(bytes + Encode(":")) == Lines(bytes) && Rest(bytes + Encode(":")) == Encode(":")
    ensures decode(StripCr(Rest(bytes + Encode(":")) + Encode(first))) == ":" + first
    ensures IsComment(":" + first)
  {
    EncodeOne(':');
    LinesConcat(bytes, Encode(":"));
    assert [] + Encode(":") == Encode(":");
    NoLine(Encode(":"));
    assert Lines(bytes) + [] == Lines(bytes);
    OneLineConcat(":", first);
    EncodeConcat(":", first);
    GlueDecodes(decode, ":" + first);
  }

  // ---------- what the client's parser reports ----------

  /** The error event leaves each wire's sink reporting the rule, by its name. */
  lemma ErrorEventIsReported(json: JsonText, wire: Wire, rule: string)
    requires ParseEventJson(json, ErrorText(wire, rule)) == Some(ErrorValue(wire, rule))
    ensures wire.AnthropicMessages? ==>
              forall s :: Anthropic.OnEvent(json, s, TailEvents(wire, rule)[0]).error == Some(Message(rule))
    ensures wire.OpenAiResponses? ==>
              forall s :: Responses.OnEvent(json, s, TailEvents(wire, rule)[0]).error == Some(Message(rule))
    ensures wire.OpenAiChat? ==>
              forall s :: Chat.OnEvent(json, s, TailEvents(wire, rule)[0]).error == Some(Message(rule))
    ensures Joins(Message(rule), ["ashkelon rule", rule], " ")
  {
    MessageNamesTheRule(rule);
    var value := ErrorValue(wire, rule);
    match wire {
      case AnthropicMessages =>
        AnthropicReads(rule);
      case OpenAiResponses =>
        ResponsesReads(rule);
      case _ =>
        ChatReads(rule);
    }
  }

  lemma MessageNamesTheRule(rule: string)
    ensures Joins(Message(rule), ["ashkelon rule", rule], " ")
  {
    JoinsOne("ashkelon rule", " ");
    JoinsOneMore("ashkelon rule", ["ashkelon rule"], " ", rule);
    assert ["ashkelon rule"] + [rule] == ["ashkelon rule", rule] && "ashkelon rule" + " " == "ashkelon rule ";
  }

  lemma AnthropicReads(rule: string)
    ensures var value := ErrorValue(AnthropicMessages, rule);
            && value.GetStr("type") == Some("error")
            && value.Get("error").Some? && ErrorMessage(value.Get("error").value) == Message(rule)
    ensures forall s: Anthropic.State ::
              Anthropic.OnValue(s, "error", ErrorValue(AnthropicMessages, rule)).error == Some(Message(rule))
  {
    assert "type"[0] != "error"[0] && "type"[0] != "message"[0];
    var value := ErrorValue(AnthropicMessages, rule);
    GetSecond(value.fields[0], value.fields[1], []);
    assert [value.fields[0], value.fields[1]] + [] == value.fields;
    var inner := value.fields[1].value;
    GetSecond(inner.fields[0], inner.fields[1], []);
    assert [inner.fields[0], inner.fields[1]] + [] == inner.fields;
    assert "error"[0] != "message_start"[0] && "error"[0] != "content_block_start"[0]
        && "error"[0] != "content_block_delta"[0] && "error"[0] != "message_delta"[0];
  }

  lemma ResponsesReads(rule: string)
    ensures ErrorValue(OpenAiResponses, rule).GetStr("type") == Some("response.failed")
    ensures forall s: Responses.State ::
              Responses.OnValue(s, "response.failed", ErrorValue(OpenAiResponses, rule)).error == Some(Message(rule))
  {
    var value := ErrorValue(OpenAiResponses, rule);
    var resp := value.fields[1].value;
    FailedValueReads(rule);
    forall s: Responses.State
      ensures Responses.OnValue(s, "response.failed", value).error == Some(Message(rule))
    {
      FailedEvent(s, value, resp);
    }
  }

  lemma FailedValueReads(rule: string)
    ensures var value := ErrorValue(OpenAiResponses, rule);
            && value.Get("response") == Some(value.fields[1].value)
            && Present(value, "error").None?
            && var error := Present(value.fields[1].value, "error");
               error.Some? && ErrorMessage(error.value) == Message(rule)
  {
    var value := ErrorValue(OpenAiResponses, rule);
    var resp := value.fields[1].value;
    var inner := resp.fields[1].value;
    assert "type"[0] != "response"[0] && "type"[0] != "error"[0] && "response"[0] != "error"[0];
    assert "status"[0] != "error"[0] && "code"[0] != "message"[0];
    GetSecond(value.fields[0], value.fields[1], []);
    assert [value.fields[0], value.fields[1]] + [] == value.fields;
    GetSecond(resp.fields[0], resp.fields[1], []);
    assert [resp.fields[0], resp.fields[1]] + [] == resp.fields;
    GetSecond(inner.fields[0], inner.fields[1], []);
    assert [inner.fields[0], inner.fields[1]] + [] == inner.fields;
    assert Lookup(value.fields, "error") == Lookup(value.fields[1..], "error") == Lookup(value.fields[1..][1..], "error");
  }

  lemma FailedEvent(s: Responses.State, value: Value, resp: Value)
    requires value.Get("response") == Some(resp) && Present(value, "error").None? && Present(resp, "error").Some?
    ensures Responses.OnValue(s, "response.failed", value).error == Some(ErrorMessage(Present(resp, "error").value))
  {
    assert "response.failed"[9] != "response.output_item.done"[9] && "response.failed"[9] != "response.created"[9];
    assert "response.failed"[9] != "response.in_progress"[9] && "response.failed"[9] != "response.output_text.delta"[9];
  }

  lemma ChatReads(rule: string)
    ensures var error := Present(ErrorValue(OpenAiChat, rule), "error");
            error.Some? && ErrorMessage(error.value) == Message(rule)
  {
  }
}
