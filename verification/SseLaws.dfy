/**
 What a reader makes of written events (`src/usage/sse.rs`): however the lines are ended, and whatever comments and foreign
 fields stand between them, the events that were written are read back, no more and no less.
 */
module SseLaws {
  import opened Wrappers
  import opened Sse
  import opened Utf8

  // ---------- one line ----------

  function FieldLine(field: string, value: string): string {
    field + ": " + value
  }

  lemma {:induction false} IndexOfFirst(before: string, after: string)
    requires ':' !in before
    ensures IndexOf(before + ":" + after, ':') == Some(|before|)
  {
    var text := before + ":" + after;
    if before != "" {
      IndexOfFirst(before[1..], after);
      assert text[1..] == before[1..] + ":" + after;
    }
  }

  /** A line written `field: value` is read as that field and value. */
  lemma FieldReads(field: string, value: string)
    requires field != "" && ':' !in field
    ensures FieldOf(FieldLine(field, value)) == (field, value) && !IsComment(FieldLine(field, value))
    ensures FieldLine(field, value) != ""
  {
    var line := FieldLine(field, value);
    assert line == field + ":" + (" " + value);
    IndexOfFirst(field, " " + value);
    assert line[|field| + 1..] == " " + value && line[..|field|] == field;
    assert line[0] == field[0];
  }

  /** The three forms of a field line; at most one space is taken off the value. */
  lemma FieldForms(field: string, value: string)
    requires ':' !in field
    ensures FieldOf(field) == (field, "")
    ensures FieldOf(field + ": " + value) == (field, value)
    ensures value != "" && value[0] != ' ' ==> FieldOf(field + ":" + value) == (field, value)
    ensures FieldOf(field + ":") == (field, "")
  {
    NoColon(field);
    IndexOfFirst(field, " " + value);
    IndexOfFirst(field, value);
    IndexOfFirst(field, "");
    var spaced, tight, bare := field + ": " + value, field + ":" + value, field + ":";
    assert spaced == field + ":" + (" " + value) && bare == field + ":" + "";
    assert spaced[..|field|] == field && spaced[|field| + 1..] == " " + value;
    assert tight[..|field|] == field && tight[|field| + 1..] == value;
    assert bare[..|field|] == field && bare[|field| + 1..] == "";
  }

  lemma {:induction false} NoColon(text: string)
    requires ':' !in text
    ensures IndexOf(text, ':') == None
  {
    if text != "" {
      NoColon(text[1..]);
    }
  }

  // ---------- one more line ----------

  /** What is pending when lines end: the fields of the open block. */
  function PendingAfter(lines: seq<string>): Pending {
    PendingOf(OpenBlock(lines))
  }

  lemma AddLine(lines: seq<string>, field: string, value: string)
    requires field != "" && ':' !in field
    ensures ClosedEvents(lines + [FieldLine(field, value)]) == ClosedEvents(lines)
    ensures PendingAfter(lines + [FieldLine(field, value)]) == AddField(PendingAfter(lines), field, value)
  {
    FieldReads(field, value);
    OpenSnoc(lines, FieldLine(field, value));
    PendingSnoc(OpenBlock(lines), FieldLine(field, value));
  }

  lemma AddBlank(lines: seq<string>)
    ensures ClosedEvents(lines + [""]) == ClosedEvents(lines) + EventFrom(PendingAfter(lines))
    ensures PendingAfter(lines + [""]) == Pending(None, [])
  {
    OpenSnoc(lines, "");
    EventFromPending(OpenBlock(lines));
    NothingPending();
  }

  lemma NothingPending()
    ensures PendingOf([]) == Pending(None, [])
  {
  }

  /** A data line and a blank line close one event, made of what was pending and that line. */
  lemma DataThenBlank(lines: seq<string>, data: string)
    ensures ClosedEvents(lines + [FieldLine("data", data)] + [""])
         == ClosedEvents(lines) + EventFrom(Pending(PendingAfter(lines).kind, PendingAfter(lines).data + [data]))
    ensures PendingAfter(lines + [FieldLine("data", data)] + [""]) == Pending(None, [])
  {
    AddLine(lines, "data", data);
    AddBlank(lines + [FieldLine("data", data)]);
    assert "event"[0] != "data"[0];
  }

  /** What is pending once a line that is not blank has been read. */
  function Taken(pending: Pending, line: string): Pending {
    if line == "" || IsComment(line) then pending else AddField(pending, FieldOf(line).0, FieldOf(line).1)
  }

  /** One more line, whatever it is. */
  lemma AnyLine(lines: seq<string>, line: string)
    ensures line == "" ==> ClosedEvents(lines + [line]) == ClosedEvents(lines) + EventFrom(PendingAfter(lines))
                           && PendingAfter(lines + [line]) == Pending(None, [])
    ensures line != "" ==> ClosedEvents(lines + [line]) == ClosedEvents(lines)
                           && PendingAfter(lines + [line]) == Taken(PendingAfter(lines), line)
  {
    if line == "" {
      AddBlank(lines);
    } else {
      OpenSnoc(lines, line);
      PendingSnoc(OpenBlock(lines), line);
    }
  }

  // ---------- reading line by line ----------

  /** What has been read: the events closed so far, and what is pending. */
  datatype Reading = Reading(events: seq<Event>, pending: Pending)

  const NOTHING_READ := Reading([], Pending(None, []))

  function ReadLine(r: Reading, line: string): Reading {
    if line == "" then Reading(r.events + EventFrom(r.pending), Pending(None, [])) else r.(pending := Taken(r.pending, line))
  }

  /** `ReadLine` as a closure. */
  function Reader(): (Reading, string) -> Reading {
    (r: Reading, line: string) => ReadLine(r, line)
  }

  function Fold(step: (Reading, string) -> Reading, r: Reading, lines: seq<string>): Reading {
    if lines == [] then r else step(Fold(step, r, lines[..|lines| - 1]), lines[|lines| - 1])
  }

  lemma {:induction false} FoldConcat(step: (Reading, string) -> Reading, r: Reading, a: seq<string>, b: seq<string>)
    ensures Fold(step, r, a + b) == Fold(step, Fold(step, r, a), b)
  {
    if b == [] {
      assert a + b == a;
    } else {
      assert (a + b)[..|a + b| - 1] == a + b[..|b| - 1];
      FoldConcat(step, r, a, b[..|b| - 1]);
    }
  }

  lemma FoldOne(step: (Reading, string) -> Reading, r: Reading, line: string)
    ensures Fold(step, r, [line]) == step(r, line)
  {
    assert [line][..0] == [];
  }

  function ReadingOf(lines: seq<string>): Reading {
    Reading(ClosedEvents(lines), PendingAfter(lines))
  }

  lemma {:induction false} LinesAreFolded(lines: seq<string>)
    ensures ReadingOf(lines) == Fold(Reader(), NOTHING_READ, lines)
  {
    if lines == [] {
      NothingPending();
    } else {
      LinesAreFolded(lines[..|lines| - 1]);
      AnyLine(lines[..|lines| - 1], lines[|lines| - 1]);
      assert lines == lines[..|lines| - 1] + [lines[|lines| - 1]];
    }
  }

  // ---------- lines and their ends ----------

  datatype LineEnd = Lf | CrLf

  function EndBytes(end: LineEnd): seq<byte> {
    match end case Lf => [LF] case CrLf => [CR, LF]
  }

  /** Lines as they are sent, each with an end of its own. */
  function Written(lines: seq<string>, ends: seq<LineEnd>): seq<byte>
    requires |ends| == |lines|
  {
    if lines == [] then [] else
    Written(lines[..|lines| - 1], ends[..|ends| - 1]) + Encode(lines[|lines| - 1]) + EndBytes(ends[|ends| - 1])
  }

  /** A line can be sent as one when it holds no line break and does not end like one. */
  predicate IsLine(line: string) {
    '\n' !in line && (line == "" || line[|line| - 1] != '\r')
  }

  lemma AppendLine(bytes: seq<byte>, line: seq<byte>)
    requires Rest(bytes) == [] && LF !in line
    ensures Lines((bytes + line) + [LF]) == Lines(bytes) + [line] && Rest((bytes + line) + [LF]) == []
  {
    OneLine(line);
    assert (bytes + line) + [LF] == bytes + (line + [LF]);
    LinesConcat(bytes, line + [LF]);
    assert [] + (line + [LF]) == line + [LF];
  }

  lemma NoCrAtTheEnd(line: string)
    requires IsLine(line)
    ensures LF !in Encode(line) && StripCr(Encode(line)) == Encode(line)
  {
    EncodeLacks(line, '\n');
    if line != "" {
      var before, last := line[..|line| - 1], line[|line| - 1];
      assert Encode(line) == Encode(before) + EncodeChar(last);
      LastByte(Encode(before), EncodeChar(last));
    }
  }

  lemma LastByte(bytes: seq<byte>, code: seq<byte>)
    requires code != []
    ensures (bytes + code)[|bytes + code| - 1] == code[|code| - 1] && code[|code| - 1] in code
  {
  }

  /** Whatever their ends, lines read back as they were written. */
  lemma {:induction false} LinesAreRead(decode: Decoder, lines: seq<string>, ends: seq<LineEnd>)
    requires ReadsUtf8(decode) && |ends| == |lines| && forall l :: l in lines ==> IsLine(l)
    ensures Decoded(decode, Lines(Written(lines, ends))) == lines && Rest(Written(lines, ends)) == []
  {
    if lines != [] {
      var shorter, last := lines[..|lines| - 1], lines[|lines| - 1];
      var before := Written(shorter, ends[..|ends| - 1]);
      assert lines == shorter + [last];
      LinesAreRead(decode, shorter, ends[..|ends| - 1]);
      LineIsRead(decode, before, last, ends[|ends| - 1]);
    }
  }

  lemma LineIsRead(decode: Decoder, bytes: seq<byte>, line: string, end: LineEnd)
    requires ReadsUtf8(decode) && IsLine(line) && Rest(bytes) == []
    ensures var all := bytes + Encode(line) + EndBytes(end);
      Decoded(decode, Lines(all)) == Decoded(decode, Lines(bytes)) + [line] && Rest(all) == []
  {
    NoCrAtTheEnd(line);
    var content := if end.CrLf? then Encode(line) + [CR] else Encode(line);
    assert bytes + Encode(line) + EndBytes(end) == (bytes + content) + [LF];
    AppendLine(bytes, content);
    DecodedConcat(decode, Lines(bytes), [content]);
    assert StripCr(content) == Encode(line);
    assert Decoded(decode, [content]) == [line];
  }

  // ---------- events ----------

  /** A text cut at its line breaks. */
  function Split(text: string): (lines: seq<string>)
    ensures lines != []
  {
    if text == "" then [""] else
    var before, last := Split(text[..|text| - 1]), text[|text| - 1];
    if last == '\n' then before + [""] else before[..|before| - 1] + [before[|before| - 1] + [last]]
  }

  lemma {:induction false} SplitLines(text: string)
    ensures Join(Split(text)) == text
    ensures forall l :: l in Split(text) ==> '\n' !in l
  {
    if text != "" {
      var front, last := text[..|text| - 1], text[|text| - 1];
      var before := Split(front);
      SplitLines(front);
      assert text == front + [last];
      assert before[|before| - 1] in before;
      if last == '\n' {
        assert (before + [""])[..|before|] == before;
      } else {
        JoinLonger(before, last);
      }
    }
  }

  lemma JoinLonger(lines: seq<string>, c: char)
    requires lines != []
    ensures Join(lines[..|lines| - 1] + [lines[|lines| - 1] + [c]]) == Join(lines) + [c]
  {
    var longer := lines[..|lines| - 1] + [lines[|lines| - 1] + [c]];
    assert longer[..|lines| - 1] == lines[..|lines| - 1];
    if |lines| > 1 {
      assert Join(lines) + [c] == Join(lines[..|lines| - 1]) + "\n" + (lines[|lines| - 1] + [c]);
    }
  }

  function DataLines(data: seq<string>): seq<string> {
    seq(|data|, i requires 0 <= i < |data| => FieldLine("data", data[i]))
  }

  function NameLines(kind: Option<string>): seq<string> {
    match kind case Some(k) => [FieldLine("event", k)] case None => []
  }

  /** An event as it is sent: its name if it has one, a line for each line of its data, and then a blank line. */
  function OpenLines(event: Event): seq<string> {
    NameLines(event.kind) + DataLines(Split(event.data))
  }

  function EventLines(event: Event): seq<string> {
    OpenLines(event) + [""]
  }

  /** The lines of events, one event after the other. */
  function Flat(events: seq<Event>, linesOf: Event -> seq<string>): seq<string> {
    if events == [] then [] else Flat(events[..|events| - 1], linesOf) + linesOf(events[|events| - 1])
  }

  /** `EventLines` as a closure. */
  function Writer(): Event -> seq<string> {
    (event: Event) => EventLines(event)
  }

  function AllLines(events: seq<Event>): seq<string> {
    Flat(events, Writer())
  }

  /** An event that can be sent: a name of one line, and data no line of which ends like a line break. */
  predicate IsSendable(event: Event) {
    (event.kind.Some? ==> IsLine(event.kind.value)) && forall l :: l in Split(event.data) ==> IsLine(l)
  }

  lemma DataLineReads(r: Reading, value: string)
    ensures Reader()(r, FieldLine("data", value)) == r.(pending := r.pending.(data := r.pending.data + [value]))
  {
    FieldReads("data", value);
    assert "event"[0] != "data"[0];
  }

  lemma NameLineReads(r: Reading, kind: string)
    ensures Reader()(r, FieldLine("event", kind)) == r.(pending := r.pending.(kind := Some(kind)))
  {
    FieldReads("event", kind);
  }

  lemma {:induction false} DataIsTaken(r: Reading, data: seq<string>)
    ensures Fold(Reader(), r, DataLines(data)) == r.(pending := r.pending.(data := r.pending.data + data))
  {
    if data == [] {
      assert r.pending.data + data == r.pending.data;
    } else {
      var shorter, last := data[..|data| - 1], data[|data| - 1];
      DataIsTaken(r, shorter);
      DataLineReads(r.(pending := r.pending.(data := r.pending.data + shorter)), last);
      assert DataLines(data)[..|data| - 1] == DataLines(shorter);
      assert (r.pending.data + shorter) + [last] == r.pending.data + data;
    }
  }

  lemma NameIsTaken(r: Reading, kind: Option<string>)
    requires r.pending.kind == None
    ensures Fold(Reader(), r, NameLines(kind)) == r.(pending := r.pending.(kind := kind))
  {
    if kind.Some? {
      FoldOne(Reader(), r, FieldLine("event", kind.value));
      NameLineReads(r, kind.value);
    }
  }

  /** The lines of an event before its blank line leave it pending. */
  lemma EventIsTaken(r: Reading, event: Event)
    requires r.pending == Pending(None, [])
    ensures Fold(Reader(), r, OpenLines(event)) == r.(pending := Pending(event.kind, Split(event.data)))
  {
    var data := Split(event.data);
    NameIsTaken(r, event.kind);
    DataIsTaken(r.(pending := Pending(event.kind, [])), data);
    FoldConcat(Reader(), r, NameLines(event.kind), DataLines(data));
    assert [] + data == data;
  }

  lemma EventIsRead(r: Reading, event: Event)
    requires r.pending == Pending(None, [])
    ensures Fold(Reader(), r, EventLines(event)) == Reading(r.events + [event], Pending(None, []))
  {
    EventIsTaken(r, event);
    FoldConcat(Reader(), r, OpenLines(event), [""]);
    FoldOne(Reader(), r.(pending := Pending(event.kind, Split(event.data))), "");
    SplitLines(event.data);
  }

  /** If each event is read from its lines, all are. */
  lemma {:induction false} FlatIsRead(step: (Reading, string) -> Reading, linesOf: Event -> seq<string>, events: seq<Event>)
    requires forall before, e ::
      Fold(step, Reading(before, Pending(None, [])), linesOf(e)) == Reading(before + [e], Pending(None, []))
    ensures Fold(step, NOTHING_READ, Flat(events, linesOf)) == Reading(events, Pending(None, []))
  {
    if events != [] {
      var shorter, last := events[..|events| - 1], events[|events| - 1];
      FlatIsRead(step, linesOf, shorter);
      FoldConcat(step, NOTHING_READ, Flat(shorter, linesOf), linesOf(last));
      assert events == shorter + [last];
    }
  }

  lemma EventsAreRead(events: seq<Event>)
    ensures Fold(Reader(), NOTHING_READ, AllLines(events)) == Reading(events, Pending(None, []))
  {
    forall before: seq<Event>, e: Event
      ensures Fold(Reader(), Reading(before, Pending(None, [])), Writer()(e)) == Reading(before + [e], Pending(None, []))
    {
      EventIsRead(Reading(before, Pending(None, [])), e);
    }
    FlatIsRead(Reader(), Writer(), events);
  }

  lemma {:induction false} FlatCanBeSent(events: seq<Event>, linesOf: Event -> seq<string>)
    requires forall e :: e in events ==> forall l :: l in linesOf(e) ==> IsLine(l)
    ensures forall l :: l in Flat(events, linesOf) ==> IsLine(l)
  {
    if events != [] {
      FlatCanBeSent(events[..|events| - 1], linesOf);
      assert events[|events| - 1] in events;
    }
  }

  lemma LinesCanBeSent(events: seq<Event>)
    requires forall e :: e in events ==> IsSendable(e)
    ensures forall l :: l in AllLines(events) ==> IsLine(l)
  {
    forall e | e in events ensures forall l :: l in Writer()(e) ==> IsLine(l) {
      EventCanBeSent(e);
    }
    FlatCanBeSent(events, Writer());
  }

  lemma EventCanBeSent(event: Event)
    requires IsSendable(event)
    ensures forall l :: l in EventLines(event) ==> IsLine(l)
  {
    if event.kind.Some? {
      FieldLineIsLine("event", event.kind.value);
    }
    forall i | 0 <= i < |Split(event.data)| ensures IsLine(DataLines(Split(event.data))[i]) {
      assert Split(event.data)[i] in Split(event.data);
      FieldLineIsLine("data", Split(event.data)[i]);
    }
  }

  lemma FieldLineIsLine(field: string, value: string)
    requires '\n' !in field && IsLine(value)
    ensures IsLine(FieldLine(field, value))
  {
  }

  /**
   Any list of events, sent with either line end after any of its lines, is read back as exactly those events, as they come
   and at the end of the stream.
   */
  lemma SentEventsAreRead(decode: Decoder, events: seq<Event>, ends: seq<LineEnd>)
    requires ReadsUtf8(decode) && |ends| == |AllLines(events)| && forall e :: e in events ==> IsSendable(e)
    ensures EventsSoFar(decode, Written(AllLines(events), ends)) == events
    ensures AllEvents(decode, Written(AllLines(events), ends)) == events
  {
    LinesCanBeSent(events);
    LinesAreRead(decode, AllLines(events), ends);
    EventsAreRead(events);
    LinesAreFolded(AllLines(events));
    NothingAtTheEnd(decode, Written(AllLines(events), ends));
  }

  /** When the bytes end on a line boundary, the end of the stream adds what the open block holds. */
  lemma NothingAtTheEnd(decode: Decoder, bytes: seq<byte>)
    requires Rest(bytes) == []
    ensures AllEvents(decode, bytes)
         == EventsSoFar(decode, bytes) + EventFrom(PendingAfter(Decoded(decode, Lines(bytes))))
  {
    EndOfStream(decode, bytes);
    EventFromPending(OpenBlock(Decoded(decode, Lines(bytes))));
  }

  /** And when the last blank line never comes, the last event is only read at the end of the stream. */
  lemma AnUnclosedEventIsReadAtTheEnd(decode: Decoder, events: seq<Event>, last: Event, ends: seq<LineEnd>)
    requires ReadsUtf8(decode) && IsSendable(last) && forall e :: e in events ==> IsSendable(e)
    requires |ends| == |AllLines(events) + OpenLines(last)|
    ensures EventsSoFar(decode, Written(AllLines(events) + OpenLines(last), ends)) == events
    ensures AllEvents(decode, Written(AllLines(events) + OpenLines(last), ends)) == events + [last]
  {
    var lines := AllLines(events) + OpenLines(last);
    LinesCanBeSent(events);
    EventCanBeSent(last);
    LinesAreRead(decode, lines, ends);
    EventsAreRead(events);
    EventIsTaken(Reading(events, Pending(None, [])), last);
    FoldConcat(Reader(), NOTHING_READ, AllLines(events), OpenLines(last));
    LinesAreFolded(lines);
    SplitLines(last.data);
    NothingAtTheEnd(decode, Written(lines, ends));
  }

  // ---------- what does not matter ----------

  /** A comment, or a field that is neither name nor data. */
  predicate IsNoise(line: string) {
    line != "" && (IsComment(line) || (FieldOf(line).0 != "event" && FieldOf(line).0 != "data"))
  }

  /** Such a line changes nothing, wherever it stands. */
  lemma NoiseIsIgnored(lines: seq<string>, noise: string, more: seq<string>)
    requires IsNoise(noise)
    ensures ReadingOf(lines + [noise] + more) == ReadingOf(lines + more)
  {
    LinesAreFolded(lines + [noise] + more);
    LinesAreFolded(lines + more);
    FoldConcat(Reader(), NOTHING_READ, lines + [noise], more);
    FoldConcat(Reader(), NOTHING_READ, lines, [noise]);
    FoldConcat(Reader(), NOTHING_READ, lines, more);
    FoldOne(Reader(), Fold(Reader(), NOTHING_READ, lines), noise);
  }
}
