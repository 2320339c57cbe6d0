/**
 The incremental Server-Sent Events splitter (`src/usage/sse.rs`) and the whole-stream reading it must agree with, for
 every way the bytes are cut into chunks. The format is that of section 9.2.5 and 9.2.6 of the WHATWG HTML Living
 Standard, except that a lone CR does not end a line and that an event pending at the end of the stream is dispatched.
 */
module Sse {
  import opened Wrappers

  type byte = b: int | 0 <= b < 256

  const LF: byte := 10
  const CR: byte := 13

  /** Lossy UTF-8 decoding: any total function that takes nothing to nothing. */
  type Decoder = f: seq<byte> -> string | f([]) == "" witness (bytes: seq<byte>) => ""

  datatype Event = Event(kind: Option<string>, data: string)

  // ---------- the whole stream at once ----------

  /** The lines ended by LF, and what follows the last of them. */
  function Lines(bytes: seq<byte>): seq<seq<byte>> {
    if bytes == [] then []
    else if bytes[|bytes| - 1] == LF then Lines(bytes[..|bytes| - 1]) + [Rest(bytes[..|bytes| - 1])]
    else Lines(bytes[..|bytes| - 1])
  }

  function Rest(bytes: seq<byte>): seq<byte> {
    if bytes == [] || bytes[|bytes| - 1] == LF then []
    else Rest(bytes[..|bytes| - 1]) + [bytes[|bytes| - 1]]
  }

  function StripCr(line: seq<byte>): seq<byte> {
    if line != [] && line[|line| - 1] == CR then line[..|line| - 1] else line
  }

  function Decoded(decode: Decoder, lines: seq<seq<byte>>): seq<string> {
    seq(|lines|, i requires 0 <= i < |lines| => decode(StripCr(lines[i])))
  }

  /** `line.find(c)` */
  function IndexOf(text: string, c: char): Option<nat> {
    if text == "" then None
    else if text[0] == c then Some(0)
    else match IndexOf(text[1..], c) case None => None case Some(k) => Some(k + 1)
  }

  /** `line.split_once(':')` with one leading space taken off the value. */
  function FieldOf(line: string): (string, string) {
    match IndexOf(line, ':')
    case None => (line, "")
    case Some(k) =>
      if k >= |line| then (line, "") else
      var value := line[k + 1..];
      (line[..k], if value != "" && value[0] == ' ' then value[1..] else value)
  }

  predicate IsComment(line: string) {
    line != "" && line[0] == ':'
  }

  /** The values a block gives one field, in order. */
  function ValuesOf(block: seq<string>, field: string): seq<string> {
    if block == [] then [] else
    var line := block[|block| - 1];
    ValuesOf(block[..|block| - 1], field)
    + (if !IsComment(line) && FieldOf(line).0 == field then [FieldOf(line).1] else [])
  }

  function Join(lines: seq<string>): string {
    if lines == [] then ""
    else if |lines| == 1 then lines[0]
    else Join(lines[..|lines| - 1]) + "\n" + lines[|lines| - 1]
  }

  function LastOf(values: seq<string>): Option<string> {
    if values == [] then None else Some(values[|values| - 1])
  }

  /** A block of lines is one event when it has data: its last `event`, its `data` lines joined. */
  function EventOf(block: seq<string>): seq<Event> {
    var data := ValuesOf(block, "data");
    if data == [] then [] else [Event(LastOf(ValuesOf(block, "event")), Join(data))]
  }

  /** The lines since the last blank one. */
  function OpenBlock(lines: seq<string>): seq<string> {
    if lines == [] || lines[|lines| - 1] == "" then []
    else OpenBlock(lines[..|lines| - 1]) + [lines[|lines| - 1]]
  }

  /** The events of the blocks that a blank line has closed. */
  function ClosedEvents(lines: seq<string>): seq<Event> {
    if lines == [] then []
    else if lines[|lines| - 1] == "" then ClosedEvents(lines[..|lines| - 1]) + EventOf(OpenBlock(lines[..|lines| - 1]))
    else ClosedEvents(lines[..|lines| - 1])
  }

  /** The events seen by the time `bytes` have arrived. */
  function EventsSoFar(decode: Decoder, bytes: seq<byte>): seq<Event> {
    ClosedEvents(Decoded(decode, Lines(bytes)))
  }

  /** The events of a complete stream: a line or block the stream ends in the middle of counts as ended. */
  function AllEvents(decode: Decoder, bytes: seq<byte>): seq<Event> {
    ClosedEvents(Decoded(decode, Lines(bytes) + [Rest(bytes)]) + [""])
  }

  // ---------- how the reading splits ----------

  lemma {:induction false} LinesConcat(a: seq<byte>, b: seq<byte>)
    ensures Lines(a + b) == Lines(a) + Lines(Rest(a) + b)
    ensures Rest(a + b) == Rest(Rest(a) + b)
  {
    if b == [] {
      assert a + b == a && Rest(a) + b == Rest(a);
      RestHasNoLine(a);
    } else {
      var shorter, last := b[..|b| - 1], b[|b| - 1];
      assert (a + b)[..|a + b| - 1] == a + shorter;
      assert (Rest(a) + b)[..|Rest(a) + b| - 1] == Rest(a) + shorter;
      LinesConcat(a, shorter);
    }
  }

  lemma {:induction false} NoLine(bytes: seq<byte>)
    requires LF !in bytes
    ensures Lines(bytes) == [] && Rest(bytes) == bytes
  {
    if bytes != [] {
      NoLine(bytes[..|bytes| - 1]);
    }
  }

  lemma {:induction false} RestHasNoLine(bytes: seq<byte>)
    ensures LF !in Rest(bytes) && Lines(Rest(bytes)) == [] && Rest(Rest(bytes)) == Rest(bytes)
  {
    if bytes != [] && bytes[|bytes| - 1] != LF {
      RestHasNoLine(bytes[..|bytes| - 1]);
    }
    NoLine(Rest(bytes));
  }

  lemma OneLine(line: seq<byte>)
    requires LF !in line
    ensures Lines(line + [LF]) == [line] && Rest(line + [LF]) == []
  {
    NoLine(line);
    assert (line + [LF])[..|line|] == line;
  }

  /** The first line of a buffer, and the rest of it. */
  lemma FirstLine(buf: seq<byte>, pos: nat)
    requires pos < |buf| && buf[pos] == LF && LF !in buf[..pos]
    ensures Lines(buf) == [buf[..pos]] + Lines(buf[pos + 1..])
    ensures Rest(buf) == Rest(buf[pos + 1..])
  {
    OneLine(buf[..pos]);
    assert buf == (buf[..pos] + [LF]) + buf[pos + 1..];
    AfterLine(buf[..pos], buf[pos + 1..], Lines(buf[..pos] + [LF]), Rest(buf[..pos] + [LF]));
  }

  lemma AfterLine(line: seq<byte>, later: seq<byte>, lines: seq<seq<byte>>, rest: seq<byte>)
    requires Lines(line + [LF]) == lines && Rest(line + [LF]) == rest && rest == []
    ensures Lines((line + [LF]) + later) == lines + Lines(later)
    ensures Rest((line + [LF]) + later) == Rest(later)
  {
    LinesConcat(line + [LF], later);
    assert rest + later == later;
  }

  lemma DecodedConcat(decode: Decoder, a: seq<seq<byte>>, b: seq<seq<byte>>)
    ensures Decoded(decode, a + b) == Decoded(decode, a) + Decoded(decode, b)
  {
  }

  // ---------- one more line ----------

  lemma ValuesSnoc(block: seq<string>, line: string, field: string)
    ensures ValuesOf(block + [line], field)
         == ValuesOf(block, field) + (if !IsComment(line) && FieldOf(line).0 == field then [FieldOf(line).1] else [])
  {
    assert (block + [line])[..|block|] == block;
  }

  lemma OpenSnoc(lines: seq<string>, line: string)
    ensures OpenBlock(lines + [line]) == if line == "" then [] else OpenBlock(lines) + [line]
    ensures ClosedEvents(lines + [line]) == ClosedEvents(lines) + (if line == "" then EventOf(OpenBlock(lines)) else [])
  {
    assert (lines + [line])[..|lines|] == lines;
  }

  /** What the splitter's fields hold for the lines of a block. */
  datatype Pending = Pending(kind: Option<string>, data: seq<string>)

  function PendingOf(block: seq<string>): Pending {
    Pending(LastOf(ValuesOf(block, "event")), ValuesOf(block, "data"))
  }

  function AddField(pending: Pending, field: string, value: string): Pending {
    if field == "event" then pending.(kind := Some(value))
    else if field == "data" then pending.(data := pending.data + [value])
    else pending
  }

  lemma PendingSnoc(block: seq<string>, line: string)
    ensures PendingOf(block + [line])
         == if IsComment(line) then PendingOf(block) else AddField(PendingOf(block), FieldOf(line).0, FieldOf(line).1)
  {
    ValuesSnoc(block, line, "event");
    ValuesSnoc(block, line, "data");
    assert "event"[0] != "data"[0];
  }

  function EventFrom(pending: Pending): seq<Event> {
    if pending.data == [] then [] else [Event(pending.kind, Join(pending.data))]
  }

  lemma EventFromPending(block: seq<string>)
    ensures EventFrom(PendingOf(block)) == EventOf(block)
  {
  }

  /** Events once seen stay seen: more bytes only add events behind them. */
  lemma EventsGrow(decode: Decoder, a: seq<byte>, b: seq<byte>)
    ensures EventsSoFar(decode, a) <= EventsSoFar(decode, a + b)
  {
    LinesConcat(a, b);
    DecodedConcat(decode, Lines(a), Lines(Rest(a) + b));
    ClosedGrows(Decoded(decode, Lines(a)), Decoded(decode, Lines(Rest(a) + b)));
  }

  lemma {:induction false} ClosedGrows(lines: seq<string>, more: seq<string>)
    ensures ClosedEvents(lines) <= ClosedEvents(lines + more)
  {
    if more == [] {
      assert lines + more == lines;
    } else {
      var shorter, last := more[..|more| - 1], more[|more| - 1];
      assert lines + more == (lines + shorter) + [last];
      ClosedGrows(lines, shorter);
      OpenSnoc(lines + shorter, last);
    }
  }

  // ---------- the splitter ----------

  class SseSplitter {
    const decode: Decoder
    var buf: seq<byte>
    var eventType: Option<string>
    var dataLines: seq<string>
    var anyFieldSeen: bool
    /** Everything fed so far, and the decoded lines taken from it. */
    ghost var fed: seq<byte>
    ghost var lines: seq<string>

    ghost predicate Holds(pending: Pending)
      reads this
    {
      eventType == pending.kind && dataLines == pending.data && (dataLines != [] ==> anyFieldSeen)
    }

    /** Between calls: everything up to the last LF is processed, the rest is buffered. */
    ghost predicate Valid()
      reads this
    {
      && lines == Decoded(decode, Lines(fed))
      && buf == Rest(fed)
      && Holds(PendingOf(OpenBlock(lines)))
    }

    constructor (decode: Decoder)
      ensures Valid() && fed == [] && this.decode == decode
    {
      this.decode := decode;
      buf, eventType, dataLines, anyFieldSeen := [], None, [], false;
      fed, lines := [], [];
    }

    method Dispatch(ghost pending: Pending) returns (events: seq<Event>)
      requires Holds(pending)
      modifies this`eventType, this`dataLines, this`anyFieldSeen
      ensures events == EventFrom(pending)
      ensures Holds(Pending(None, []))
    {
      events := [];
      if anyFieldSeen && dataLines != [] {
        events := [Event(eventType, Join(dataLines))];
      }
      eventType, dataLines, anyFieldSeen := None, [], false;
    }

    method TakeField(ghost pending: Pending, field: string, value: string)
      requires Holds(pending)
      modifies this`eventType, this`dataLines, this`anyFieldSeen
      ensures Holds(AddField(pending, field, value))
    {
      anyFieldSeen := true;
      if field == "event" {
        eventType := Some(value);
      } else if field == "data" {
        dataLines := dataLines + [value];
      }
    }

    method ProcessLine(line: string) returns (events: seq<Event>)
      requires Holds(PendingOf(OpenBlock(lines)))
      modifies this`eventType, this`dataLines, this`anyFieldSeen, this`lines
      ensures lines == old(lines) + [line] && Holds(PendingOf(OpenBlock(lines)))
      ensures ClosedEvents(lines) == ClosedEvents(old(lines)) + events
    {
      ghost var pending := PendingOf(OpenBlock(lines));
      OpenSnoc(lines, line);
      EventFromPending(OpenBlock(lines));
      PendingSnoc(OpenBlock(lines), line);
      ghost var before := lines;
      lines := lines + [line];
      events := [];
      if line == "" {
        events := Dispatch(pending);
        return;
      }
      if line[0] == ':' {
        return;
      }
      var (field, value) := FieldOf(line);
      TakeField(pending, field, value);
    }

    /** Whatever the chunk boundaries, the events so far are those of the bytes so far. */
    method Feed(chunk: seq<byte>) returns (events: seq<Event>)
      requires Valid()
      modifies this`buf, this`eventType, this`dataLines, this`anyFieldSeen, this`fed, this`lines
      ensures Valid() && fed == old(fed) + chunk
      ensures EventsSoFar(decode, fed) == EventsSoFar(decode, old(fed)) + events
    {
      LinesConcat(fed, chunk);
      DecodedConcat(decode, Lines(fed), Lines(buf + chunk));
      buf := buf + chunk;
      fed := fed + chunk;
      events := Drain();
    }

    /** One turn of the loop: the first buffered line is taken and processed. */
    method OneTurn() returns (events: seq<Event>)
      requires LF in buf
      requires Holds(PendingOf(OpenBlock(lines)))
      modifies this`buf, this`eventType, this`dataLines, this`anyFieldSeen, this`lines
      ensures |buf| < |old(buf)| && Rest(buf) == Rest(old(buf))
      ensures Holds(PendingOf(OpenBlock(lines)))
      ensures lines + Decoded(decode, Lines(buf)) == old(lines) + Decoded(decode, Lines(old(buf)))
      ensures ClosedEvents(lines) == ClosedEvents(old(lines)) + events
    {
      var line := TakeLine();
      events := ProcessLine(line);
      RegroupLines(old(lines), line, Decoded(decode, Lines(buf)));
    }

    /** The loop of `feed`: one line at a time until the buffer holds no LF. */
    method Drain() returns (events: seq<Event>)
      requires Holds(PendingOf(OpenBlock(lines)))
      modifies this`buf, this`eventType, this`dataLines, this`anyFieldSeen, this`lines
      ensures Holds(PendingOf(OpenBlock(lines)))
      ensures buf == Rest(old(buf))
      ensures lines == old(lines) + Decoded(decode, Lines(old(buf)))
      ensures ClosedEvents(lines) == ClosedEvents(old(lines)) + events
    {
      ghost var target, base := lines + Decoded(decode, Lines(buf)), ClosedEvents(lines);
      events := [];
      while LF in buf
        invariant Holds(PendingOf(OpenBlock(lines)))
        invariant Rest(buf) == Rest(old(buf))
        invariant lines + Decoded(decode, Lines(buf)) == target
        invariant ClosedEvents(lines) == base + events
        decreases |buf|
      {
        var more := OneTurn();
        Regroup(base, events, more);
        events := events + more;
      }
      NoLine(buf);
      assert Decoded(decode, []) == [];
    }

    /** Drains the buffer up to its first LF and decodes that line. */
    method TakeLine() returns (line: string)
      requires LF in buf
      modifies this`buf
      ensures |buf| < |old(buf)|
      ensures Rest(buf) == Rest(old(buf))
      ensures Decoded(decode, Lines(old(buf))) == [line] + Decoded(decode, Lines(buf))
    {
      var pos := Position(buf);
      var lineBytes := buf[..pos];
      FirstLine(buf, pos);
      buf := buf[pos + 1..];
      line := decode(StripCr(lineBytes));
      DecodedConcat(decode, [lineBytes], Lines(buf));
      assert Decoded(decode, [lineBytes]) == [line];
    }

    /** At the end of the stream, an unfinished line and an undispatched event are completed. */
    method Flush() returns (events: seq<Event>)
      requires Valid()
      modifies this`buf, this`eventType, this`dataLines, this`anyFieldSeen, this`lines
      ensures AllEvents(decode, fed) == EventsSoFar(decode, fed) + events
    {
      ghost var before := lines;
      events := TakeTail();
      var last := CloseBlock();
      StreamEnds(decode, fed, before, lines, events, last);
      events := events + last;
    }

    method CloseBlock() returns (events: seq<Event>)
      requires Holds(PendingOf(OpenBlock(lines)))
      modifies this`eventType, this`dataLines, this`anyFieldSeen
      ensures events == EventOf(OpenBlock(lines))
    {
      EventFromPending(OpenBlock(lines));
      events := Dispatch(PendingOf(OpenBlock(lines)));
    }

    /** The unfinished line at the end of the stream, unless it reads as blank. */
    method TakeTail() returns (events: seq<Event>)
      requires Holds(PendingOf(OpenBlock(lines)))
      modifies this`buf, this`eventType, this`dataLines, this`anyFieldSeen, this`lines
      ensures var tail := decode(StripCr(old(buf)));
              lines == if tail == "" then old(lines) else old(lines) + [tail]
      ensures Holds(PendingOf(OpenBlock(lines)))
      ensures ClosedEvents(lines) == ClosedEvents(old(lines)) + events
    {
      events := [];
      if buf != [] {
        var lineBytes := buf;
        buf := [];
        var line := decode(StripCr(lineBytes));
        if line != "" {
          events := ProcessLine(line);
        }
      }
    }
  }

  /** What the end of the stream adds: the buffered line, unless it reads as blank, and then a dispatch. */
  lemma EndOfStream(decode: Decoder, bytes: seq<byte>)
    ensures var lines, tail := Decoded(decode, Lines(bytes)), decode(StripCr(Rest(bytes)));
            var ended := if tail == "" then lines else lines + [tail];
            AllEvents(decode, bytes) == ClosedEvents(ended) + EventOf(OpenBlock(ended))
  {
    var lines, tail := Decoded(decode, Lines(bytes)), decode(StripCr(Rest(bytes)));
    DecodedConcat(decode, Lines(bytes), [Rest(bytes)]);
    assert Decoded(decode, [Rest(bytes)]) == [tail];
    OpenSnoc(lines + [tail], "");
    OpenSnoc(lines, tail);
    NothingOpen();
  }

  /** The events of a whole stream: those so far, those of the unfinished line, and that of the unfinished block. */
  lemma StreamEnds(decode: Decoder, bytes: seq<byte>, lines: seq<string>, ended: seq<string>,
                   ofTail: seq<Event>, last: seq<Event>)
    requires lines == Decoded(decode, Lines(bytes))
    requires var tail := decode(StripCr(Rest(bytes))); ended == if tail == "" then lines else lines + [tail]
    ensures ClosedEvents(ended) == ClosedEvents(lines) + ofTail && last == EventOf(OpenBlock(ended))
        ==> AllEvents(decode, bytes) == EventsSoFar(decode, bytes) + (ofTail + last)
  {
    EndOfStream(decode, bytes);
    Regroup(ClosedEvents(lines), ofTail, last);
  }

  lemma RegroupLines(a: seq<string>, line: string, b: seq<string>)
    ensures (a + [line]) + b == a + ([line] + b)
  {
  }

  lemma Regroup(a: seq<Event>, b: seq<Event>, c: seq<Event>)
    ensures (a + b) + c == a + (b + c)
  {
  }

  lemma NothingOpen()
    ensures EventOf([]) == []
  {
  }

  /** The position of the first LF. */
  method Position(buf: seq<byte>) returns (pos: nat)
    requires LF in buf
    ensures pos < |buf| && buf[pos] == LF && LF !in buf[..pos]
  {
    pos := 0;
    while buf[pos] != LF
      invariant pos < |buf| && LF !in buf[..pos]
      decreases |buf| - pos
    {
      assert LF in buf[pos + 1..] by {
        assert buf == buf[..pos] + [buf[pos]] + buf[pos + 1..];
      }
      assert buf[..pos + 1] == buf[..pos] + [buf[pos]];
      pos := pos + 1;
    }
  }
}
