/**
 The marked block in a shell start-up file (`src/install/shell_wrapper.rs:5-68`). The block is replaced in place when both
 markers are found, and appended otherwise.
 */
module ShellWrapper {
  import opened Wrappers
  import opened Texts

  const BEGIN := "# >>> ashkelon channel wrapper >>>"
  const END := "# <<< ashkelon channel wrapper <<<"

  /** The first occurrence at or after a position. */
  function FindFrom(text: string, pattern: string, from: nat): (found: Option<nat>)
    ensures found.Some? ==> from <= found.value && Occurs(text, pattern, found.value)
    ensures forall i: nat :: from <= i && Occurs(text, pattern, i) ==> found.Some? && found.value <= i
    decreases |text| - from
  {
    if from + |pattern| > |text| then None
    else if Occurs(text, pattern, from) then Some(from)
    else FindFrom(text, pattern, from + 1)
  }

  /** `str::find` */
  function Find(text: string, pattern: string): Option<nat> {
    FindFrom(text, pattern, 0)
  }

  /** A pair of markers: lines of equal length. */
  predicate IsMarker(begin: string, end: string) {
    |begin| == |end| && '\n' !in begin && '\n' !in end
  }

  /** Where the text after a block starts: past the end marker and its line break. */
  function PastEnd(text: string, end: string, at: nat): (after: nat)
    requires Occurs(text, end, at)
    ensures at + |end| <= after <= |text|
  {
    if at + |end| < |text| && text[at + |end|] == '\n' then at + |end| + 1 else at + |end|
  }

  function WithLineEnd(text: string): string {
    if text != "" && text[|text| - 1] != '\n' then text + "\n" else text
  }

  function Upsert(begin: string, end: string, existing: string, block: string): string {
    var start, stop := Find(existing, begin), Find(existing, end);
    if start.Some? && stop.Some? then
      existing[..start.value] + block + existing[PastEnd(existing, end, stop.value)..]
    else
      WithLineEnd(existing) + block
  }

  function UpsertBlock(existing: string, block: string): string {
    Upsert(BEGIN, END, existing, block)
  }

  /** A block as the installer writes it: it opens with one marker and its only end marker is its last line. */
  predicate IsBlock(begin: string, end: string, block: string) {
    && begin <= block
    && Find(block, end) == Some(|block| - |end| - 1)
    && |block| > |begin| + |end|
    && block[|block| - 1] == '\n'
  }

  /** A file the installer handles well: no marker at all, or a start marker before the first end marker. */
  predicate WellMarked(begin: string, end: string, text: string) {
    var start, stop := Find(text, begin), Find(text, end);
    (start.None? && stop.None?) || (start.Some? && stop.Some? && start.value < stop.value)
  }

  // ---------- occurrences ----------

  /** Two texts agree on whether a pattern occurs at a place they share. */
  lemma SharedPlace(text: string, other: string, pattern: string, i: nat)
    requires i + |pattern| <= |text| && i + |pattern| <= |other|
    requires text[..i + |pattern|] == other[..i + |pattern|]
    ensures Occurs(text, pattern, i) == Occurs(other, pattern, i)
  {
    assert text[i..i + |pattern|] == text[..i + |pattern|][i..];
    assert other[i..i + |pattern|] == other[..i + |pattern|][i..];
  }

  /** The first occurrence of a pattern stays where it is when only text behind it changes. */
  lemma FirstStays(text: string, other: string, pattern: string, at: nat)
    requires Find(text, pattern) == Some(at) && at + |pattern| <= |other|
    requires text[..at + |pattern|] == other[..at + |pattern|]
    ensures Find(other, pattern) == Some(at)
  {
    SharedPlace(text, other, pattern, at);
    forall i: nat | i < at ensures !Occurs(other, pattern, i) {
      assert text[..i + |pattern|] == text[..at + |pattern|][..i + |pattern|];
      assert other[..i + |pattern|] == other[..at + |pattern|][..i + |pattern|];
      SharedPlace(text, other, pattern, i);
    }
  }

  /** A one-line pattern never spans a line break. */
  lemma BreakNotInside(text: string, pattern: string, i: nat, k: nat)
    requires '\n' !in pattern && i <= k < |text| && text[k] == '\n'
    ensures Occurs(text, pattern, i) ==> i + |pattern| <= k
  {
    if k < i + |pattern| <= |text| {
      assert text[i..i + |pattern|][k - i] == '\n';
    }
  }

  lemma NotAcross(lines: string, rest: string, pattern: string, i: nat)
    requires '\n' !in pattern && i < |lines| && lines[|lines| - 1] == '\n'
    ensures Occurs(lines + rest, pattern, i) ==> Occurs(lines, pattern, i)
  {
    BreakNotInside(lines + rest, pattern, i, |lines| - 1);
    if i + |pattern| <= |lines| {
      assert (lines + rest)[i..i + |pattern|] == lines[i..i + |pattern|];
    }
  }

  lemma OccursBehind(lines: string, rest: string, pattern: string, i: nat)
    ensures Occurs(lines + rest, pattern, |lines| + i) == Occurs(rest, pattern, i)
  {
    if i + |pattern| <= |rest| {
      assert (lines + rest)[|lines| + i..|lines| + i + |pattern|] == rest[i..i + |pattern|];
    }
  }

  /** Searching whole lines followed by anything: first among the lines, then behind them. */
  lemma FindBehind(lines: string, rest: string, pattern: string)
    requires lines == WithLineEnd(lines) && '\n' !in pattern
    requires Find(lines, pattern).None?
    ensures Find(lines + rest, pattern)
         == match Find(rest, pattern) case Some(at) => Some(|lines| + at) case None => None
  {
    forall i: nat | i < |lines| ensures !Occurs(lines + rest, pattern, i) {
      NotAcross(lines, rest, pattern, i);
    }
    forall i: nat { OccursBehind(lines, rest, pattern, i); }
    var found := Find(lines + rest, pattern);
    if found.Some? {
      var at: nat := found.value - |lines|;
      assert Occurs(rest, pattern, at);
    }
  }

  /** Ending the last line adds no occurrence and moves none. */
  lemma FindWithLineEnd(text: string, pattern: string)
    requires '\n' !in pattern && pattern != ""
    ensures Find(WithLineEnd(text), pattern) == Find(text, pattern)
  {
    var ended := WithLineEnd(text);
    forall i: nat ensures Occurs(ended, pattern, i) == Occurs(text, pattern, i) {
      if |ended| > |text| && i <= |text| {
        BreakNotInside(ended, pattern, i, |text|);
      }
      if i + |pattern| <= |text| {
        assert ended[i..i + |pattern|] == text[i..i + |pattern|];
      }
    }
  }

  /** The markers of a block that stands behind whole lines without them are found at their place. */
  lemma BlockIsFound(begin: string, end: string, lines: string, block: string)
    requires IsMarker(begin, end) && begin != "" && IsBlock(begin, end, block) && lines == WithLineEnd(lines)
    ensures Find(lines, begin).None? ==> Find(lines + block, begin) == Some(|lines|)
    ensures Find(lines, end).None? ==> Find(lines + block, end) == Some(|lines| + |block| - |end| - 1)
  {
    assert block[..|begin|] == begin;
    assert Occurs(block, begin, 0);
    if Find(lines, begin).None? {
      FindBehind(lines, block, begin);
    }
    if Find(lines, end).None? {
      FindBehind(lines, block, end);
    }
  }

  /** Without markers: the first write appends, the second replaces exactly what was appended. */
  lemma AppendedThenReplaced(begin: string, end: string, text: string, first: string, second: string)
    requires IsMarker(begin, end) && begin != "" && IsBlock(begin, end, first)
    requires Find(text, begin).None? && Find(text, end).None?
    ensures Upsert(begin, end, Upsert(begin, end, text, first), second) == Upsert(begin, end, text, second)
  {
    var lines := WithLineEnd(text);
    FindWithLineEnd(text, begin);
    FindWithLineEnd(text, end);
    BlockIsFound(begin, end, lines, first);
    ReplaceAtTheEnd(begin, end, lines, first, second);
  }

  lemma ReplaceAtTheEnd(begin: string, end: string, lines: string, first: string, second: string)
    requires IsBlock(begin, end, first)
    requires Find(lines + first, begin) == Some(|lines|)
    requires Find(lines + first, end) == Some(|lines| + |first| - |end| - 1)
    ensures Upsert(begin, end, lines + first, second) == lines + second
  {
    var written := lines + first;
    assert written[..|lines|] == lines;
    assert PastEnd(written, end, |written| - |end| - 1) == |written|;
    assert written[|written|..] == "";
  }

  /** What a replacement leaves in front of and behind the new block. */
  lemma Replaced(begin: string, end: string, text: string, block: string)
    requires IsMarker(begin, end) && begin != "" && IsBlock(begin, end, block)
    requires Find(text, begin).Some? && Find(text, end).Some?
    ensures Upsert(begin, end, text, block)
         == text[..Find(text, begin).value] + block + text[PastEnd(text, end, Find(text, end).value)..]
    ensures Find(Upsert(begin, end, text, block), begin) == Find(text, begin)
    ensures var start := Find(text, begin).value;
      Upsert(begin, end, text, block)[..start + |begin|] == text[..start + |begin|]
  {
    var start := Find(text, begin).value;
    var after := Upsert(begin, end, text, block);
    assert text[..start + |begin|] == text[..start] + begin;
    assert after[..start + |begin|] == text[..start] + begin by {
      assert block[..|begin|] == begin;
    }
    FirstStays(text, after, begin, start);
  }

  /** A pattern that first occurs in a block behind some text, and not across their border, first occurs there. */
  lemma FirstInBlock(head: string, block: string, rest: string, pattern: string, at: nat)
    requires Find(block, pattern) == Some(at)
    requires forall i: nat :: i < |head| ==> !Occurs(head + block + rest, pattern, i)
    ensures Find(head + block + rest, pattern) == Some(|head| + at)
  {
    var all := head + block + rest;
    forall i: nat | |head| <= i <= |head| + at ensures Occurs(all, pattern, i) == Occurs(block, pattern, i - |head|) {
      assert all[i..i + |pattern|] == block[i - |head|..i - |head| + |pattern|];
    }
    assert Occurs(all, pattern, |head| + at);
  }

  /** The first end marker after a replacement in which it came after the start marker: the new block's own. */
  lemma ReplacedEnd(begin: string, end: string, text: string, block: string)
    requires IsMarker(begin, end) && begin != "" && IsBlock(begin, end, block)
    requires Find(text, begin).Some? && Find(text, end).Some? && Find(text, begin).value < Find(text, end).value
    ensures Find(Upsert(begin, end, text, block), end) == Some(Find(text, begin).value + |block| - |end| - 1)
  {
    Replaced(begin, end, text, block);
    var start := Find(text, begin).value;
    var after := Upsert(begin, end, text, block);
    forall i: nat | i < start ensures !Occurs(after, end, i) {
      SamePrefix(text, after, start + |begin|, i + |end|);
      SharedPlace(text, after, end, i);
    }
    FirstInBlock(text[..start], block, text[PastEnd(text, end, Find(text, end).value)..], end, |block| - |end| - 1);
  }

  lemma SamePrefix(text: string, other: string, long: nat, short: nat)
    requires short <= long <= |text| && long <= |other| && text[..long] == other[..long]
    ensures text[..short] == other[..short]
  {
    assert text[..short] == text[..long][..short];
    assert other[..short] == other[..long][..short];
  }

  lemma ReplacedTwice(begin: string, end: string, text: string, first: string, second: string)
    requires IsMarker(begin, end) && begin != "" && IsBlock(begin, end, first)
    requires Find(text, begin).Some? && Find(text, end).Some? && Find(text, begin).value < Find(text, end).value
    ensures Upsert(begin, end, Upsert(begin, end, text, first), second) == Upsert(begin, end, text, second)
  {
    Replaced(begin, end, text, first);
    ReplacedEnd(begin, end, text, first);
    var start := Find(text, begin).value;
    var written := Upsert(begin, end, text, first);
    var rest := text[PastEnd(text, end, Find(text, end).value)..];
    assert written == text[..start] + first + rest;
    assert written[..start] == text[..start];
    assert written[start + |first| - 1] == '\n';
    assert PastEnd(written, end, start + |first| - |end| - 1) == start + |first|;
    assert written[start + |first|..] == rest;
  }

  /** An end marker before the first start marker stays the first one, and everything behind it is kept twice. */
  lemma StrayEndGrows(begin: string, end: string, text: string, first: string, second: string)
    requires IsMarker(begin, end) && begin != "" && IsBlock(begin, end, first)
    requires Find(text, begin).Some? && Find(text, end).Some? && Find(text, end).value < Find(text, begin).value
    ensures |Upsert(begin, end, Upsert(begin, end, text, first), second)| > |Upsert(begin, end, text, second)|
  {
    Replaced(begin, end, text, first);
    var start, stop := Find(text, begin).value, Find(text, end).value;
    var written := Upsert(begin, end, text, first);
    var head := written[..start + |begin|];
    assert text[..stop + |end|] == head[..stop + |end|] == written[..stop + |end|];
    FirstStays(text, written, end, stop);
    assert PastEnd(written, end, stop) <= start + |begin|;
    assert head == text[..start + |begin|];
    assert stop + |end| < |head|;
    assert written[stop + |end|] == head[stop + |end|] == text[stop + |end|];
  }

  /** An end marker and no start marker: the block written first is never replaced. */
  lemma LoneEndGrows(begin: string, end: string, text: string, first: string, second: string)
    requires IsMarker(begin, end) && begin != "" && IsBlock(begin, end, first)
    requires Find(text, begin).None? && Find(text, end).Some?
    ensures |Upsert(begin, end, Upsert(begin, end, text, first), second)| > |Upsert(begin, end, text, second)|
  {
    var lines := WithLineEnd(text);
    FindWithLineEnd(text, begin);
    FindWithLineEnd(text, end);
    BlockIsFound(begin, end, lines, first);
    var stop := Find(lines, end).value;
    assert (lines + first)[..stop + |end|] == lines[..stop + |end|];
    FirstStays(lines, lines + first, end, stop);
    assert |(lines + first)[PastEnd(lines + first, end, stop)..]| > 0;
  }

  /** A start marker and no end marker: the second write takes everything from that marker on. */
  lemma LoneBeginShrinks(begin: string, end: string, text: string, first: string, second: string)
    requires IsMarker(begin, end) && begin != "" && IsBlock(begin, end, first)
    requires Find(text, begin).Some? && Find(text, end).None?
    ensures |Upsert(begin, end, Upsert(begin, end, text, first), second)| < |Upsert(begin, end, text, second)|
  {
    var lines := WithLineEnd(text);
    FindWithLineEnd(text, begin);
    FindWithLineEnd(text, end);
    BlockIsFound(begin, end, lines, first);
    var start := Find(lines, begin).value;
    assert (lines + first)[..start + |begin|] == lines[..start + |begin|];
    FirstStays(lines, lines + first, begin, start);
    ReplaceFrom(begin, end, lines + first, start, second);
  }

  lemma ReplaceFrom(begin: string, end: string, text: string, start: nat, block: string)
    requires Find(text, begin) == Some(start) && text != "" && text[|text| - 1] == '\n'
    requires |text| > |end| && Find(text, end) == Some(|text| - |end| - 1)
    ensures |Upsert(begin, end, text, block)| == start + |block|
  {
    assert PastEnd(text, end, |text| - |end| - 1) == |text|;
  }

  /**
   Installing twice is installing once with the later block, exactly when the file had no marker or had them in order. In
   the other files the second run keeps a block it should replace, or drops text behind a start marker without an end.
   */
  lemma SecondInstallReplacesFirstExactlyWhen(begin: string, end: string, text: string, first: string, second: string)
    requires IsMarker(begin, end) && begin != "" && begin != end && IsBlock(begin, end, first)
    ensures Upsert(begin, end, Upsert(begin, end, text, first), second) == Upsert(begin, end, text, second)
       <==> WellMarked(begin, end, text)
  {
    match (Find(text, begin), Find(text, end))
    case (None, None) => AppendedThenReplaced(begin, end, text, first, second);
    case (None, Some(_)) => LoneEndGrows(begin, end, text, first, second);
    case (Some(_), None) => LoneBeginShrinks(begin, end, text, first, second);
    case (Some(start), Some(stop)) =>
      if start < stop {
        ReplacedTwice(begin, end, text, first, second);
      } else {
        StrayEndGrows(begin, end, text, first, second);
      }
  }

  /** A well-marked file stays one, so every later run replaces the block too. */
  lemma StaysWellMarked(begin: string, end: string, text: string, block: string)
    requires IsMarker(begin, end) && begin != "" && IsBlock(begin, end, block) && WellMarked(begin, end, text)
    ensures WellMarked(begin, end, Upsert(begin, end, text, block))
  {
    if Find(text, begin).Some? {
      Replaced(begin, end, text, block);
      ReplacedEnd(begin, end, text, block);
    } else {
      FindWithLineEnd(text, begin);
      FindWithLineEnd(text, end);
      BlockIsFound(begin, end, WithLineEnd(text), block);
    }
  }

  // ---------- what a write keeps ----------

  /** Without both markers: the file stands in front as it was, and then the block, one line break between them if needed. */
  lemma BlockGoesBehind(begin: string, end: string, text: string, block: string)
    requires Find(text, begin).None? || Find(text, end).None?
    ensures Joins(Upsert(begin, end, text, block), [text, block],
                  if text != "" && text[|text| - 1] != '\n' then "\n" else "")
  {
    JoinsOne(text, "\n");
    JoinsOne(text, "");
    JoinsOneMore(text, [text], "\n", block);
    JoinsOneMore(text, [text], "", block);
    assert [text] + [block] == [text, block];
    NoSeparator(text, block);
  }

  /** A block that stands behind whole lines without markers is replaced, and nothing around it changes. */
  lemma BlockIsReplaced(begin: string, end: string, head: string, first: string, tail: string, second: string)
    requires IsMarker(begin, end) && begin != "" && IsBlock(begin, end, first)
    requires head == WithLineEnd(head) && Find(head, begin).None? && Find(head, end).None?
    ensures Upsert(begin, end, head + first + tail, second) == head + second + tail
  {
    Together(head, first, tail);
    BeginsFirst(begin, end, first);
    FirstInFront(first, tail, begin, 0);
    FirstInFront(first, tail, end, |first| - |end| - 1);
    FindBehind(head, first + tail, begin);
    FindBehind(head, first + tail, end);
    ReplaceBetween(begin, end, head, first, tail, second);
  }

  lemma Together(head: string, block: string, tail: string)
    ensures head + block + tail == head + (block + tail)
  {
  }

  lemma BeginsFirst(begin: string, end: string, block: string)
    requires IsBlock(begin, end, block)
    ensures Find(block, begin) == Some(0)
  {
    assert block[..|begin|] == begin;
    assert Occurs(block, begin, 0);
  }

  lemma FirstInFront(block: string, tail: string, pattern: string, at: nat)
    requires at + |pattern| <= |block| && Find(block, pattern) == Some(at)
    ensures Find(block + tail, pattern) == Some(at)
  {
    assert (block + tail)[..at + |pattern|] == block[..at + |pattern|];
    FirstStays(block, block + tail, pattern, at);
  }

  lemma ReplaceBetween(begin: string, end: string, head: string, first: string, tail: string, second: string)
    requires |first| > |end| && first[|first| - 1] == '\n'
    requires Find(head + first + tail, begin) == Some(|head|)
    requires Find(head + first + tail, end) == Some(|head| + |first| - |end| - 1)
    ensures Upsert(begin, end, head + first + tail, second) == head + second + tail
  {
    var text := head + first + tail;
    BetweenThem(head, first, tail);
    assert PastEnd(text, end, |head| + |first| - |end| - 1) == |head| + |first|;
  }

  lemma BetweenThem(head: string, first: string, tail: string)
    requires first != ""
    ensures (head + first + tail)[..|head|] == head && (head + first + tail)[|head| + |first|..] == tail
    ensures (head + first + tail)[|head| + |first| - 1] == first[|first| - 1]
  {
  }

  // ---------- the installer's own block ----------

  const OPENING := "claude() {\n  command claude "
  const FLAG := "--dangerously-load-development-channels"
  const CLOSING := " server:ashkelon \"$@\"\n}"
  const WRAPPER := OPENING + FLAG + CLOSING

  function Block(begin: string, end: string, body: string): string {
    begin + "\n" + body + "\n" + end + "\n"
  }

  lemma {:induction false} BodyWithoutHashIsBlock(begin: string, end: string, body: string)
    requires |begin| == |end| > 2 && end[0] == '#' && '#' !in body
    requires begin[2] != end[2] && forall i :: 0 < i < |begin| ==> begin[i] != '#'
    ensures IsBlock(begin, end, Block(begin, end, body))
  {
    var block := Block(begin, end, body);
    var at := |block| - |end| - 1;
    assert block[at..at + |end|] == end && Occurs(block, end, at);
    forall i: nat | i < at ensures !Occurs(block, end, i) {
      if i == 0 {
        assert block[0..|end|][2] == begin[2];
      } else {
        assert i < |begin| ==> block[i] == begin[i];
        assert |begin| < i < |begin| + 1 + |body| ==> block[i] == body[i - |begin| - 1];
        assert block[i] != '#';
        assert block[i..i + |end|][0] == block[i];
      }
    }
  }

  lemma NotInThree(c: char, first: string, second: string, third: string)
    requires c !in first && c !in second && c !in third
    ensures c !in first + second + third
  {}

  lemma WrapperHasNoHash()
    ensures '#' !in WRAPPER
  {
    assert '#' !in OPENING;
    assert '#' !in FLAG;
    assert '#' !in CLOSING;
    NotInThree('#', OPENING, FLAG, CLOSING);
  }

  lemma OwnMarkers()
    ensures IsMarker(BEGIN, END) && BEGIN != "" && BEGIN != END && IsBlock(BEGIN, END, Block(BEGIN, END, WRAPPER))
  {
    WrapperHasNoHash();
    BodyWithoutHashIsBlock(BEGIN, END, WRAPPER);
  }

  /** For the installer's own markers and block: a second run changes nothing, exactly on well-marked files. */
  lemma RerunIsIdempotentExactlyWhen(text: string)
    ensures var block := Block(BEGIN, END, WRAPPER);
      UpsertBlock(UpsertBlock(text, block), block) == UpsertBlock(text, block) <==> WellMarked(BEGIN, END, text)
  {
    OwnMarkers();
    var block := Block(BEGIN, END, WRAPPER);
    SecondInstallReplacesFirstExactlyWhen(BEGIN, END, text, block, block);
  }
}
