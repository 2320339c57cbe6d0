/** What any number of installs leave in a shell start-up file (`src/install/mod.rs:52-106`, `shell_wrapper.rs:40-68`). */
module InstallLaws {
  import opened Wrappers
  import opened ShellWrapper
  import opened Install

  // ---------- writing the same block again and again ----------

  function Repeated(write: string -> string, text: string, times: nat): string {
    if times == 0 then text else write(Repeated(write, text, times - 1))
  }

  lemma {:induction false} RepeatedOnwards(write: string -> string, text: string, times: nat)
    ensures Repeated(write, write(text), times) == Repeated(write, text, times + 1)
  {
    if times > 0 {
      RepeatedOnwards(write, text, times - 1);
    }
  }

  lemma {:induction false} Settles(write: string -> string, text: string, times: nat)
    requires write(write(text)) == write(text) && times > 0
    ensures Repeated(write, text, times) == write(text)
  {
    if times > 1 {
      Settles(write, text, times - 1);
    } else {
      assert Repeated(write, text, 0) == text;
    }
  }

  predicate GrowsAt(write: string -> string, grows: string -> bool, text: string) {
    grows(text) ==> grows(write(text)) && |write(write(text))| > |write(text)|
  }

  /** A kind of text that stays of its kind and gets longer, at every write after the first. */
  ghost predicate Growing(write: string -> string, grows: string -> bool) {
    forall t :: GrowsAt(write, grows, t)
  }

  lemma {:induction false} Grows(write: string -> string, grows: string -> bool, text: string, times: nat)
    requires Growing(write, grows) && grows(text) && times > 1
    ensures |Repeated(write, text, times)| > |write(text)|
    decreases times
  {
    assert GrowsAt(write, grows, text);
    RepeatedOnwards(write, text, times - 1);
    if times > 2 {
      Grows(write, grows, write(text), times - 1);
    } else {
      assert Repeated(write, write(text), 0) == write(text);
    }
  }

  // ---------- on every kind of file ----------

  /** `Upsert` with one block, as a closure. */
  function Writer(begin: string, end: string, block: string): string -> string {
    (text: string) => Upsert(begin, end, text, block)
  }

  /** An end marker in front of the first start marker. */
  predicate Stray(begin: string, end: string, text: string) {
    Find(text, begin).Some? && Find(text, end).Some? && Find(text, end).value < Find(text, begin).value
  }

  function StrayTest(begin: string, end: string): string -> bool {
    (text: string) => Stray(begin, end, text)
  }

  lemma StaysStray(begin: string, end: string, text: string, block: string)
    requires IsMarker(begin, end) && begin != "" && IsBlock(begin, end, block) && Stray(begin, end, text)
    ensures Stray(begin, end, Upsert(begin, end, text, block))
  {
    Replaced(begin, end, text, block);
    var start, stop := Find(text, begin).value, Find(text, end).value;
    var written := Upsert(begin, end, text, block);
    SamePrefix(text, written, start + |begin|, stop + |end|);
    FirstStays(text, written, end, stop);
  }

  lemma StraysGrow(begin: string, end: string, block: string)
    requires IsMarker(begin, end) && begin != "" && IsBlock(begin, end, block)
    ensures Growing(Writer(begin, end, block), StrayTest(begin, end))
  {
    forall t ensures GrowsAt(Writer(begin, end, block), StrayTest(begin, end), t) {
      if Stray(begin, end, t) {
        StaysStray(begin, end, t, block);
        StrayEndGrows(begin, end, t, block, block);
      }
    }
  }

  /** What the first write makes of a file with only one kind of marker. */
  lemma OneMarkerThen(begin: string, end: string, text: string, block: string)
    requires IsMarker(begin, end) && begin != "" && IsBlock(begin, end, block)
    ensures Find(text, begin).None? && Find(text, end).Some? ==> Stray(begin, end, Upsert(begin, end, text, block))
    ensures Find(text, begin).Some? && Find(text, end).None? ==> WellMarked(begin, end, Upsert(begin, end, text, block))
  {
    var lines := WithLineEnd(text);
    FindWithLineEnd(text, begin);
    FindWithLineEnd(text, end);
    BlockIsFound(begin, end, lines, block);
    match (Find(lines, begin), Find(lines, end))
    case (None, Some(stop)) =>
      assert (lines + block)[..stop + |end|] == lines[..stop + |end|];
      FirstStays(lines, lines + block, end, stop);
    case (Some(start), None) =>
      assert (lines + block)[..start + |begin|] == lines[..start + |begin|];
      FirstStays(lines, lines + block, begin, start);
    case (_, _) =>
  }

  /** However often a block is written, more than once, the file is as after the first time exactly when it is well-marked. */
  lemma ManyWritesAreOneExactlyWhen(begin: string, end: string, text: string, block: string, times: nat)
    requires IsMarker(begin, end) && begin != "" && begin != end && IsBlock(begin, end, block) && times > 1
    ensures var write := Writer(begin, end, block);
      Repeated(write, text, times) == write(text) <==> WellMarked(begin, end, text)
  {
    var write := Writer(begin, end, block);
    if WellMarked(begin, end, text) {
      SecondInstallReplacesFirstExactlyWhen(begin, end, text, block, block);
      Settles(write, text, times);
    } else if Stray(begin, end, text) {
      StraysGrow(begin, end, block);
      Grows(write, StrayTest(begin, end), text, times);
    } else if Find(text, begin).None? {
      LoneEndWrites(begin, end, text, block, times);
    } else {
      LoneBeginWrites(begin, end, text, block, times);
    }
  }

  lemma LoneEndWrites(begin: string, end: string, text: string, block: string, times: nat)
    requires IsMarker(begin, end) && begin != "" && IsBlock(begin, end, block) && times > 1
    requires Find(text, begin).None? && Find(text, end).Some?
    ensures Repeated(Writer(begin, end, block), text, times) != Writer(begin, end, block)(text)
  {
    var write := Writer(begin, end, block);
    LoneEndGrows(begin, end, text, block, block);
    OneMarkerThen(begin, end, text, block);
    StraysGrow(begin, end, block);
    RepeatedOnwards(write, text, times - 1);
    if times > 2 {
      Grows(write, StrayTest(begin, end), write(text), times - 1);
    } else {
      assert Repeated(write, write(text), 0) == write(text);
    }
  }

  lemma LoneBeginWrites(begin: string, end: string, text: string, block: string, times: nat)
    requires IsMarker(begin, end) && begin != "" && begin != end && IsBlock(begin, end, block) && times > 1
    requires Find(text, begin).Some? && Find(text, end).None?
    ensures Repeated(Writer(begin, end, block), text, times) != Writer(begin, end, block)(text)
  {
    var write := Writer(begin, end, block);
    LoneBeginShrinks(begin, end, text, block, block);
    OneMarkerThen(begin, end, text, block);
    SecondInstallReplacesFirstExactlyWhen(begin, end, write(text), block, block);
    RepeatedOnwards(write, text, times - 1);
    Settles(write, write(text), times - 1);
  }

  // ---------- over installs ----------

  /** The text the installer works on, of a file that may not be there. */
  function TextOf(found: Option<string>): string {
    match found case Some(text) => text case None => ""
  }

  function Rendering(write: string -> string): Option<string> -> string {
    (found: Option<string>) => write(TextOf(found))
  }

  /** An install that writes to a file once, by the given rule. */
  ghost predicate WritesOnce(step: Step, path: Path, write: string -> string) {
    && step.Installing?
    && exists i :: 0 <= i < |step.writes| && step.writes[i] == Write(path, Rendering(write))
         && !Touches(step.writes[..i], path) && !Touches(step.writes[i + 1..], path)
  }

  lemma InstallWritesOnce(host: Host, step: Step, path: Path, write: string -> string)
    requires WritesOnce(step, path, write)
    ensures Content(After(host, step).disk, path) == Some(write(TextOf(Content(host.disk, path))))
  {
    var i :| 0 <= i < |step.writes| && step.writes[i] == Write(path, Rendering(write))
             && !Touches(step.writes[..i], path) && !Touches(step.writes[i + 1..], path);
    FileHoldsWhatWasRendered(host, step.writes, i);
  }

  lemma {:induction false} InstallsWriteAgain(host: Host, run: seq<Step>, path: Path, write: string -> string)
    requires forall step :: step in run ==> WritesOnce(step, path, write)
    ensures run != [] ==> Content(AfterRun(host, run).disk, path).Some?
    ensures TextOf(Content(AfterRun(host, run).disk, path)) == Repeated(write, TextOf(Content(host.disk, path)), |run|)
  {
    if run != [] {
      var before, last := run[..|run| - 1], run[|run| - 1];
      assert last in run && forall step :: step in before ==> step in run;
      InstallsWriteAgain(host, before, path, write);
      InstallWritesOnce(AfterRun(host, before), last, path, write);
    }
  }

  /** The installer's own block, written to a start-up file. */
  function OwnWriter(): string -> string {
    Writer(BEGIN, END, Block(BEGIN, END, WRAPPER))
  }

  /**
   Installed more than once, however often and whatever else each install writes: the start-up file holds what the first
   install left in it, exactly when it was well-marked before.
   */
  lemma ManyInstallsAreOneExactlyWhen(host: Host, run: seq<Step>, path: Path)
    requires |run| > 1 && forall step :: step in run ==> WritesOnce(step, path, OwnWriter())
    ensures Content(AfterRun(host, run).disk, path) == Content(AfterRun(host, run[..1]).disk, path)
       <==> WellMarked(BEGIN, END, TextOf(Content(host.disk, path)))
  {
    var text := TextOf(Content(host.disk, path));
    OwnMarkers();
    assert forall step :: step in run[..1] ==> step in run;
    InstallsWriteAgain(host, run, path, OwnWriter());
    InstallsWriteAgain(host, run[..1], path, OwnWriter());
    ManyWritesAreOneExactlyWhen(BEGIN, END, text, Block(BEGIN, END, WRAPPER), |run|);
    WrittenOnce(OwnWriter(), text);
  }

  lemma WrittenOnce(write: string -> string, text: string)
    ensures Repeated(write, text, 1) == write(text)
  {
    assert Repeated(write, text, 0) == text;
  }
}
