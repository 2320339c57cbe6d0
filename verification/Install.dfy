/**
 Installing and uninstalling (`src/install/state.rs`, `src/install/mod.rs:52-123`). The disk maps paths to the text they
 hold, apart from the state file, which is kept as what loading it gives. An installed piece reads its file, computes a new
 text from what it found and writes it; only the tracking of the old text is the subject here.
 */
module Install {
  import opened Wrappers

  type Path = string

  datatype FileChange = FileChange(path: Path, existedBefore: bool, priorContent: Option<string>)

  /** What the state file holds. */
  datatype Saved = Saved(files: seq<FileChange>, launchAgentLoaded: bool)

  /** The machine; `saved` is absent when the state file is missing or does not parse. */
  datatype Host = Host(disk: map<Path, string>, saved: Option<Saved>)

  /** One file an install writes, with the text it writes for what it finds there. */
  datatype Write = Write(path: Path, render: Option<string> -> string)

  function Content(disk: map<Path, string>, path: Path): Option<string> {
    if path in disk then Some(disk[path]) else None
  }

  // ---------- one install, one uninstall ----------

  predicate IsTracked(files: seq<FileChange>, path: Path) {
    exists i :: 0 <= i < |files| && files[i].path == path
  }

  function Track(files: seq<FileChange>, disk: map<Path, string>, path: Path): seq<FileChange> {
    if IsTracked(files, path) then files else files + [FileChange(path, path in disk, Content(disk, path))]
  }

  datatype Progress = Progress(files: seq<FileChange>, disk: map<Path, string>)

  function Perform(p: Progress, write: Write): Progress {
    Progress(Track(p.files, p.disk, write.path), p.disk[write.path := write.render(Content(p.disk, write.path))])
  }

  function PerformAll(p: Progress, writes: seq<Write>): Progress {
    if writes == [] then p else Perform(PerformAll(p, writes[..|writes| - 1]), writes[|writes| - 1])
  }

  function Loaded(saved: Option<Saved>): Saved {
    match saved case Some(state) => state case None => Saved([], false)
  }

  function AfterInstall(host: Host, writes: seq<Write>): Host {
    var p := PerformAll(Progress(Loaded(host.saved).files, host.disk), writes);
    Host(p.disk, Some(Saved(p.files, true)))
  }

  /** What a change says its file held. */
  function Prior(change: FileChange): Option<string> {
    if change.existedBefore then Some(match change.priorContent case Some(text) => text case None => "") else None
  }

  function Put(disk: map<Path, string>, path: Path, content: Option<string>): map<Path, string> {
    match content case Some(text) => disk[path := text] case None => disk - {path}
  }

  function Restore(disk: map<Path, string>, files: seq<FileChange>): map<Path, string> {
    if files == [] then disk else
    var last := files[|files| - 1];
    Put(Restore(disk, files[..|files| - 1]), last.path, Prior(last))
  }

  function AfterUninstall(host: Host): Host {
    Host(Restore(host.disk, Loaded(host.saved).files), None)
  }

  // ---------- runs ----------

  /** Installs, uninstalls, and whatever else writes or removes files in between. */
  datatype Step = Installing(writes: seq<Write>) | Editing(path: Path, content: Option<string>) | Uninstalling

  function After(host: Host, step: Step): Host {
    match step
    case Installing(writes) => AfterInstall(host, writes)
    case Editing(path, content) => host.(disk := Put(host.disk, path, content))
    case Uninstalling => AfterUninstall(host)
  }

  function AfterRun(host: Host, run: seq<Step>): Host {
    if run == [] then host else After(AfterRun(host, run[..|run| - 1]), run[|run| - 1])
  }

  predicate Touches(writes: seq<Write>, path: Path) {
    exists i :: 0 <= i < |writes| && writes[i].path == path
  }

  /** What a file held right before the first install since the last uninstall that touched it, if one did. */
  function FirstSeen(host: Host, run: seq<Step>, path: Path): Option<Option<string>> {
    if run == [] then None else
    var before := run[..|run| - 1];
    match run[|run| - 1]
    case Installing(writes) =>
      var seen := FirstSeen(host, before, path);
      if seen.Some? || !Touches(writes, path) then seen else Some(Content(AfterRun(host, before).disk, path))
    case Editing(_, _) => FirstSeen(host, before, path)
    case Uninstalling => None
  }

  /** The change recorded for a path, read as what it says the file held. */
  function Recorded(files: seq<FileChange>, path: Path): Option<Option<string>> {
    if files == [] then None
    else if files[|files| - 1].path == path then Some(Prior(files[|files| - 1]))
    else Recorded(files[..|files| - 1], path)
  }

  lemma {:induction false} RecordedIsTracked(files: seq<FileChange>, path: Path)
    ensures Recorded(files, path).Some? <==> IsTracked(files, path)
  {
    if files != [] {
      var before, last := files[..|files| - 1], files[|files| - 1];
      RecordedIsTracked(before, path);
      assert files == before + [last];
      if IsTracked(before, path) {
        var i :| 0 <= i < |before| && before[i].path == path;
        assert files[i].path == path;
      }
    }
  }

  lemma TrackedIsRecorded(files: seq<FileChange>, disk: map<Path, string>, path: Path, other: Path)
    ensures Recorded(Track(files, disk, path), other)
         == if other == path && Recorded(files, path).None? then Some(Content(disk, path)) else Recorded(files, other)
  {
    RecordedIsTracked(files, path);
    var change := FileChange(path, path in disk, Content(disk, path));
    assert (files + [change])[..|files|] == files;
  }

  /** An install records, for each file it touches, what the file held before the install, unless an earlier one did. */
  lemma {:induction false} InstallRecords(p: Progress, writes: seq<Write>, path: Path)
    ensures Recorded(PerformAll(p, writes).files, path)
         == if Recorded(p.files, path).None? && Touches(writes, path) then Some(Content(p.disk, path))
            else Recorded(p.files, path)
  {
    if writes != [] {
      var before, last := writes[..|writes| - 1], writes[|writes| - 1];
      TouchesSnoc(writes, path);
      InstallRecords(p, before, path);
      if !Touches(before, path) {
        InstallLeaves(p, before, path);
      }
      var q := PerformAll(p, before);
      TrackedIsRecorded(q.files, q.disk, last.path, path);
    }
  }

  lemma TouchesSnoc(writes: seq<Write>, path: Path)
    requires writes != []
    ensures Touches(writes, path) <==> Touches(writes[..|writes| - 1], path) || writes[|writes| - 1].path == path
  {
    var before := writes[..|writes| - 1];
    assert forall i :: 0 <= i < |before| ==> writes[i] == before[i];
  }

  /** And it leaves alone the files it does not touch. */
  lemma {:induction false} InstallLeaves(p: Progress, writes: seq<Write>, path: Path)
    requires !Touches(writes, path)
    ensures Content(PerformAll(p, writes).disk, path) == Content(p.disk, path)
  {
    if writes != [] {
      TouchesSnoc(writes, path);
      InstallLeaves(p, writes[..|writes| - 1], path);
    }
  }

  /**
   After an install a file holds what the last write to it rendered from what it then found - from what the file held before,
   when that was the only write - and the launch agent is on record as loaded.
   */
  lemma FileHoldsWhatWasRendered(host: Host, writes: seq<Write>, i: nat)
    requires i < |writes| && !Touches(writes[i + 1..], writes[i].path)
    ensures var path, after := writes[i].path, AfterInstall(host, writes);
      && Content(after.disk, path) == Some(writes[i].render(Content(AfterInstall(host, writes[..i]).disk, path)))
      && (!Touches(writes[..i], path) ==> Content(after.disk, path) == Some(writes[i].render(Content(host.disk, path))))
      && after.saved.Some? && after.saved.value.launchAgentLoaded
  {
    var p, path := Progress(Loaded(host.saved).files, host.disk), writes[i].path;
    LastWriteStands(p, writes, i);
    if !Touches(writes[..i], path) {
      InstallLeaves(p, writes[..i], path);
    }
  }

  lemma {:induction false} LastWriteStands(p: Progress, writes: seq<Write>, i: nat)
    requires i < |writes| && !Touches(writes[i + 1..], writes[i].path)
    ensures Content(PerformAll(p, writes).disk, writes[i].path)
         == Some(writes[i].render(Content(PerformAll(p, writes[..i]).disk, writes[i].path)))
  {
    var before, last := writes[..|writes| - 1], writes[|writes| - 1];
    if i < |before| {
      assert before[i + 1..] == writes[i + 1..][..|before| - i - 1];
      TouchesSnoc(writes[i + 1..], writes[i].path);
      LastWriteStands(p, before, i);
      assert before[..i] == writes[..i];
      assert writes[i + 1..][|writes| - i - 2] == last;
    }
  }

  lemma {:induction false} RestoreReads(disk: map<Path, string>, files: seq<FileChange>, path: Path)
    ensures Content(Restore(disk, files), path)
         == match Recorded(files, path) case Some(content) => content case None => Content(disk, path)
  {
    if files != [] {
      RestoreReads(disk, files[..|files| - 1], path);
    }
  }

  lemma {:induction false} RunRecords(host: Host, run: seq<Step>, path: Path)
    requires host.saved.None?
    ensures Recorded(Loaded(AfterRun(host, run).saved).files, path) == FirstSeen(host, run, path)
  {
    if run != [] {
      var before, last := run[..|run| - 1], run[|run| - 1];
      RunRecords(host, before, path);
      var h := AfterRun(host, before);
      if last.Installing? {
        InstallRecords(Progress(Loaded(h.saved).files, h.disk), last.writes, path);
      }
    }
  }

  /**
   Uninstalling after any run gives each file an install touched what it held before the first install that touched it, and
   leaves every other file alone, whatever was written in between.
   */
  lemma UninstallRestoresFirstSeen(host: Host, run: seq<Step>, path: Path)
    requires host.saved.None?
    ensures AfterUninstall(AfterRun(host, run)).saved.None?
    ensures Content(AfterUninstall(AfterRun(host, run)).disk, path)
         == match FirstSeen(host, run, path)
            case Some(content) => content
            case None => Content(AfterRun(host, run).disk, path)
  {
    RunRecords(host, run, path);
    var h := AfterRun(host, run);
    RestoreReads(h.disk, Loaded(h.saved).files, path);
  }

  /** A file no install touched, and nobody else edited, holds what it held; one that was touched was first seen so. */
  lemma {:induction false} InstallsSeeTheOriginal(host: Host, run: seq<Step>, path: Path)
    requires host.saved.None? && forall s :: s in run ==> s.Installing?
    ensures FirstSeen(host, run, path).Some? ==> FirstSeen(host, run, path).value == Content(host.disk, path)
    ensures FirstSeen(host, run, path).None? ==> Content(AfterRun(host, run).disk, path) == Content(host.disk, path)
  {
    if run != [] {
      var before, last := run[..|run| - 1], run[|run| - 1];
      assert last in run && forall s :: s in before ==> s in run;
      InstallsSeeTheOriginal(host, before, path);
      if !Touches(last.writes, path) {
        var h := AfterRun(host, before);
        InstallLeaves(Progress(Loaded(h.saved).files, h.disk), last.writes, path);
      }
    }
  }

  /** Any number of installs, whatever they wrote, and one uninstall: the machine is as it was. */
  lemma InstallRoundTrip(host: Host, run: seq<Step>)
    requires host.saved.None? && forall s :: s in run ==> s.Installing?
    ensures AfterUninstall(AfterRun(host, run)) == host
  {
    var restored := AfterUninstall(AfterRun(host, run));
    forall path: Path ensures Content(restored.disk, path) == Content(host.disk, path) {
      InstallsSeeTheOriginal(host, run, path);
      UninstallRestoresFirstSeen(host, run, path);
    }
    SameContent(restored.disk, host.disk);
    assert restored.saved == None;
  }

  lemma SameContent(disk: map<Path, string>, other: map<Path, string>)
    requires forall path: Path :: Content(disk, path) == Content(other, path)
    ensures disk == other
  {
    forall path: Path ensures path in disk <==> path in other {
      assert Content(disk, path) == Content(other, path);
    }
    forall path: Path | path in disk ensures disk[path] == other[path] {
      assert Content(disk, path) == Content(other, path);
    }
  }

  // ---------- the source's objects ----------

  class Disk {
    var files: map<Path, string>
    var saved: Option<Saved>

    constructor (files: map<Path, string>, saved: Option<Saved>)
      ensures this.files == files && this.saved == saved
    {
      this.files, this.saved := files, saved;
    }

    ghost function AsHost(): Host reads this { Host(files, saved) }
  }

  class InstallState {
    var files: seq<FileChange>
    var launchAgentLoaded: bool

    /** `InstallState::load`: nothing recorded when there is no state file to read. */
    constructor Load(disk: Disk)
      ensures files == Loaded(disk.saved).files && launchAgentLoaded == Loaded(disk.saved).launchAgentLoaded
    {
      var state := Loaded(disk.saved);
      files, launchAgentLoaded := state.files, state.launchAgentLoaded;
    }

    method Save(disk: Disk)
      modifies disk`saved
      ensures disk.saved == Some(Saved(files, launchAgentLoaded))
    {
      disk.saved := Some(Saved(files, launchAgentLoaded));
    }

    method TrackFile(disk: Disk, path: Path)
      modifies this`files
      ensures files == Track(old(files), disk.files, path)
    {
      for i := 0 to |files|
        invariant files == old(files)
        invariant forall j :: 0 <= j < i ==> files[j].path != path
      {
        if files[i].path == path {
          return;
        }
      }
      if path in disk.files {
        files := files + [FileChange(path, true, Some(disk.files[path]))];
      } else {
        files := files + [FileChange(path, false, None)];
      }
    }

    /** Restores every tracked file; one report line a file, in order. */
    method RestoreFiles(disk: Disk) returns (report: seq<(Path, bool)>)
      modifies disk`files
      ensures disk.files == Restore(old(disk.files), files)
      ensures |report| == |files|
      ensures forall i :: 0 <= i < |files| ==> report[i] == (files[i].path, files[i].existedBefore)
    {
      report := [];
      for i := 0 to |files|
        invariant disk.files == Restore(old(disk.files), files[..i])
        invariant |report| == i
        invariant forall j :: 0 <= j < i ==> report[j] == (files[j].path, files[j].existedBefore)
      {
        var change := files[i];
        assert files[..i + 1][..i] == files[..i];
        if change.existedBefore {
          var text := match change.priorContent case Some(prior) => prior case None => "";
          disk.files := disk.files[change.path := text];
          report := report + [(change.path, true)];
        } else {
          disk.files := disk.files - {change.path};
          report := report + [(change.path, false)];
        }
      }
      assert files[..|files|] == files;
    }
  }

  /** `install_with`, for an install that completes. */
  method InstallWith(disk: Disk, writes: seq<Write>)
    modifies disk
    ensures disk.AsHost() == AfterInstall(old(disk.AsHost()), writes)
  {
    var state := new InstallState.Load(disk);
    ghost var start := Progress(Loaded(disk.saved).files, disk.files);
    for i := 0 to |writes|
      invariant Progress(state.files, disk.files) == PerformAll(start, writes[..i])
      invariant disk.saved == old(disk.saved)
    {
      assert writes[..i + 1][..i] == writes[..i];
      var write := writes[i];
      state.TrackFile(disk, write.path);
      disk.files := disk.files[write.path := write.render(Content(disk.files, write.path))];
    }
    assert writes[..|writes|] == writes;
    state.launchAgentLoaded := true;
    state.Save(disk);
  }

  /** `uninstall_with` */
  method UninstallWith(disk: Disk) returns (bootedOut: bool, report: seq<(Path, bool)>)
    modifies disk
    ensures disk.AsHost() == AfterUninstall(old(disk.AsHost()))
    ensures bootedOut == Loaded(old(disk.saved)).launchAgentLoaded
    ensures |report| == |Loaded(old(disk.saved)).files|
  {
    var state := new InstallState.Load(disk);
    bootedOut := state.launchAgentLoaded;
    report := state.RestoreFiles(disk);
    disk.saved := None;
  }
}
