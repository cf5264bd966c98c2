/** The bidirectional sync engine: src/StackifyitBiDirectionalSync.ts. */
module Sync {
  import opened Wrappers
  import opened Strings
  import opened Seqs
  import opened Host
  import opened GlobHelpers
  import opened Engine
  import WatcherBase

  /** One `fs.copy(source, target)` or `fs.remove(target)` call; its outcome is only logged. */
  datatype FsCall = Copy(source: string, target: string) | Remove(target: string)

  /** Where a file seen under `baseDir` is mirrored in `targetDir`: the same relative path. */
  function TargetPath(lib: PathLib, targetDir: string, baseDir: string, filePath: string): string {
    lib.join(targetDir, lib.relative(baseDir, filePath))
  }

  /**
   * For a file whose path relative to `baseDir` is normal (a file inside
   * `baseDir`, as the watchers report), the mirror sits at that same relative
   * path under the target.
   */
  lemma TargetPathRelative(lib: PathLib, targetDir: string, baseDir: string, filePath: string)
    requires RelativeUndoesJoin(lib) && NormalRelative(lib.relative(baseDir, filePath))
    ensures lib.relative(targetDir, TargetPath(lib, targetDir, baseDir, filePath)) == lib.relative(baseDir, filePath)
  {
  }

  /** The copies `syncFile(dirs, baseDir)` issues for one file: one per directory, in order. */
  function MirrorCopies(lib: PathLib, dirs: seq<string>, baseDir: string, filePath: string): (r: seq<FsCall>)
    ensures |r| == |dirs|
    ensures forall i :: 0 <= i < |r| ==> r[i] == Copy(filePath, TargetPath(lib, dirs[i], baseDir, filePath))
  {
    Map((dir: string) => Copy(filePath, TargetPath(lib, dir, baseDir, filePath)), dirs)
  }

  /** The removals `removeFile(dirs, baseDir)` issues for one file: one per directory, in order. */
  function MirrorRemovals(lib: PathLib, dirs: seq<string>, baseDir: string, filePath: string): (r: seq<FsCall>)
    ensures |r| == |dirs|
    ensures forall i :: 0 <= i < |r| ==> r[i] == Remove(TargetPath(lib, dirs[i], baseDir, filePath))
  {
    Map((dir: string) => Remove(TargetPath(lib, dir, baseDir, filePath)), dirs)
  }

  /** The `fs.copy`/`fs.remove` calls a bound handler issues when its watcher reports `filePath`; a Combine or Zip handler issues none (its writes are modelled in its own engine). */
  function Reaction(lib: PathLib, handler: Handler, filePath: string): (r: seq<FsCall>)
    ensures handler.RunCombine? || handler.RunZip? ==> r == []
    ensures handler.SyncTo? || handler.RemoveFrom? ==> |r| == |handler.dirs|
    ensures forall i :: 0 <= i < |r| ==> (r[i].Copy? <==> handler.SyncTo?)
  {
    match handler
    case SyncTo(dirs, baseDir) => MirrorCopies(lib, dirs, baseDir, filePath)
    case RemoveFrom(dirs, baseDir) => MirrorRemovals(lib, dirs, baseDir, filePath)
    case _ => []
  }

  /** `syncFile(targetDirs, baseDir)(filePath)`: the loop that starts one copy per target directory. */
  method SyncFile(lib: PathLib, targetDirs: seq<string>, baseDir: string, filePath: string) returns (copies: seq<FsCall>)
    ensures copies == MirrorCopies(lib, targetDirs, baseDir, filePath)
  {
    var relativePath := lib.relative(baseDir, filePath);
    copies := [];
    for i := 0 to |targetDirs|
      invariant copies == MirrorCopies(lib, targetDirs[..i], baseDir, filePath)
    {
      var targetPath := lib.join(targetDirs[i], relativePath);
      copies := copies + [Copy(filePath, targetPath)];
    }
    assert targetDirs[..|targetDirs|] == targetDirs;
  }

  /** `removeFile(targetDirs, baseDir)(filePath)`: the loop that starts one removal per target directory. */
  method RemoveFile(lib: PathLib, targetDirs: seq<string>, baseDir: string, filePath: string) returns (removals: seq<FsCall>)
    ensures removals == MirrorRemovals(lib, targetDirs, baseDir, filePath)
  {
    var relativePath := lib.relative(baseDir, filePath);
    removals := [];
    for i := 0 to |targetDirs|
      invariant removals == MirrorRemovals(lib, targetDirs[..i], baseDir, filePath)
    {
      var targetPath := lib.join(targetDirs[i], relativePath);
      removals := removals + [Remove(targetPath)];
    }
    assert targetDirs[..|targetDirs|] == targetDirs;
  }

  /** The copies of `copyToTargets`, pattern-major: every listed path to every target, relative to the root. */
  function CopyPlan(lib: PathLib, rootDirectory: string, files: seq<string>, targetDirs: seq<string>): (r: seq<FsCall>)
  {
    if files == [] then []
    else CopyPlan(lib, rootDirectory, files[..|files| - 1], targetDirs)
         + MirrorCopies(lib, targetDirs, rootDirectory, files[|files| - 1])
  }

  /** Copy `i * |targetDirs| + j` takes path `i` to target `j`. */
  lemma {:induction false} CopyPlanAt(lib: PathLib, rootDirectory: string, files: seq<string>, targetDirs: seq<string>, i: nat, j: nat)
    requires i < |files| && j < |targetDirs|
    ensures i * |targetDirs| + j < |CopyPlan(lib, rootDirectory, files, targetDirs)|
    ensures CopyPlan(lib, rootDirectory, files, targetDirs)[i * |targetDirs| + j]
         == Copy(files[i], TargetPath(lib, targetDirs[j], rootDirectory, files[i]))
  {
    var n := |targetDirs|;
    var k := i * n + j;
    var front := files[..|files| - 1];
    var last := MirrorCopies(lib, targetDirs, rootDirectory, files[|files| - 1]);
    var plan := CopyPlan(lib, rootDirectory, front, targetDirs);
    assert CopyPlan(lib, rootDirectory, files, targetDirs) == plan + last;
    if i < |front| {
      CopyPlanAt(lib, rootDirectory, front, targetDirs, i, j);
      assert front[i] == files[i];
      ConcatLeft(plan, last, k);
    } else {
      CopyPlanLength(lib, rootDirectory, front, targetDirs);
      assert k == |plan| + j;
      ConcatRight(plan, last, j);
    }
  }

  /** The plan holds one copy per path and target. */
  lemma {:induction false} CopyPlanLength(lib: PathLib, rootDirectory: string, files: seq<string>, targetDirs: seq<string>)
    ensures |CopyPlan(lib, rootDirectory, files, targetDirs)| == |files| * |targetDirs|
  {
    if files != [] {
      CopyPlanLength(lib, rootDirectory, files[..|files| - 1], targetDirs);
      assert |files| * |targetDirs| == (|files| - 1) * |targetDirs| + |targetDirs|;
    }
  }

  /** One more listed path adds its copies to every target at the end of the plan. */
  lemma CopyPlanPrefix(lib: PathLib, rootDirectory: string, files: seq<string>, targetDirs: seq<string>, i: nat)
    requires i < |files|
    ensures CopyPlan(lib, rootDirectory, files[..i + 1], targetDirs)
         == CopyPlan(lib, rootDirectory, files[..i], targetDirs) + MirrorCopies(lib, targetDirs, rootDirectory, files[i])
  {
    assert files[..i + 1][..i] == files[..i];
  }

  /** The nested loop of `copyToTargets`. */
  method CopyEach(lib: PathLib, rootDirectory: string, files: seq<string>, targetDirs: seq<string>) returns (copies: seq<FsCall>)
    ensures copies == CopyPlan(lib, rootDirectory, files, targetDirs)
  {
    copies := [];
    for i := 0 to |files|
      invariant copies == CopyPlan(lib, rootDirectory, files[..i], targetDirs)
    {
      var batch := [];
      for j := 0 to |targetDirs|
        invariant |batch| == j
        invariant forall k :: 0 <= k < j ==> batch[k] == Copy(files[i], TargetPath(lib, targetDirs[k], rootDirectory, files[i]))
      {
        var relativePath := lib.relative(rootDirectory, files[i]);
        var targetPath := lib.join(targetDirs[j], relativePath);
        batch := batch + [Copy(files[i], targetPath)];
      }
      assert batch == MirrorCopies(lib, targetDirs, rootDirectory, files[i]);
      CopyPlanPrefix(lib, rootDirectory, files, targetDirs, i);
      copies := copies + batch;
    }
    assert files[..|files|] == files;
  }

  /** The watcher on the source patterns: add and change copy to every target, unlink removes from every target, relative to the root. */
  function SourceWatch(patterns: seq<string>, rootDirectory: string, targetDirs: seq<string>): (r: Watch)
    ensures r.paths == patterns && r.ignoreInitial
    ensures r.on.Keys == {Add, Change, Unlink}
    ensures forall e :: e in r.on ==> (r.on[e].SyncTo? <==> e != Unlink) && (r.on[e].RemoveFrom? <==> e == Unlink)
    ensures forall e :: e in r.on ==> (r.on[e].SyncTo? || r.on[e].RemoveFrom?) && r.on[e].dirs == targetDirs && r.on[e].base == rootDirectory
  {
    Watch(patterns, true, map[Add := SyncTo(targetDirs, rootDirectory), Change := SyncTo(targetDirs, rootDirectory),
                              Unlink := RemoveFrom(targetDirs, rootDirectory)])
  }

  /** The watcher on one target directory: its events go back to the root, relative to that target. */
  function TargetWatch(rootDirectory: string, targetDir: string): (r: Watch)
    ensures r.paths == [targetDir] && r.ignoreInitial
    ensures r.on.Keys == {Add, Change, Unlink}
    ensures forall e :: e in r.on ==> (r.on[e].SyncTo? <==> e != Unlink) && (r.on[e].RemoveFrom? <==> e == Unlink)
    ensures forall e :: e in r.on ==> (r.on[e].SyncTo? || r.on[e].RemoveFrom?) && r.on[e].dirs == [rootDirectory] && r.on[e].base == targetDir
  {
    Watch([targetDir], true, map[Add := SyncTo([rootDirectory], targetDir), Change := SyncTo([rootDirectory], targetDir),
                                 Unlink := RemoveFrom([rootDirectory], targetDir)])
  }

  /** The loop of `startWatch` that opens one watcher per target directory, in order. */
  method WatchTargets(rootDirectory: string, targetDirs: seq<string>) returns (watchers: seq<Watch>)
    ensures |watchers| == |targetDirs|
    ensures forall i :: 0 <= i < |targetDirs| ==> watchers[i] == TargetWatch(rootDirectory, targetDirs[i])
  {
    watchers := [];
    for i := 0 to |targetDirs|
      invariant |watchers| == i
      invariant forall k :: 0 <= k < i ==> watchers[k] == TargetWatch(rootDirectory, targetDirs[k])
    {
      var targetWatcher := TargetWatch(rootDirectory, targetDirs[i]);
      watchers := watchers + [targetWatcher];
    }
  }

  /** A change under the source is copied to the same relative path in every target; a deletion is removed there. */
  lemma SourceEventsReachEveryTarget(lib: PathLib, patterns: seq<string>, rootDirectory: string, targetDirs: seq<string>,
                                     event: Event, filePath: string, j: nat)
    requires j < |targetDirs|
    ensures var calls := Reaction(lib, SourceWatch(patterns, rootDirectory, targetDirs).on[event], filePath);
      && |calls| == |targetDirs|
      && calls[j] == if event == Unlink then Remove(TargetPath(lib, targetDirs[j], rootDirectory, filePath))
                     else Copy(filePath, TargetPath(lib, targetDirs[j], rootDirectory, filePath))
  {
  }

  /** A change under a target is copied back to the root only, relative to that target. */
  lemma TargetEventsReturnToRoot(lib: PathLib, rootDirectory: string, targetDir: string, event: Event, filePath: string)
    ensures Reaction(lib, TargetWatch(rootDirectory, targetDir).on[event], filePath)
         == if event == Unlink then [Remove(TargetPath(lib, rootDirectory, targetDir, filePath))]
            else [Copy(filePath, TargetPath(lib, rootDirectory, targetDir, filePath))]
  {
  }

  /**
   * When `path.relative` undoes `path.join` for this file, the copy a target
   * makes of a mirrored file lands back on the original: nothing but the
   * watcher stops the echo.
   */
  lemma MirrorEchoesBack(lib: PathLib, rootDirectory: string, targetDir: string, filePath: string)
    requires var rel := lib.relative(rootDirectory, filePath);
      lib.relative(targetDir, lib.join(targetDir, rel)) == rel && lib.join(rootDirectory, rel) == filePath
    ensures var mirrored := TargetPath(lib, targetDir, rootDirectory, filePath);
      Reaction(lib, TargetWatch(rootDirectory, targetDir).on[Change], mirrored) == [Copy(mirrored, filePath)]
  {
  }

  /** The sync engine. */
  class BiDirectionalSync {
    const rootDirectory: string
    const sourceGlob: string
    const targetDirs: seq<string>
    const useGitIgnoreFile: Option<string>
    var debug: bool
    var predefinedIgnores: seq<string>
    var sourceWatcher: Option<Watch>
    var targetWatchers: seq<Watch>

    constructor (rootDirectory: string, sourceGlob: string, targetDirs: seq<string>, useGitIgnoreFile: Option<string>)
      ensures this.rootDirectory == rootDirectory && this.sourceGlob == sourceGlob
      ensures this.targetDirs == targetDirs && this.useGitIgnoreFile == useGitIgnoreFile
      ensures !debug && predefinedIgnores == [] && sourceWatcher == None && targetWatchers == []
    {
      this.rootDirectory := rootDirectory;
      this.sourceGlob := sourceGlob;
      this.targetDirs := targetDirs;
      this.useGitIgnoreFile := useGitIgnoreFile;
      debug := false;
      predefinedIgnores := [];
      sourceWatcher := None;
      targetWatchers := [];
    }

    /** This engine's `pathfromRoot` joins rather than resolves. */
    function PathFromRoot(lib: PathLib, myPath: string): (r: string)
      ensures r == lib.join(rootDirectory, myPath)
    {
      lib.join(rootDirectory, myPath)
    }

    /** Where `allGlobs` reads the ignore file, when the option is set. */
    function IgnorePath(lib: PathLib): Option<string> {
      if IsSet(useGitIgnoreFile) then Some(PathFromRoot(lib, useGitIgnoreFile.value)) else None
    }

    /** The string `allGlobs` returns: the source pieces, then the ignores (there are no output exclusions here). */
    function Globs(lib: PathLib, fs: FileSystem): string {
      Join(Split(sourceGlob, ',') + PredefinedIgnores(fs, IgnorePath(lib)), ',')
    }

    /**
     * `allGlobs()`: resets `predefinedIgnores`, adds the ignore file's
     * patterns, and joins them after the source globs. None when reading the
     * ignore file rejects, which leaves only the `.git` exclusion in the field.
     */
    method AllGlobs(lib: PathLib, fs: FileSystem) returns (result: Option<string>)
      modifies this`predefinedIgnores
      ensures predefinedIgnores == PredefinedIgnores(fs, IgnorePath(lib))
      ensures result.None? <==> IgnoreFileRejects(fs, IgnorePath(lib))
      ensures result.Some? ==> result.value == Globs(lib, fs)
    {
      predefinedIgnores := [GitDirExclusion];
      if IsSet(useGitIgnoreFile) {
        var gitIgnoreList := GitIgnore.ReadGitignore(fs, PathFromRoot(lib, useGitIgnoreFile.value));
        if gitIgnoreList.None? {
          return None;
        }
        predefinedIgnores := predefinedIgnores + gitIgnoreList.value;
      }
      var sourceGlobs := Split(sourceGlob, ',');
      result := Some(Join(sourceGlobs + predefinedIgnores, ','));
    }

    /** `log(...logs)`: this engine has no custom logger, so when debugging the line goes to the console. */
    method Log(logs: seq<string>) returns (emitted: seq<WatcherBase.LogLine>)
      ensures emitted == WatcherBase.LogRoute(debug, false, logs)
      ensures debug ==> emitted == [WatcherBase.LogLine(WatcherBase.Console, logs)]
    {
      emitted := [];
      if debug {
        emitted := [WatcherBase.LogLine(WatcherBase.Console, logs)];
      }
    }

    /** `stopWatch()`: closes the source watcher if there is one (it stays assigned) and every target watcher, then forgets the latter. */
    method StopWatch() returns (closed: seq<Watch>)
      modifies this`targetWatchers
      ensures closed == (if sourceWatcher.Some? then [sourceWatcher.value] else []) + old(targetWatchers)
      ensures targetWatchers == []
    {
      closed := if sourceWatcher.Some? then [sourceWatcher.value] else [];
      for i := 0 to |targetWatchers|
        invariant closed == (if sourceWatcher.Some? then [sourceWatcher.value] else []) + targetWatchers[..i]
      {
        closed := closed + [targetWatchers[i]];
      }
      assert targetWatchers[..|targetWatchers|] == targetWatchers;
      targetWatchers := [];
    }

    /**
     * `startWatch()`: stops the previous session, watches the source patterns,
     * then one watcher per target directory. When `allGlobs` rejects, it does
     * so after the stop, before any new watcher exists.
     */
    method StartWatch(lib: PathLib, fs: FileSystem) returns (closed: seq<Watch>, started: bool)
      modifies this
      ensures closed == (if old(sourceWatcher).Some? then [old(sourceWatcher).value] else []) + old(targetWatchers)
      ensures predefinedIgnores == PredefinedIgnores(fs, IgnorePath(lib)) && debug == old(debug)
      ensures started <==> !IgnoreFileRejects(fs, IgnorePath(lib))
      ensures started ==> sourceWatcher == Some(SourceWatch(SingleGlobToList(lib, rootDirectory, Globs(lib, fs)), rootDirectory, targetDirs))
      ensures started ==> |targetWatchers| == |targetDirs|
      ensures started ==> forall i :: 0 <= i < |targetDirs| ==> targetWatchers[i] == TargetWatch(rootDirectory, targetDirs[i])
      ensures !started ==> sourceWatcher == old(sourceWatcher) && targetWatchers == []
    {
      closed := StopWatch();
      var allGlobs := AllGlobs(lib, fs);
      if allGlobs.None? {
        return closed, false;
      }
      var patterns := SingleGlobToList(lib, rootDirectory, allGlobs.value);
      sourceWatcher := Some(SourceWatch(patterns, rootDirectory, targetDirs));
      targetWatchers := WatchTargets(rootDirectory, targetDirs);
      started := true;
    }

    /**
     * `copyToTargets()`: copies every listed pattern (not the files it
     * matches) to every target; nothing when `allGlobs` rejects.
     */
    method CopyToTargets(lib: PathLib, fs: FileSystem) returns (ok: bool, copies: seq<FsCall>)
      modifies this`predefinedIgnores
      ensures predefinedIgnores == PredefinedIgnores(fs, IgnorePath(lib))
      ensures ok <==> !IgnoreFileRejects(fs, IgnorePath(lib))
      ensures !ok ==> copies == []
      ensures ok ==> copies == CopyPlan(lib, rootDirectory, SingleGlobToList(lib, rootDirectory, Globs(lib, fs)), targetDirs)
    {
      var patterns := AllGlobs(lib, fs);
      if patterns.None? {
        return false, [];
      }
      var files := SingleGlobToList(lib, rootDirectory, patterns.value);
      copies := CopyEach(lib, rootDirectory, files, targetDirs);
      ok := true;
    }
  }

  /** Read back with `split(',')`, the source pieces joined with comma-free ignores come apart again, in order. */
  lemma SourceThenIgnores(sourceGlob: string, ignores: seq<string>)
    requires forall i :: 0 <= i < |ignores| ==> ',' !in ignores[i]
    ensures Split(Join(Split(sourceGlob, ',') + ignores, ','), ',') == Split(sourceGlob, ',') + ignores
  {
    AllGlobsOrder([], sourceGlob, ignores);
    assert GlobList([], sourceGlob, ignores) == Split(sourceGlob, ',') + ignores;
  }

  /** The sync globs are the source pieces, then the `.git` exclusion, then the ignore file's patterns. */
  lemma SyncGlobsOrder(s: BiDirectionalSync, lib: PathLib, fs: FileSystem)
    requires var ignores := PredefinedIgnores(fs, s.IgnorePath(lib)); forall i :: 0 <= i < |ignores| ==> ',' !in ignores[i]
    ensures var pieces := Split(s.Globs(lib, fs), ',');
      && pieces == Split(s.sourceGlob, ',') + PredefinedIgnores(fs, s.IgnorePath(lib))
      && GitDirExclusion in pieces
  {
    var ignores := PredefinedIgnores(fs, s.IgnorePath(lib));
    var sources := Split(s.sourceGlob, ',');
    SourceThenIgnores(s.sourceGlob, ignores);
    assert (sources + ignores)[|sources|] == GitDirExclusion;
  }
}
