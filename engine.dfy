/**
 * What the three engines share: the ignore constant each of them declares,
 * the assembly of the `allGlobs` pattern string, and the values that stand
 * for chokidar watchers and for file writes.
 */
module Engine {
  import opened Wrappers
  import opened Strings
  import opened Seqs
  import opened Host
  import opened GlobHelpers
  import opened GitIgnore

  /** The module-level `predefinedIgnores` entry of every engine: never look inside `.git`. */
  const GitDirExclusion: string := "!**/.git/**"

  /** JavaScript truthiness of the optional ignore-file option: unset and `""` both skip the ignore file. */
  predicate IsSet(option: Option<string>)
    ensures IsSet(option) <==> option.Some? && |option.value| > 0
  {
    option.Some? && option.value != ""
  }

  /**
   * `readGitignore` rejects inside `allGlobs`, and with it `allGlobs` and the
   * operation that awaited it: the option is set and the file cannot be read.
   */
  predicate IgnoreFileRejects(fs: FileSystem, ignorePath: Option<string>) {
    ignorePath.Some? && ReadGitignore(fs, ignorePath.value).None?
  }

  /** Only a path that exists but cannot be read rejects; a missing ignore file is not an error. */
  lemma IgnoreFileRejectsExactly(fs: FileSystem, ignorePath: Option<string>)
    ensures IgnoreFileRejects(fs, ignorePath)
        <==> ignorePath.Some? && fs.access(ignorePath.value) && fs.read(ignorePath.value).None?
  {
  }

  /**
   * The `predefinedIgnores` field after `allGlobs`: it is reset to the `.git`
   * exclusion, then the patterns of the ignore file at `ignorePath` (when the
   * option is set) are pushed after it. When the read rejects, nothing is
   * pushed.
   */
  function PredefinedIgnores(fs: FileSystem, ignorePath: Option<string>): (r: seq<string>)
    ensures |r| > 0 && r[0] == GitDirExclusion
    ensures ignorePath.None? || IgnoreFileRejects(fs, ignorePath) ==> r == [GitDirExclusion]
    ensures ignorePath.Some? && !IgnoreFileRejects(fs, ignorePath) ==> r[1..] == ReadGitignore(fs, ignorePath.value).value
    ensures ignorePath.Some? && !fs.access(ignorePath.value) ==> r == [GitDirExclusion]
    ensures forall i :: 0 <= i < |r| ==> StartsWith(r[i], "!")
  {
    var gitIgnoreList := if ignorePath.Some? then ReadGitignore(fs, ignorePath.value) else None;
    [GitDirExclusion] + (if gitIgnoreList.Some? then gitIgnoreList.value else [])
  }

  /** The exclusions of the output-producing engines: one `!` + root-resolved, slash-normalised path per output. */
  function OutputExclusions(lib: PathLib, rootDirectory: string, outputPaths: seq<string>): (r: seq<string>)
    ensures |r| == |outputPaths|
    ensures forall i :: 0 <= i < |r| ==> r[i] == "!" + lib.resolve(rootDirectory, CorrectPaths(outputPaths[i]))
  {
    Map((p: string) => "!" + lib.resolve(rootDirectory, CorrectPaths(p)), outputPaths)
  }

  /** The patterns `allGlobs` spreads into one array, in order: exclusions, the pieces of the source glob, the ignores. */
  function GlobList(exclusions: seq<string>, sourceGlob: string, ignores: seq<string>): seq<string> {
    exclusions + Split(sourceGlob, ',') + ignores
  }

  /** The string `allGlobs` returns: that array joined with commas. */
  function AllGlobsText(exclusions: seq<string>, sourceGlob: string, ignores: seq<string>): string {
    Join(GlobList(exclusions, sourceGlob, ignores), ',')
  }

  /**
   * Read back with `split(',')`, the `allGlobs` string gives the exclusions,
   * then the source pieces, then the ignores, as long as no exclusion or
   * ignore holds a comma.
   */
  lemma AllGlobsOrder(exclusions: seq<string>, sourceGlob: string, ignores: seq<string>)
    requires forall i :: 0 <= i < |exclusions| ==> ',' !in exclusions[i]
    requires forall i :: 0 <= i < |ignores| ==> ',' !in ignores[i]
    ensures Split(AllGlobsText(exclusions, sourceGlob, ignores), ',') == exclusions + Split(sourceGlob, ',') + ignores
  {
    var all := GlobList(exclusions, sourceGlob, ignores);
    var pieces := Split(sourceGlob, ',');
    forall i | 0 <= i < |all| ensures ',' !in all[i] {
      if i < |exclusions| {
        assert all[i] == exclusions[i];
      } else if i < |exclusions| + |pieces| {
        assert all[i] == pieces[i - |exclusions|];
      } else {
        assert all[i] == ignores[i - |exclusions| - |pieces|];
      }
    }
    SplitJoin(all, ',');
  }

  /** The user's glob string is passed through unchanged, between the exclusions and the ignores. */
  lemma AllGlobsKeepsSource(exclusions: seq<string>, sourceGlob: string, ignores: seq<string>)
    requires |exclusions| > 0 && |ignores| > 0
    ensures AllGlobsText(exclusions, sourceGlob, ignores) == Join(exclusions, ',') + "," + sourceGlob + "," + Join(ignores, ',')
  {
    var rest := Split(sourceGlob, ',') + ignores;
    assert GlobList(exclusions, sourceGlob, ignores) == exclusions + rest;
    JoinAppend(exclusions, rest, ',');
    SourceThenIgnoresText(sourceGlob, ignores);
  }

  /** The source pieces joined before the ignores spell the source string, a comma, then the ignores. */
  lemma SourceThenIgnoresText(sourceGlob: string, ignores: seq<string>)
    requires |ignores| > 0
    ensures Join(Split(sourceGlob, ',') + ignores, ',') == sourceGlob + "," + Join(ignores, ',')
  {
    JoinAppend(Split(sourceGlob, ','), ignores, ',');
    JoinSplit(sourceGlob, ',');
  }

  /**
   * An ignore pattern holding a comma falls apart when the string is split
   * again: its tail becomes a pattern of its own, without the `!`.
   */
  lemma CommaInIgnoreSplitsIt(exclusions: seq<string>, sourceGlob: string, head: string, tail: string)
    requires forall i :: 0 <= i < |exclusions| ==> ',' !in exclusions[i]
    requires ',' !in head && ',' !in tail
    ensures Split(AllGlobsText(exclusions, sourceGlob, ["!" + head + "," + tail]), ',')
         == exclusions + Split(sourceGlob, ',') + ["!" + head, tail]
  {
    var pieces := Split(sourceGlob, ',');
    var prefix := exclusions + pieces;
    var entry := "!" + head + "," + tail;
    assert GlobList(exclusions, sourceGlob, [entry]) == prefix + [entry];
    assert Join([entry], ',') == ("!" + head) + [','] + tail;
    assert '!' != ',';
    assert ',' !in "!" + head;
    SplitAfterPiece("!" + head, tail, ',');
    SplitNoSeparator(tail, ',');
    JoinAppend(prefix, [entry], ',');
    forall i | 0 <= i < |prefix| ensures ',' !in prefix[i] {
      if i >= |exclusions| { assert prefix[i] == pieces[i - |exclusions|]; }
    }
    SplitJoin(prefix, ',');
    SplitAtSeparator(Join(prefix, ','), Join([entry], ','), ',');
  }

  /** A filesystem event chokidar reports. */
  datatype Event = Add | Change | Unlink

  /** The reaction bound to an event. */
  datatype Handler =
    | RunCombine                                 // `this.combine()`
    | RunZip                                     // `this.zipFiles`
    | SyncTo(dirs: seq<string>, base: string)     // `this.syncFile(dirs, base)`
    | RemoveFrom(dirs: seq<string>, base: string) // `this.removeFile(dirs, base)`

  /** A chokidar watcher: what it watches, whether it skips the initial scan, and which handler each event runs. */
  datatype Watch = Watch(paths: seq<string>, ignoreInitial: bool, on: map<Event, Handler>)

  /** One `writeFile` call. */
  datatype FileWrite = FileWrite(path: string, text: string)
}
