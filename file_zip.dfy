/** The archive engine: src/StackifyitFileZip.ts. */
module Zip {
  import opened Wrappers
  import opened Strings
  import opened Seqs
  import opened Host
  import GlobHelpers
  import opened Engine

  /** One `archive.file(file, { name })` call. */
  datatype ArchiveEntry = ArchiveEntry(file: string, name: string)

  /** One finalised archive: the stream it was piped to and the entries added, in order. */
  datatype Archive = Archive(outputPath: string, entries: seq<ArchiveEntry>)

  /** The engine's own `singleGlobToList`: every comma piece joined to the root as it stands. */
  function SingleGlobToList(lib: PathLib, rootDirectory: string, allGlobs: string): (r: seq<string>)
    ensures |r| == |Split(allGlobs, ',')|
    ensures forall i :: 0 <= i < |r| ==> r[i] == lib.join(rootDirectory, Split(allGlobs, ',')[i])
  {
    Map((glob: string) => lib.join(rootDirectory, glob), Split(allGlobs, ','))
  }

  /** No trimming and no `!` handling: a piece, blanks and negation mark included, goes to `path.join` untouched. */
  lemma SingleGlobToListPiece(lib: PathLib, rootDirectory: string, piece: string)
    requires ',' !in piece
    ensures SingleGlobToList(lib, rootDirectory, piece) == [lib.join(rootDirectory, piece)]
  {
    SplitNoSeparator(piece, ',');
  }

  /** The `forEach` of `zipFiles`: one entry per matched file, named by its path relative to the root. */
  method ArchiveEntries(lib: PathLib, rootDirectory: string, filesToZip: seq<string>) returns (entries: seq<ArchiveEntry>)
    ensures |entries| == |filesToZip|
    ensures forall i :: 0 <= i < |entries| ==>
              entries[i] == ArchiveEntry(filesToZip[i], lib.relative(rootDirectory, filesToZip[i]))
  {
    entries := [];
    for i := 0 to |filesToZip|
      invariant |entries| == i
      invariant forall k :: 0 <= k < i ==>
                  entries[k] == ArchiveEntry(filesToZip[k], lib.relative(rootDirectory, filesToZip[k]))
    {
      var relativePath := lib.relative(rootDirectory, filesToZip[i]);
      entries := entries + [ArchiveEntry(filesToZip[i], relativePath)];
    }
  }

  /** One archive per output path, in order, all holding the same entries. */
  function ArchivesFor(outputPaths: seq<string>, entries: seq<ArchiveEntry>): seq<Archive>
  {
    if outputPaths == [] then []
    else ArchivesFor(outputPaths[..|outputPaths| - 1], entries) + [Archive(outputPaths[|outputPaths| - 1], entries)]
  }

  /** Archive `i` is streamed to output path `i` and holds the shared entries; there is one archive per path. */
  lemma {:induction false} ArchivesForAt(outputPaths: seq<string>, entries: seq<ArchiveEntry>, i: nat)
    requires i < |outputPaths|
    ensures |ArchivesFor(outputPaths, entries)| == |outputPaths|
    ensures ArchivesFor(outputPaths, entries)[i] == Archive(outputPaths[i], entries)
  {
    var front := outputPaths[..|outputPaths| - 1];
    ArchivesForLength(front, entries);
    if i < |front| {
      ArchivesForAt(front, entries, i);
    }
  }

  /** There are as many archives as output paths. */
  lemma {:induction false} ArchivesForLength(outputPaths: seq<string>, entries: seq<ArchiveEntry>)
    ensures |ArchivesFor(outputPaths, entries)| == |outputPaths|
  {
    if outputPaths != [] {
      ArchivesForLength(outputPaths[..|outputPaths| - 1], entries);
    }
  }

  /** One more output path adds its archive at the end. */
  lemma ArchivesForPrefix(outputPaths: seq<string>, entries: seq<ArchiveEntry>, i: nat)
    requires i < |outputPaths|
    ensures ArchivesFor(outputPaths[..i + 1], entries) == ArchivesFor(outputPaths[..i], entries) + [Archive(outputPaths[i], entries)]
  {
    assert outputPaths[..i + 1][..i] == outputPaths[..i];
  }

  /** The archive engine. Its base class only contributes `pathfromRoot` (resolve against the root) and `log`. */
  class FileZip {
    const rootDirectory: string
    const sourceGlob: string
    const outputPaths: seq<string>
    const useGitIgnoreFile: Option<string>
    var debug: bool
    var predefinedIgnores: seq<string>
    var watcher: Option<Watch>

    constructor (rootDirectory: string, sourceGlob: string, outputPaths: seq<string>, useGitIgnoreFile: Option<string>)
      ensures this.rootDirectory == rootDirectory && this.sourceGlob == sourceGlob
      ensures this.outputPaths == outputPaths && this.useGitIgnoreFile == useGitIgnoreFile
      ensures !debug && predefinedIgnores == [] && watcher == None
    {
      this.rootDirectory := rootDirectory;
      this.sourceGlob := sourceGlob;
      this.outputPaths := outputPaths;
      this.useGitIgnoreFile := useGitIgnoreFile;
      debug := false;
      predefinedIgnores := [];
      watcher := None;
    }

    /** `pathfromRoot`, inherited: the path resolved against the root. */
    function PathFromRoot(lib: PathLib, myPath: string): (r: string)
      ensures r == lib.resolve(rootDirectory, myPath)
    {
      lib.resolve(rootDirectory, myPath)
    }

    /** Where `allGlobs` reads the ignore file, when the option is set. */
    function IgnorePath(lib: PathLib): Option<string> {
      if IsSet(useGitIgnoreFile) then Some(PathFromRoot(lib, useGitIgnoreFile.value)) else None
    }

    /** The string `allGlobs` returns for this configuration and filesystem. */
    function Globs(lib: PathLib, fs: FileSystem): string {
      AllGlobsText(OutputExclusions(lib, rootDirectory, outputPaths), sourceGlob, PredefinedIgnores(fs, IgnorePath(lib)))
    }

    /** The files matched when the archives are built. */
    function FilesToZip(lib: PathLib, fs: FileSystem): seq<string> {
      GlobHelpers.FilePathsFromGlob(lib, fs, rootDirectory, Globs(lib, fs))
    }

    /** The entries every archive of one `zipFiles` run holds. */
    function ZipEntries(lib: PathLib, fs: FileSystem): seq<ArchiveEntry> {
      Map((file: string) => ArchiveEntry(file, lib.relative(rootDirectory, file)), FilesToZip(lib, fs))
    }

    /** One entry per file the globs match, in match order, each named by its path relative to the root. */
    lemma ZipEntriesNamed(lib: PathLib, fs: FileSystem)
      ensures var files := FilesToZip(lib, fs);
        && |ZipEntries(lib, fs)| == |files|
        && forall j :: 0 <= j < |files| ==> ZipEntries(lib, fs)[j] == ArchiveEntry(files[j], lib.relative(rootDirectory, files[j]))
    {
    }

    /**
     * `allGlobs()`: resets `predefinedIgnores`, adds the ignore file's
     * patterns, and joins everything. None when reading the ignore file
     * rejects, which leaves only the `.git` exclusion in the field.
     */
    method AllGlobs(lib: PathLib, fs: FileSystem) returns (result: Option<string>)
      modifies this`predefinedIgnores
      ensures predefinedIgnores == PredefinedIgnores(fs, IgnorePath(lib))
      ensures result.None? <==> IgnoreFileRejects(fs, IgnorePath(lib))
      ensures result.Some? ==> result.value == Globs(lib, fs)
    {
      predefinedIgnores := [GitDirExclusion];
      if IsSet(useGitIgnoreFile) {
        var gitIgnoreList := GitIgnore.ReadGitignore(fs, PathFromRoot(lib, useGitIgnoreFile.value));
        if gitIgnoreList.None? {
          return None;
        }
        predefinedIgnores := predefinedIgnores + gitIgnoreList.value;
      }
      var ignoreOutputs := OutputExclusions(lib, rootDirectory, outputPaths);
      var sourceGlobs := Split(sourceGlob, ',');
      result := Some(Join(ignoreOutputs + sourceGlobs + predefinedIgnores, ','));
    }

    /** `stopWatch()`: closes the watcher when there is one, and does nothing before the first start. */
    method StopWatch() returns (closed: seq<Watch>)
      ensures closed == if watcher.Some? then [watcher.value] else []
    {
      closed := [];
      if watcher.Some? {
        closed := [watcher.value];
      }
    }

    /**
     * `startWatch()`: stops the previous watcher, then watches the joined
     * patterns, initial scan skipped, rebuilding on every event. When
     * `allGlobs` rejects, no new watcher is installed.
     */
    method StartWatch(lib: PathLib, fs: FileSystem) returns (closed: seq<Watch>, started: bool)
      modifies this
      ensures closed == if old(watcher).Some? then [old(watcher).value] else []
      ensures predefinedIgnores == PredefinedIgnores(fs, IgnorePath(lib)) && debug == old(debug)
      ensures started <==> !IgnoreFileRejects(fs, IgnorePath(lib))
      ensures started ==> watcher == Some(Watch(SingleGlobToList(lib, rootDirectory, Globs(lib, fs)), true,
                                                map[Add := RunZip, Change := RunZip, Unlink := RunZip]))
      ensures !started ==> watcher == old(watcher)
    {
      closed := StopWatch();
      var allGlobs := AllGlobs(lib, fs);
      if allGlobs.None? {
        return closed, false;
      }
      var patterns := SingleGlobToList(lib, rootDirectory, allGlobs.value);
      watcher := Some(Watch(patterns, true, map[Add := RunZip, Change := RunZip, Unlink := RunZip]));
      started := true;
    }

    /**
     * One pass of the `zipFiles` loop: the globs are recomputed and one
     * archive is built for `outputPath`. None when `allGlobs` rejects.
     */
    method ZipOne(lib: PathLib, fs: FileSystem, outputPath: string) returns (archive: Option<Archive>)
      modifies this`predefinedIgnores
      ensures archive.None? <==> IgnoreFileRejects(fs, IgnorePath(lib))
      ensures archive.Some? ==> archive.value == Archive(outputPath, ZipEntries(lib, fs))
      ensures predefinedIgnores == PredefinedIgnores(fs, IgnorePath(lib))
    {
      var allGlobs := AllGlobs(lib, fs);
      if allGlobs.None? {
        return None;
      }
      var filesToZip := GlobHelpers.FilePathsFromGlob(lib, fs, rootDirectory, allGlobs.value);
      var entries := ArchiveEntries(lib, rootDirectory, filesToZip);
      ZipEntriesNamed(lib, fs);
      assert entries == ZipEntries(lib, fs);
      archive := Some(Archive(outputPath, entries));
    }

    /**
     * `zipFiles()`: one archive per output path, in order, each streamed to
     * that path as given and holding one entry per matched file. When
     * `allGlobs` rejects, it does so in the first pass, before any archive is
     * finalised.
     */
    method ZipFiles(lib: PathLib, fs: FileSystem) returns (ok: bool, archives: seq<Archive>)
      modifies this`predefinedIgnores
      ensures ok <==> outputPaths == [] || !IgnoreFileRejects(fs, IgnorePath(lib))
      ensures ok ==> archives == ArchivesFor(outputPaths, ZipEntries(lib, fs))
      ensures !ok ==> archives == []
      ensures predefinedIgnores == if outputPaths == [] then old(predefinedIgnores) else PredefinedIgnores(fs, IgnorePath(lib))
    {
      ghost var entries := ZipEntries(lib, fs);
      archives := [];
      for i := 0 to |outputPaths|
        invariant archives == ArchivesFor(outputPaths[..i], entries)
        invariant i > 0 ==> !IgnoreFileRejects(fs, IgnorePath(lib))
        invariant predefinedIgnores == if i == 0 then old(predefinedIgnores) else PredefinedIgnores(fs, IgnorePath(lib))
      {
        var archive := ZipOne(lib, fs, outputPaths[i]);
        if archive.None? {
          return false, [];
        }
        ArchivesForPrefix(outputPaths, entries, i);
        archives := archives + [archive.value];
      }
      assert outputPaths[..|outputPaths|] == outputPaths;
      ok := true;
    }
  }
}
