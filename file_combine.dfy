/** The combine engine: src/StackifyitFileCombine.ts. */
module Combine {
  import opened Wrappers
  import opened Strings
  import opened Host
  import opened GlobHelpers
  import opened Engine
  import opened WatcherBase

  /** The text one file contributes: a `File:` header, a rule, the content, a rule. */
  function Block(nodePath: string, content: string): (r: string)
    ensures |r| == |nodePath| + |content| + 29
    ensures StartsWith(r, "File:" + nodePath)
  {
    assert ("File:" + nodePath + "\n----------\n" + content + "\n----------\n")[..5 + |nodePath|] == "File:" + nodePath;
    "File:" + nodePath + "\n----------\n" + content + "\n----------\n"
  }

  /**
   * The `projectText` the loop of `combine` accumulates over `paths`: each
   * path slash-normalised, read, and its block appended. None when a read
   * fails, which rejects `combine` before anything is written.
   */
  function ProjectText(fs: FileSystem, paths: seq<string>): (r: Option<string>)
    ensures paths == [] ==> r == Some("")
    ensures r.Some? ==> |r.value| >= 29 * |paths|
  {
    if paths == [] then Some("")
    else
      var before := ProjectText(fs, paths[..|paths| - 1]);
      var nodePath := CorrectPaths(paths[|paths| - 1]);
      var content := fs.read(nodePath);
      if before.None? || content.None? then None
      else Some(before.value + Block(nodePath, content.value))
  }

  /** The text exists exactly when every matched file can be read. */
  lemma {:induction false} ProjectTextSucceeds(fs: FileSystem, paths: seq<string>)
    ensures ProjectText(fs, paths).Some? <==> forall i :: 0 <= i < |paths| ==> fs.read(CorrectPaths(paths[i])).Some?
  {
    if paths != [] {
      var front := paths[..|paths| - 1];
      ProjectTextSucceeds(fs, front);
      assert forall i :: 0 <= i < |front| ==> front[i] == paths[i];
    }
  }

  /** The blocks follow the expansion order: the text of two runs of paths is their texts concatenated. */
  lemma {:induction false} ProjectTextAppend(fs: FileSystem, a: seq<string>, b: seq<string>)
    requires ProjectText(fs, a).Some? && ProjectText(fs, b).Some?
    ensures ProjectText(fs, a + b) == Some(ProjectText(fs, a).value + ProjectText(fs, b).value)
  {
    var ta := ProjectText(fs, a).value;
    if b == [] {
      assert a + b == a;
      assert ta + "" == ta;
    } else {
      var front := b[..|b| - 1];
      var nodePath := CorrectPaths(b[|b| - 1]);
      assert ProjectText(fs, front).Some? && fs.read(nodePath).Some?;
      var tf := ProjectText(fs, front).value;
      var block := Block(nodePath, fs.read(nodePath).value);
      assert ProjectText(fs, b).value == tf + block;
      assert ProjectText(fs, a + front) == Some(ta + tf) by {
        ProjectTextAppend(fs, a, front);
      }
      assert ProjectText(fs, a + b) == Some((ta + tf) + block) by {
        assert (a + b)[..|a + b| - 1] == a + front;
        assert (a + b)[|a + b| - 1] == b[|b| - 1];
      }
      assert (ta + tf) + block == ta + (tf + block);
    }
  }

  /** Each read file adds a non-empty block, so the text is empty exactly when nothing matched. */
  lemma {:induction false} ProjectTextEmpty(fs: FileSystem, paths: seq<string>)
    requires ProjectText(fs, paths).Some?
    ensures ProjectText(fs, paths).value == "" <==> paths == []
  {
    if paths != [] {
      var front := paths[..|paths| - 1];
      assert ProjectText(fs, front).Some?;
      var nodePath := CorrectPaths(paths[|paths| - 1]);
      assert |Block(nodePath, fs.read(nodePath).value)| > 0;
    }
  }

  /** Two readable files give exactly their two blocks, in the order matched. */
  lemma TwoFiles(fs: FileSystem, a: string, b: string)
    requires fs.read(CorrectPaths(a)).Some? && fs.read(CorrectPaths(b)).Some?
    ensures ProjectText(fs, [a, b]) == Some(
      Block(CorrectPaths(a), fs.read(CorrectPaths(a)).value) + Block(CorrectPaths(b), fs.read(CorrectPaths(b)).value))
  {
    assert [a, b][..1] == [a];
    assert [a][..0] == [];
    var blockA := Block(CorrectPaths(a), fs.read(CorrectPaths(a)).value);
    assert ProjectText(fs, [a]) == Some("" + blockA);
    assert "" + blockA == blockA;
  }

  /** The loop of `combine` that accumulates `projectText`, stopping at the first file it cannot read. */
  method BuildProjectText(fs: FileSystem, paths: seq<string>) returns (projectText: Option<string>)
    ensures projectText == ProjectText(fs, paths)
  {
    var text := "";
    for i := 0 to |paths|
      invariant ProjectText(fs, paths[..i]) == Some(text)
    {
      var nodePath := CorrectPaths(paths[i]);
      var fileContent := fs.read(nodePath);
      assert paths[..i + 1][..i] == paths[..i];
      if fileContent.None? {
        ProjectTextSucceeds(fs, paths);
        assert paths[..i + 1][i] == paths[i];
        return None;
      }
      text := text + Block(nodePath, fileContent.value);
    }
    assert paths[..|paths|] == paths;
    return Some(text);
  }

  /** The combine engine; its inherited part is `base`. */
  class FileCombine {
    const base: FileWatcherBase
    const sourceGlob: string
    const outputPaths: seq<string>
    var predefinedIgnores: seq<string>
    var watcher: Option<Watch>

    ghost predicate Valid()
      reads this, base
    {
      base.Valid()
    }

    constructor (rootDirectory: string, sourceGlob: string, outputPaths: seq<string>,
                 useGitIgnoreFile: Option<string>, hasLogger: bool)
      ensures Valid() && fresh(base) && base.Stopped()
      ensures base.rootDirectory == rootDirectory && base.useGitIgnoreFile == useGitIgnoreFile
      ensures base.hasLogger == hasLogger && !base.debug
      ensures this.sourceGlob == sourceGlob && this.outputPaths == outputPaths
      ensures predefinedIgnores == [] && watcher == None
    {
      base := new FileWatcherBase(rootDirectory, useGitIgnoreFile, hasLogger);
      this.sourceGlob := sourceGlob;
      this.outputPaths := outputPaths;
      predefinedIgnores := [];
      watcher := None;
    }

    /** Where `allGlobs` reads the ignore file, when the option is set. */
    function IgnorePath(lib: PathLib): Option<string> {
      if IsSet(base.useGitIgnoreFile) then Some(base.PathFromRoot(lib, base.useGitIgnoreFile.value)) else None
    }

    /** The string `allGlobs` returns for this configuration and filesystem. */
    function Globs(lib: PathLib, fs: FileSystem): string {
      AllGlobsText(OutputExclusions(lib, base.rootDirectory, outputPaths), sourceGlob,
                   PredefinedIgnores(fs, IgnorePath(lib)))
    }

    /**
     * `allGlobs()`: resets `predefinedIgnores`, adds the ignore file's
     * patterns, and joins everything. None when reading the ignore file
     * rejects, which leaves only the `.git` exclusion in the field.
     */
    method AllGlobs(lib: PathLib, fs: FileSystem) returns (result: Option<string>)
      modifies this`predefinedIgnores
      ensures predefinedIgnores == PredefinedIgnores(fs, IgnorePath(lib))
      ensures result.None? <==> IgnoreFileRejects(fs, IgnorePath(lib))
      ensures result.Some? ==> result.value == Globs(lib, fs)
    {
      predefinedIgnores := [GitDirExclusion];
      if IsSet(base.useGitIgnoreFile) {
        var gitIgnoreList := GitIgnore.ReadGitignore(fs, base.PathFromRoot(lib, base.useGitIgnoreFile.value));
        if gitIgnoreList.None? {
          return None;
        }
        predefinedIgnores := predefinedIgnores + gitIgnoreList.value;
      }
      var ignoreOutputs := OutputExclusions(lib, base.rootDirectory, outputPaths);
      var sourceGlobs := Split(sourceGlob, ',');
      result := Some(Join(ignoreOutputs + sourceGlobs + predefinedIgnores, ','));
    }

    /** `stopWatch()`: closes the watcher if there is one (it stays assigned), then settles the stop promise. */
    method StopWatch() returns (closed: seq<Watch>)
      requires Valid()
      modifies base
      ensures Valid() && base.Stopped()
      ensures closed == if watcher.Some? then [watcher.value] else []
      ensures base.stopPromises == old(base.stopPromises)[|old(base.stopPromises)| - 1 := true]
      ensures base.stopResolveTarget == old(base.stopResolveTarget) && base.debug == old(base.debug)
    {
      closed := if watcher.Some? then [watcher.value] else [];
      base.StopResolve();
    }

    /**
     * `startWatch()`: stops the previous session, opens a new pending stop
     * promise and watches the listed patterns, initial scan included, with
     * `combine` bound to `change` events only. When `allGlobs` rejects, it
     * rejects after the stop and the new promise, before any watcher exists.
     */
    method StartWatch(lib: PathLib, fs: FileSystem) returns (closed: seq<Watch>, started: bool)
      requires Valid()
      modifies this, base
      ensures Valid() && !base.Stopped()
      ensures closed == if old(watcher).Some? then [old(watcher).value] else []
      ensures predefinedIgnores == PredefinedIgnores(fs, IgnorePath(lib))
      ensures started <==> !IgnoreFileRejects(fs, IgnorePath(lib))
      ensures started ==> watcher == Some(Watch(SingleGlobToList(lib, base.rootDirectory, Globs(lib, fs)), false,
                                                map[Change := RunCombine]))
      ensures !started ==> watcher == old(watcher)
      ensures base.stopPromises == old(base.stopPromises)[|old(base.stopPromises)| - 1 := true] + [false]
      ensures base.debug == old(base.debug)
    {
      ghost var promises := base.stopPromises;
      closed := StopWatch();
      assert base.stopPromises == promises[|promises| - 1 := true];
      base.CreateStopPromise();
      assert base.stopPromises == promises[|promises| - 1 := true] + [false];
      var globs := AllGlobs(lib, fs);
      if globs.None? {
        return closed, false;
      }
      var sourcePatterns := SingleGlobToList(lib, base.rootDirectory, globs.value);
      watcher := Some(Watch(sourcePatterns, false, map[Change := RunCombine]));
      started := true;
    }

    /** The writes of one `combine` run that built `projectText`: the same text to every output, resolved against the root. */
    function OutputWrites(lib: PathLib, projectText: string): (r: seq<FileWrite>)
      ensures |r| == |outputPaths|
      ensures forall i :: 0 <= i < |r| ==> r[i] == FileWrite(base.PathFromRoot(lib, outputPaths[i]), projectText)
    {
      var rootDirectory := base.rootDirectory;
      Seqs.Map((p: string) => FileWrite(lib.resolve(rootDirectory, p), projectText), outputPaths)
    }

    /**
     * `combine()`: expands the globs, builds the project text, and writes the
     * same text to every output path, resolved against the root. When the
     * ignore file or a matched file cannot be read nothing is written.
     */
    method Combine(lib: PathLib, fs: FileSystem) returns (ok: bool, writes: seq<FileWrite>)
      modifies this`predefinedIgnores
      ensures predefinedIgnores == PredefinedIgnores(fs, IgnorePath(lib))
      ensures var text := ProjectText(fs, FilePathsFromGlob(lib, fs, base.rootDirectory, Globs(lib, fs)));
        && (ok <==> !IgnoreFileRejects(fs, IgnorePath(lib)) && text.Some?)
        && (!ok ==> writes == [])
        && (ok ==> writes == OutputWrites(lib, text.value))
    {
      var globs := AllGlobs(lib, fs);
      if globs.None? {
        return false, [];
      }
      var paths := FilePathsFromGlob(lib, fs, base.rootDirectory, globs.value);
      var projectText := BuildProjectText(fs, paths);
      if projectText.None? {
        return false, [];
      }
      ok := true;
      writes := WriteOutputs(lib, projectText.value);
    }

    /** The loop of `combine` that writes the project text to every output path. */
    method WriteOutputs(lib: PathLib, projectText: string) returns (writes: seq<FileWrite>)
      ensures writes == OutputWrites(lib, projectText)
    {
      writes := [];
      for i := 0 to |outputPaths|
        invariant |writes| == i
        invariant forall k :: 0 <= k < i ==> writes[k] == FileWrite(base.PathFromRoot(lib, outputPaths[k]), projectText)
      {
        var projectTextSavePath := outputPaths[i];
        writes := writes + [FileWrite(base.PathFromRoot(lib, projectTextSavePath), projectText)];
      }
    }
  }

  /** Whatever the ignore file holds, each configured output is excluded, before the user's globs. */
  lemma CombineExcludesOutputs(c: FileCombine, lib: PathLib, fs: FileSystem)
    requires forall i :: 0 <= i < |c.outputPaths| ==> ',' !in lib.resolve(c.base.rootDirectory, CorrectPaths(c.outputPaths[i]))
    requires var ignores := PredefinedIgnores(fs, c.IgnorePath(lib)); forall i :: 0 <= i < |ignores| ==> ',' !in ignores[i]
    ensures var pieces := Split(c.Globs(lib, fs), ',');
      && |pieces| == |c.outputPaths| + |Split(c.sourceGlob, ',')| + |PredefinedIgnores(fs, c.IgnorePath(lib))|
      && (forall i :: 0 <= i < |c.outputPaths| ==>
            pieces[i] == "!" + lib.resolve(c.base.rootDirectory, CorrectPaths(c.outputPaths[i])))
      && pieces[|pieces| - |PredefinedIgnores(fs, c.IgnorePath(lib))|] == GitDirExclusion
  {
    var exclusions := OutputExclusions(lib, c.base.rootDirectory, c.outputPaths);
    var ignores := PredefinedIgnores(fs, c.IgnorePath(lib));
    forall i | 0 <= i < |exclusions| ensures ',' !in exclusions[i] {
      assert exclusions[i] == "!" + lib.resolve(c.base.rootDirectory, CorrectPaths(c.outputPaths[i]));
    }
    AllGlobsOrder(exclusions, c.sourceGlob, ignores);
  }
}
