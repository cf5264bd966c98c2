# stackifyit, modelled in Dafny

stackifyit keeps the source files of a project in step with other places. It has three
watching engines:

- **Combine** (`StackifyitFileCombine`) concatenates every matched file into one text
  file, with a header and a rule around each file.
- **Zip** (`StackifyitFileZip`) packs every matched file into a zip archive.
- **BiDirectionalSync** (`StackifyitBiDirectionalSync`) mirrors the source files into
  several target directories, and mirrors target changes back into the source.

All three build their patterns from a comma-separated glob string. Combine and Zip add
an exclusion for each of their outputs; all three add `.git` and the lines of an optional
`.gitignore`. Combine and BiDirectionalSync normalise the result with the shared
`singleGlobToList`, which trims each piece, resolves it against the root and keeps a
leading `!`. Zip's watcher uses its own variant, which only joins each piece to the root;
the files Zip archives are listed through the shared `filePathsFromGlob`. The watcher base class
gives Combine a stop signal, which is a promise that each new session replaces and each
stop settles. A small tool, `generateIndex`, writes an `index.ts` barrel file, with one
`export * from` line per module in a directory listing.

The model is a set of Dafny modules whose structure follows the sources:

| module | file | models |
|---|---|---|
| `Wrappers`, `Strings`, `Seqs` | `wrappers.dfy`, `strings.dfy`, `seqs.dfy` | the JavaScript built-ins the core relies on (`trim`, `split`, `join`, `startsWith`, `endsWith`, `replace` with a string pattern, array `filter`/`map`), with their edge cases (`replace` only for a replacement without `$`) |
| `Host` | `host.dfy` | Node's `path.resolve`/`join`/`relative` (`PathLib`), fast-glob, existence checks and file reads (`FileSystem`) as parameters |
| `GlobHelpers` | `glob_helpers.dfy` | `correctPaths`, `singleGlobToList`, `filePathsFromGlob` |
| `GitIgnore` | `read_gitignore.dfy` | `readGitignore` |
| `Engine` | `engine.dfy` | what the engines share: the `.git` exclusion, the assembly of the `allGlobs` string, and the values that stand for watchers and writes |
| `WatcherBase` | `watcher_base.dfy` | `StackifyitFileWatcherBase`: `pathfromRoot`, the stop-promise state machine, `log` |
| `Combine` | `file_combine.dfy` | `StackifyitFileCombine` |
| `Zip` | `file_zip.dfy` | `StackifyitFileZip` |
| `Sync` | `bidirectional_sync.dfy` | `StackifyitBiDirectionalSync` |
| `IndexTool` | `generate_index.dfy` | `generateIndex` |

The pure helpers are modelled as functions, with lemmas about them. Each engine is a
`class` with the fields the source mutates (`predefinedIgnores`, the watcher handles,
`debug`, the stop promises). Each source loop is a `method` with a loop, proved against
a specification function. Effects are returned as values instead of being performed:

- the watchers a stop closes;
- the `chokidar.watch` configuration a start installs (its patterns, its `ignoreInitial`
  flag, and which handler each event is bound to);
- the files written;
- the archives and their entries;
- the `fs.copy`/`fs.remove` calls.

Node's path functions are uninterpreted. Where a property needs a fact about them, that
fact is a `requires`. For example, `GlobHelpers.GlobPieceNegation` needs
`Host.ResolveNeverNegated`: `path.resolve` never yields a path that starts with `!`.

In a few places the code behaves in a way its names do not suggest; the model follows the code:

- Reverse sync uses the target directory that fired the event as the base for the
  relative path, not a fixed directory (src/StackifyitBiDirectionalSync.ts:85-87).
- The sync engine's `pathfromRoot` uses `path.join`, while the other engines use
  `path.resolve`.
- Zip streams each archive to the output path exactly as configured, but excludes that
  output from the globs by its root-resolved form.
- Combine reacts to `change` events only. Its initial scan is not ignored.
- `copyToTargets` copies each pattern produced by `singleGlobToList`, not the files the
  pattern matches. It never calls fast-glob.

Some behaviours of the code as written are proved about the model, so that a reader can
see them:

- An indented `#` line in an ignore file is not treated as a comment
  (`GitIgnore.IndentedCommentSurvives`).
- A blank-but-not-empty line becomes the pattern `!` (`GitIgnore.BlankLineSurvives`).
- An ignore line that holds a comma splits into an include pattern when the glob string
  is split again (`Engine.CommaInIgnoreSplitsIt`).
- `replace('.ts', '')` removes only the first `.ts` (`IndexTool.ExportLineStripsFirstTs`).

## Model

| member | source | states |
|---|---|---|
| Strings.TrimStart | src/tools/helpers/glob-helpers.ts:21 | the result is a suffix of the input, only whitespace is removed, and it does not start with whitespace |
| Strings.TrimEnd | src/tools/helpers/glob-helpers.ts:21 | the result is a prefix of the input, only whitespace is removed, and it does not end with whitespace |
| Strings.Trim | src/tools/helpers/readGitIngore.ts:13 | no whitespace at either end; the result is empty exactly when the input is all whitespace (with `TrimInfix`, that it is the input less its outer whitespace) |
| Strings.TrimInfix | src/tools/helpers/readGitIngore.ts:13 | the trim is a contiguous part of the input with only whitespace before it and only whitespace after it |
| Strings.TrimPadded | src/tools/helpers/glob-helpers.ts:21 | whitespace added on either side of a string does not change its trim |
| Strings.Split | src/tools/helpers/glob-helpers.ts:20 | `split` with a one-character separator yields at least one piece, and no piece holds the separator |
| Strings.JoinSplit | src/StackifyitFileCombine.ts:43-48 | joining the pieces of a split gives back the original string |
| Strings.SplitJoin | src/StackifyitFileCombine.ts:43-48 | splitting a join of non-empty, separator-free parts gives back the parts |
| Strings.SplitCount | src/tools/helpers/readGitIngore.ts:11 | a split has one more piece than there are separators |
| Strings.SplitAtSeparator | src/tools/helpers/readGitIngore.ts:11 | splitting at a separator splits the two sides independently |
| Strings.JoinAppend | src/StackifyitFileCombine.ts:44-48 | joining two non-empty lists puts exactly one separator between their joins |
| Strings.Join | src/StackifyitFileCombine.ts:44-48 | no parts give the empty string and one part gives itself (the separators between several parts are stated by `JoinAppend` and `JoinSeparators`) |
| Strings.JoinSeparators | src/StackifyitFileCombine.ts:44-48 | separator-free parts are joined with exactly one separator per pair of neighbours |
| Strings.IndexOf | src/tools/generateIndex.tool.ts:12 | the result is -1 or an occurrence of the pattern, and no occurrence starts earlier, the end of the string included, so the empty pattern is found at 0 |
| Strings.ReplaceFirst | src/tools/generateIndex.tool.ts:12 | for a replacement without `$`: a pattern that does not occur leaves the string unchanged; otherwise the length changes by the replacement minus the pattern |
| Strings.ReplaceFirstAt | src/tools/generateIndex.tool.ts:12 | `replace` with a string pattern rewrites only the first occurrence and keeps the text around it |
| Strings.ReplaceFirstAvoids | src/tools/generateIndex.tool.ts:12 | replacing with text free of a character keeps a string free of that character |
| Seqs.Filter | src/tools/helpers/readGitIngore.ts:12 | the result is no longer than the input, every element satisfies the test, and every element comes from the input |
| Seqs.FilterKeeps | src/tools/generateIndex.tool.ts:11 | an element that passes the test is never dropped |
| Seqs.FilterAppend | src/tools/helpers/readGitIngore.ts:12 | filtering keeps order: it distributes over concatenation |
| Seqs.Map | src/tools/helpers/glob-helpers.ts:20 | `map` keeps the length and applies the function at every position |
| GlobHelpers.CorrectPaths | src/tools/helpers/glob-helpers.ts:9-11 | every backslash becomes `/`, every other character is kept, the length is kept, and no backslash is left |
| GlobHelpers.CorrectPathsIdempotent | src/tools/helpers/glob-helpers.ts:9-11 | normalising twice is the same as normalising once |
| GlobHelpers.CorrectPathsClean | src/tools/helpers/glob-helpers.ts:9-11 | a path without backslashes is left unchanged |
| GlobHelpers.SingleGlobToList | src/tools/helpers/glob-helpers.ts:19-27 | one pattern per comma piece, in order: pattern `i` is what piece `i` becomes |
| GlobHelpers.SingleGlobToListClean | src/tools/helpers/glob-helpers.ts:19-27 | no listed pattern holds a backslash |
| GlobHelpers.GlobPiece | src/tools/helpers/glob-helpers.ts:20-26 | a listed pattern never holds a backslash, and it is negated whenever its trimmed piece is |
| GlobHelpers.GlobPieceNegation | src/tools/helpers/glob-helpers.ts:21-25 | given that resolve never yields a `!`-prefixed path, a pattern is negated exactly when its trimmed piece is |
| GlobHelpers.GlobPieceStripsOneBang | src/tools/helpers/glob-helpers.ts:22-23 | only the first `!` is removed; the rest of the piece is resolved against the root and normalised |
| GlobHelpers.GlobPiecePlain | src/tools/helpers/glob-helpers.ts:25 | a piece without `!` is resolved against the root after trimming, then normalised |
| GlobHelpers.GlobPiecePadding | src/tools/helpers/glob-helpers.ts:21 | whitespace around a piece does not change its pattern |
| GlobHelpers.SingleGlobToListJoin | src/tools/helpers/glob-helpers.ts:19-27 | listing comma-joined, comma-free pieces gives one pattern per piece, in order |
| GlobHelpers.FilePathsFromGlob | src/tools/helpers/glob-helpers.ts:35-39 | one path per glob match, in match order, each resolved against the root |
| GitIgnore.ReadGitignore | src/tools/helpers/readGitIngore.ts:3-15 | a path `fsp.access` does not find gives no patterns; a path that exists but cannot be read rejects (None); a readable file gives the patterns of its text, every one starting with `!` |
| GitIgnore.IgnorePatterns | src/tools/helpers/readGitIngore.ts:10-13 | the patterns of a text: every one starts with `!`, and there are never more patterns than lines |
| GitIgnore.KeepLine | src/tools/helpers/readGitIngore.ts:12 | a line is kept exactly when it is non-empty and its first character is not `#` |
| GitIgnore.Negated | src/tools/helpers/readGitIngore.ts:13 | a kept line becomes a pattern starting with `!`, which is the bare `!` exactly when the line is all whitespace |
| GitIgnore.ReadGitignoreLines | src/tools/helpers/readGitIngore.ts:10-13 | the patterns of two blocks of text joined by a newline are the patterns of each block, in order |
| GitIgnore.ReadGitignoreLine | src/tools/helpers/readGitIngore.ts:12-13 | one line gives `"!" + trim(line)` if it is non-empty and does not start with `#`, and nothing otherwise |
| GitIgnore.ReadGitignoreSkips | src/tools/helpers/readGitIngore.ts:12 | empty lines and comment lines give no pattern |
| GitIgnore.IndentedCommentSurvives | src/tools/helpers/readGitIngore.ts:12-13 | the comment test comes before the trim, so an indented `#` line becomes a negated pattern |
| GitIgnore.BlankLineSurvives | src/tools/helpers/readGitIngore.ts:12-13 | a line of blanks passes the filter and becomes the bare pattern `!` |
| Engine.PredefinedIgnores | src/StackifyitFileCombine.ts:33-38 | the list starts with the `.git` exclusion; it is exactly that without an ignore file, with a missing one, and when reading it rejects; otherwise the ignore file's patterns follow; every entry is negated |
| Engine.IgnoreFileRejectsExactly | src/tools/helpers/readGitIngore.ts:4-10 | `allGlobs` rejects exactly when the option is set and the ignore file exists but cannot be read; a missing file is not an error |
| Engine.IsSet | src/StackifyitFileCombine.ts:34 | the ignore-file option counts as set exactly when it is present and not the empty string |
| Engine.OutputExclusions | src/StackifyitFileCombine.ts:40-42 | one exclusion per output path: `!` plus the normalised path resolved against the root |
| Engine.AllGlobsOrder | src/StackifyitFileCombine.ts:43-48 | split back at commas, the `allGlobs` string gives the exclusions, then the source pieces, then the ignores, when exclusions and ignores hold no comma |
| Engine.AllGlobsKeepsSource | src/StackifyitFileCombine.ts:44-48 | the user's glob string appears unchanged between the exclusions and the ignores |
| Engine.SourceThenIgnoresText | src/StackifyitFileCombine.ts:43-48 | the source pieces joined before the ignores spell the source string, a comma, then the joined ignores |
| Engine.CommaInIgnoreSplitsIt | src/StackifyitFileCombine.ts:37-48 | an ignore pattern that holds a comma comes apart on the next split, and its tail becomes an include pattern |
| WatcherBase.LogRoute | src/models/StackifyitFileWatcherBase.abstract.ts:49-58 | nothing is logged unless debugging; otherwise one line, sent to the custom logger exactly when one is configured |
| WatcherBase.FileWatcherBase.PathFromRoot | src/models/StackifyitFileWatcherBase.abstract.ts:24-26 | the path resolved against the root directory |
| WatcherBase.FileWatcherBase.constructor | src/models/StackifyitFileWatcherBase.abstract.ts:16-28 | a new engine is not debugging, its stop promise is already resolved, and its resolver settles nothing |
| WatcherBase.FileWatcherBase.StopResolve | src/models/StackifyitFileWatcherBase.abstract.ts:28 | calling the resolver settles the current promise and changes nothing when it is already settled |
| WatcherBase.FileWatcherBase.CreateStopPromise | src/models/StackifyitFileWatcherBase.abstract.ts:29-34 | the previous promise is settled, then a new pending promise and its resolver become current; at most one promise is ever pending |
| WatcherBase.FileWatcherBase.WaitUntilStopped | src/models/StackifyitFileWatcherBase.abstract.ts:40-42 | the current promise is awaited; the caller resumes at once exactly when it is already resolved |
| WatcherBase.StopSignalLifecycle | src/models/StackifyitFileWatcherBase.abstract.ts:27-42 | a usage of the stop signal: waiting on a watcher never started resumes at once, waiting during a session does not, a new session settles the previous promise, and waiting after a stop resumes at once |
| WatcherBase.FileWatcherBase.Log | src/models/StackifyitFileWatcherBase.abstract.ts:49-58 | emits exactly the lines of the logging rule |
| Combine.ProjectTextSucceeds | src/StackifyitFileCombine.ts:108-114 | the project text exists exactly when every matched file, after slash normalisation, can be read |
| Combine.ProjectTextAppend | src/StackifyitFileCombine.ts:108-114 | the blocks follow the match order: the text for two runs of paths is the concatenation of their texts |
| Combine.ProjectTextEmpty | src/StackifyitFileCombine.ts:106-114 | the text is empty exactly when no file matched |
| Combine.TwoFiles | src/StackifyitFileCombine.ts:113 | two readable files give their `File:` header, rule, content, rule blocks, in order |
| Combine.BuildProjectText | src/StackifyitFileCombine.ts:106-114 | the accumulating loop yields the project text, and stops at the first unreadable file |
| Combine.ProjectText | src/StackifyitFileCombine.ts:106-114 | no paths give the empty text; a text that exists is at least 29 characters per matched file |
| Combine.Block | src/StackifyitFileCombine.ts:113 | a block starts with `File:` and the path, and is 29 characters longer than path and content together |
| Combine.FileCombine.constructor | src/StackifyitFileCombine.ts:19-26 | fresh state: no watcher, no ignores, not debugging, and the inherited stop signal already resolved |
| Combine.FileCombine.AllGlobs | src/StackifyitFileCombine.ts:32-51 | `predefinedIgnores` is reset to the `.git` exclusion plus the ignore file's patterns; the result rejects exactly when the ignore file exists but cannot be read, and is otherwise exclusions, source pieces and ignores, joined with commas |
| Combine.FileCombine.StopWatch | src/StackifyitFileCombine.ts:78-83 | closes the watcher if there is one, then settles the current stop promise and keeps the base state valid |
| Combine.FileCombine.StartWatch | src/StackifyitFileCombine.ts:57-72 | the old watcher is closed and its promise settled; a new pending promise is created; unless `allGlobs` rejects, the listed patterns are watched, initial scan included, with `combine` bound to `change` only; when it rejects no new watcher is installed |
| Combine.FileCombine.Combine | src/StackifyitFileCombine.ts:105-120 | when the ignore file and every matched file can be read, the same project text is written to every output path, resolved against the root; otherwise nothing is written |
| Combine.FileCombine.OutputWrites | src/StackifyitFileCombine.ts:116-119 | one write per output path, in order, each of the whole project text to that path resolved against the root |
| Combine.FileCombine.WriteOutputs | src/StackifyitFileCombine.ts:116-119 | the write loop issues exactly those writes |
| Combine.CombineExcludesOutputs | src/StackifyitFileCombine.ts:40-48 | every configured output is excluded ahead of the user's globs, and the `.git` exclusion starts the ignores |
| Zip.SingleGlobToList | src/StackifyitFileZip.ts:135-137 | every comma piece is joined to the root as it stands, one pattern per piece |
| Zip.SingleGlobToListPiece | src/StackifyitFileZip.ts:135-137 | no trimming and no `!` handling: a comma-free piece gives exactly `join(root, piece)` |
| Zip.FileZip.PathFromRoot | src/StackifyItBase.abstract.ts:24-26 | the path resolved against the root directory |
| Zip.ArchiveEntries | src/StackifyitFileZip.ts:93-97 | one entry per matched file, in order, named by its path relative to the root |
| Zip.FileZip.constructor | src/StackifyitFileZip.ts:21-28 | fresh state: no watcher, no ignores, not debugging |
| Zip.FileZip.ZipEntriesNamed | src/StackifyitFileZip.ts:92-97 | the entries of one archive: one per file the globs match, in match order, each under its root-relative name |
| Zip.FileZip.ZipOne | src/StackifyitFileZip.ts:73-101 | one pass of the loop recomputes the globs, resetting `predefinedIgnores`, and builds the archive for that output path; it fails exactly when `allGlobs` rejects |
| Zip.ArchivesForAt | src/StackifyitFileZip.ts:73-74 | archive `i` is streamed to output path `i` and holds the shared entries; there is one archive per path |
| Zip.ArchivesForLength | src/StackifyitFileZip.ts:73 | there are as many archives as output paths |
| Zip.ArchivesForPrefix | src/StackifyitFileZip.ts:73 | each further output path adds its archive at the end |
| Zip.FileZip.AllGlobs | src/StackifyitFileZip.ts:108-127 | `predefinedIgnores` is reset to the `.git` exclusion plus the ignore file's patterns; the result rejects exactly when the ignore file exists but cannot be read, and is otherwise exclusions, source pieces and ignores, joined with commas |
| Zip.FileZip.StopWatch | src/StackifyitFileZip.ts:60-64 | closes the watcher when there is one, and does nothing before the first start |
| Zip.FileZip.StartWatch | src/StackifyitFileZip.ts:34-54 | the old watcher is closed; unless `allGlobs` rejects, the joined patterns are watched, initial scan skipped, with `zipFiles` bound to add, change and unlink; when it rejects no new watcher is installed |
| Zip.FileZip.ZipFiles | src/StackifyitFileZip.ts:70-102 | one archive per output path, in order, streamed to that path as given and holding the files the globs match; no archive when `allGlobs` rejects and there is an output; `predefinedIgnores` is recomputed for each output and left alone when there is none |
| Sync.TargetPathRelative | src/StackifyitBiDirectionalSync.ts:131-133 | `TargetPath` is `path.join(targetDir, path.relative(baseDir, filePath))`; for a file whose path relative to its base is normal (non-empty, no trailing `/`, no empty, `.` or `..` segment), and given that POSIX `path.relative` undoes `path.join` on such paths, the mirrored path lies at the same relative path under the target directory as the file under its base (the formula is repeated at lines 149-151 and 169-170) |
| Sync.SourceWatch | src/StackifyitBiDirectionalSync.ts:68-76 | the source watcher watches the patterns, ignores the initial scan, and binds exactly add, change and unlink: add and change to `syncFile`, unlink to `removeFile`, each over all target directories with the root as base |
| Sync.TargetWatch | src/StackifyitBiDirectionalSync.ts:79-87 | a target watcher watches that directory alone, ignores the initial scan, and binds exactly add, change and unlink, each mirroring to the root only with that target as base |
| Sync.MirrorCopies | src/StackifyitBiDirectionalSync.ts:129-139 | one copy per target directory, in order, to the file's base-relative path under that directory |
| Sync.MirrorRemovals | src/StackifyitBiDirectionalSync.ts:147-157 | one removal per target directory, in order, at the file's base-relative path under that directory |
| Sync.SyncFile | src/StackifyitBiDirectionalSync.ts:129-139 | the loop issues exactly the mirror copies of the file |
| Sync.RemoveFile | src/StackifyitBiDirectionalSync.ts:147-157 | the loop issues exactly the mirror removals of the file |
| Sync.CopyPlanAt | src/StackifyitBiDirectionalSync.ts:167-175 | copy number `i * targets + j` takes listed path `i` to target `j`, relative to the root |
| Sync.CopyPlanLength | src/StackifyitBiDirectionalSync.ts:167-175 | one copy per listed path and target |
| Sync.CopyPlanPrefix | src/StackifyitBiDirectionalSync.ts:167-175 | each further listed path appends its copies to every target |
| Sync.CopyEach | src/StackifyitBiDirectionalSync.ts:167-175 | the nested loop issues the copy plan, paths outside and targets inside |
| Sync.WatchTargets | src/StackifyitBiDirectionalSync.ts:78-91 | one watcher per target directory, in order, each syncing back to the root relative to that target |
| Sync.SourceEventsReachEveryTarget | src/StackifyitBiDirectionalSync.ts:73-76 | every source event reaches every target, relative to the root: add and change copy, unlink removes |
| Sync.TargetEventsReturnToRoot | src/StackifyitBiDirectionalSync.ts:84-87 | an event under a target reaches only the root, relative to that target |
| Sync.MirrorEchoesBack | src/StackifyitBiDirectionalSync.ts:75-87 | when `relative` undoes `join`, the copy a target makes of a mirrored file lands back on the original |
| Sync.Reaction | src/StackifyitBiDirectionalSync.ts:73-87 | a Combine or Zip handler issues no `fs.copy` or `fs.remove` (its writes are modelled by `Combine.FileCombine.Combine` and `Zip.FileZip.ZipFiles`); a sync or remove handler issues one call per directory, copies exactly for `syncFile` and removals exactly for `removeFile` |
| Sync.BiDirectionalSync.constructor | src/StackifyitBiDirectionalSync.ts:19-25 | fresh state: no watchers, no ignores, not debugging |
| Sync.BiDirectionalSync.PathFromRoot | src/StackifyitBiDirectionalSync.ts:32-34 | the path joined (not resolved) to the root directory |
| Sync.BiDirectionalSync.AllGlobs | src/StackifyitBiDirectionalSync.ts:40-55 | `predefinedIgnores` is reset to the `.git` exclusion plus the ignore file's patterns; the result rejects exactly when the ignore file exists but cannot be read, and is otherwise the source pieces and the ignores, with no output exclusions |
| Sync.SyncGlobsOrder | src/StackifyitBiDirectionalSync.ts:48-52 | split back at commas, the sync globs are the source pieces followed by the ignores, and the `.git` exclusion is among them |
| Sync.SourceThenIgnores | src/StackifyitBiDirectionalSync.ts:48-52 | comma-free ignores joined after the source pieces come apart again, in order |
| Sync.BiDirectionalSync.Log | src/StackifyitBiDirectionalSync.ts:117-121 | when debugging, the line goes to the console; otherwise nothing is emitted. `allGlobs` bypasses this rule and prints to the console whatever `debug` says (lines 44 and 53) |
| Sync.BiDirectionalSync.StopWatch | src/StackifyitBiDirectionalSync.ts:100-110 | closes the source watcher if there is one, then every target watcher in order; the target list is emptied and the source watcher stays assigned |
| Sync.BiDirectionalSync.StartWatch | src/StackifyitBiDirectionalSync.ts:61-94 | the previous session is closed; unless `allGlobs` rejects, the resolved patterns are watched towards every target and there is one watcher per target directory, in order, each syncing back to the root; when it rejects no watcher is left in the target list and no new source watcher exists |
| Sync.BiDirectionalSync.CopyToTargets | src/StackifyitBiDirectionalSync.ts:163-176 | unless `allGlobs` rejects, every listed pattern, not the files it matches, is copied to every target, relative to the root; when it rejects nothing is copied |
| IndexTool.ModuleFilesExactly | src/tools/generateIndex.tool.ts:11 | a name is kept exactly when it is listed, ends with `.ts` and is not `index.ts` |
| IndexTool.ModuleFilesInOrder | src/tools/generateIndex.tool.ts:11 | the kept names follow the listing order |
| IndexTool.ExportLine | src/tools/generateIndex.tool.ts:12 | an export line starts with `export * from './` and ends with `';` |
| IndexTool.IndexText | src/tools/generateIndex.tool.ts:12 | the text is empty exactly when no listed name is exported |
| IndexTool.NothingToExport | src/tools/generateIndex.tool.ts:11-12 | an empty listing, or one with nothing to export, gives the empty text |
| IndexTool.ExportLineStripsFirstTs | src/tools/generateIndex.tool.ts:12 | the export line of `pre + ".ts" + post` names `pre + post`, when `.ts` does not occur earlier |
| IndexTool.ExportLineOneLine | src/tools/generateIndex.tool.ts:12 | an export line holds no newline when the name holds none |
| IndexTool.IndexTextLines | src/tools/generateIndex.tool.ts:12 | the lines of the text are the export lines of the kept names, one each, in order, with no trailing newline |
| IndexTool.GenerateIndex | src/tools/generateIndex.tool.ts:13-23 | the only write goes to `join(targetDir, "index.ts")` and carries the index text of the listing; `index.d.ts` is not written |

## Left out

- Strings.ReplaceFirst: requires a replacement without `$`; JavaScript's `$$`, `$&`, `` $` `` and `$'` substitution patterns are not interpreted. The only call, at src/tools/generateIndex.tool.ts:12, passes the empty string.
- Watching itself: chokidar's scanning and event dispatch are not modelled. A watcher is a
  value that records its patterns, its `ignoreInitial` flag and which handler each event
  is bound to. `Sync.Reaction` gives what a bound handler does for one reported file.
- fast-glob matching, Node's path semantics and filesystem contents are parameters. The
  model never interprets them.
- Asynchrony and concurrency are not modelled: the promise interleaving, and
  un-awaited `fs.copy`/`fs.remove` calls racing each other. Every engine operation runs
  to completion in program order.
- Failed copies, removals and writes are not modelled. Their errors are only logged, or
  they reject the promise. The failures modelled are failed reads: an ignore file that
  exists but cannot be read rejects `allGlobs` and the operation that awaited it, and a
  matched file that cannot be read stops `combine` before any write.
- Zip.FileZip.ZipFiles: every pass globs the same filesystem snapshot, so archives
  written by earlier passes, and the stream a pass has just opened, are never among the
  matched files. In the source a later pass can match them: the stream is opened at the
  output path as given, while the exclusion uses the root-resolved form, and the two
  differ when the path is relative and the working directory is not the root. A rejected first pass also leaves the
  write stream it opened (an emptied file at that output path), which is not modelled.
- The archive format, zlib level 9, `archive.pointer()` and the archive's `error`
  handler are not modelled: an archive is the list of its entries.
- The engines' own log calls are not modelled as effects (file names, "Watching …",
  byte counts). Only the gating rule, `log`, is modelled.
- Zip's `log` comes from `StackifyItBase.abstract.ts`, which is not part of this model.
  Zip borrows from it only `pathfromRoot` (resolve against the root). Zip's log calls are
  not modelled, so its `debug` field is stored but never read.
  Its `waitUntilStopped` is not modelled, because Zip never calls it.
- Combine's own `log` override (src/StackifyitFileCombine.ts:90-99) has the base class's
  rule, so `WatcherBase.FileWatcherBase.Log` stands for both.
- `generateIndex`: reading the directory, the `mkdir`, and the console message are not
  modelled. The directory listing is a parameter.
- Strings are sequences of Unicode scalar values, not UTF-16 code units.
- `copyToTargets.tool.ts`, `combineFiles.tool.ts`, `kill.tool.ts`, `execPromise`,
  `copyRecursiveSync` and `main.ts` are not part of this model.
