/** The index generator: src/tools/generateIndex.tool.ts. */
module IndexTool {
  import opened Strings
  import opened Seqs
  import opened Host
  import opened Engine

  /** The name of the generated file inside the target directory. */
  const IndexFile := "index.ts"

  /** The text around each module stem in an export line. */
  const ExportOpen := "export * from './"
  const ExportClose := "';"

  /** A listed name becomes an export when it ends with `.ts` and is not the index itself. */
  predicate IsModuleFile(file: string) {
    EndsWith(file, ".ts") && file != IndexFile
  }

  /** The export line for one module: its name with the first `.ts` removed. */
  function ExportLine(file: string): (r: string)
    ensures StartsWith(r, ExportOpen) && EndsWith(r, ExportClose)
  {
    assert (ExportOpen + ReplaceFirst(file, ".ts", "") + ExportClose)[..|ExportOpen|] == ExportOpen;
    ExportOpen + ReplaceFirst(file, ".ts", "") + ExportClose
  }

  /** The listed names that get an export line, in listing order. */
  function ModuleFiles(listing: seq<string>): (r: seq<string>)
    ensures |r| <= |listing|
  {
    Filter(IsModuleFile, listing)
  }

  /** The text written to `index.ts`: one export line per module, joined with newlines. */
  function IndexText(listing: seq<string>): (r: string)
    ensures r == "" <==> ModuleFiles(listing) == []
  {
    Join(Map(ExportLine, ModuleFiles(listing)), '\n')
  }

  /** `generateIndex(sourceDirectory, targetDir)` given the listing of `sourceDirectory`: its one write. */
  function GenerateIndex(lib: PathLib, listing: seq<string>, targetDir: string): (r: FileWrite)
    ensures r.path == lib.join(targetDir, IndexFile)
    ensures r.text == IndexText(listing)
  {
    FileWrite(lib.join(targetDir, IndexFile), IndexText(listing))
  }

  /** A name is kept exactly when it is listed, ends with `.ts` and is not `index.ts`. */
  lemma ModuleFilesExactly(listing: seq<string>, file: string)
    ensures file in ModuleFiles(listing) <==> file in listing && EndsWith(file, ".ts") && file != IndexFile
  {
    if file in listing && IsModuleFile(file) {
      FilterKeeps(IsModuleFile, listing, file);
    }
  }

  /** The kept names of two listings one after the other are those of each, in order. */
  lemma ModuleFilesInOrder(first: seq<string>, second: seq<string>)
    ensures ModuleFiles(first + second) == ModuleFiles(first) + ModuleFiles(second)
  {
    FilterAppend(IsModuleFile, first, second);
  }

  /** A listing with nothing to export gives the empty text. */
  lemma {:induction false} NothingToExport(listing: seq<string>)
    requires forall i :: 0 <= i < |listing| ==> !IsModuleFile(listing[i])
    ensures ModuleFiles(listing) == []
    ensures IndexText(listing) == ""
  {
    if listing != [] {
      NothingToExport(listing[1..]);
    }
  }

  /** The export line of `pre + ".ts" + post` names `pre + post`, when `.ts` does not occur earlier. */
  lemma ExportLineStripsFirstTs(pre: string, post: string)
    requires forall k :: 0 <= k < |pre| ==> !OccursAt(pre + ".ts" + post, ".ts", k)
    ensures ExportLine(pre + ".ts" + post) == ExportOpen + pre + post + ExportClose
  {
    assert ReplaceFirst(pre + ".ts" + post, ".ts", "") == pre + post by {
      ReplaceFirstAt(pre, ".ts", post, "");
      assert pre + "" + post == pre + post;
    }
  }

  /** An export line holds no newline when the name holds none. */
  lemma ExportLineOneLine(file: string)
    requires '\n' !in file
    ensures '\n' !in ExportLine(file)
  {
    assert ExportOpen == ['e', 'x', 'p', 'o', 'r', 't', ' ', '*', ' ', 'f', 'r', 'o', 'm', ' ', '\'', '.', '/'];
    assert ExportClose == ['\'', ';'];
    ReplaceFirstAvoids(file, ".ts", "", '\n');
  }

  /**
   * When at least one name is kept and no name holds a newline, the lines of
   * the text are the export lines of the kept names, one each, in order.
   */
  lemma IndexTextLines(listing: seq<string>)
    requires ModuleFiles(listing) != []
    requires forall i :: 0 <= i < |listing| ==> '\n' !in listing[i]
    ensures Split(IndexText(listing), '\n') == Map(ExportLine, ModuleFiles(listing))
    ensures |Split(IndexText(listing), '\n')| == |ModuleFiles(listing)|
  {
    var kept := ModuleFiles(listing);
    var lines := Map(ExportLine, kept);
    forall i | 0 <= i < |lines| ensures '\n' !in lines[i] {
      assert kept[i] in listing;
      ExportLineOneLine(kept[i]);
    }
    SplitJoin(lines, '\n');
  }
}
