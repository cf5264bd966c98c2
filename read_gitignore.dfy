/** Ignore-file parsing: src/tools/helpers/readGitIngore.ts. */
module GitIgnore {
  import opened Wrappers
  import opened Strings
  import opened Seqs
  import opened Host

  /** The filter of `readGitignore`: a non-empty line whose first character is not `#` (the test looks at the untrimmed line). */
  predicate KeepLine(line: string)
    ensures KeepLine(line) <==> |line| > 0 && line[0] != '#'
  {
    assert |line| > 0 ==> (StartsWith(line, "#") <==> line[0] == '#') by {
      if |line| > 0 { assert StartsWith(line, "#") ==> line[..1][0] == '#'; }
    }
    line != "" && !StartsWith(line, "#")
  }

  /** The map of `readGitignore`: a surviving line becomes a negated, trimmed pattern. */
  function Negated(line: string): (r: string)
    ensures StartsWith(r, "!") && |r| <= |line| + 1
    ensures r == "!" <==> AllWhitespace(line)
  {
    assert ("!" + Trim(line))[..1] == "!";
    "!" + Trim(line)
  }

  /** The patterns of the ignore file's text: its kept lines, split at newlines, each negated. */
  function IgnorePatterns(text: string): (r: seq<string>)
    ensures forall i :: 0 <= i < |r| ==> StartsWith(r[i], "!")
    ensures |r| <= |Split(text, '\n')|
  {
    Map(Negated, Filter(KeepLine, Split(text, '\n')))
  }

  /**
   * `readGitignore(gitignorePath)`: no patterns when `fsp.access` fails, a
   * rejection (None) when the path exists but `readFile` fails, and the
   * patterns of the text otherwise.
   */
  function ReadGitignore(fs: FileSystem, gitignorePath: string): (r: Option<seq<string>>)
    ensures !fs.access(gitignorePath) ==> r == Some([])
    ensures fs.access(gitignorePath) ==> (r.None? <==> fs.read(gitignorePath).None?)
    ensures fs.access(gitignorePath) && fs.read(gitignorePath).Some? ==> r == Some(IgnorePatterns(fs.read(gitignorePath).value))
    ensures r.Some? ==> forall i :: 0 <= i < |r.value| ==> StartsWith(r.value[i], "!")
  {
    if !fs.access(gitignorePath) then Some([])
    else
      match fs.read(gitignorePath)
      case None => None
      case Some(text) => Some(IgnorePatterns(text))
  }

  /** The text is read line by line: the patterns of two blocks of lines are those of each, in order. */
  lemma ReadGitignoreLines(first: string, second: string)
    ensures IgnorePatterns(first + "\n" + second) == IgnorePatterns(first) + IgnorePatterns(second)
  {
    SplitAtSeparator(first, second, '\n');
    FilterAppend(KeepLine, Split(first, '\n'), Split(second, '\n'));
    MapAppend(Negated, Filter(KeepLine, Split(first, '\n')), Filter(KeepLine, Split(second, '\n')));
  }

  /** One line gives the pattern `"!" + trim(line)` when it survives the filter, and nothing otherwise. */
  lemma ReadGitignoreLine(line: string)
    requires '\n' !in line
    ensures IgnorePatterns(line) == if KeepLine(line) then [Negated(line)] else []
  {
    SplitNoSeparator(line, '\n');
    assert Filter(KeepLine, [line]) == if KeepLine(line) then [line] else [];
  }

  /** Empty lines and comment lines give no pattern. */
  lemma ReadGitignoreSkips(line: string)
    requires '\n' !in line
    requires line == "" || StartsWith(line, "#")
    ensures IgnorePatterns(line) == []
  {
    ReadGitignoreLine(line);
  }

  /** The comment test looks at the untrimmed line, so an indented comment survives as a negated pattern. */
  lemma IndentedCommentSurvives(indent: string, comment: string)
    requires indent != [] && AllWhitespace(indent)
    requires '\n' !in indent + "#" + comment
    ensures IgnorePatterns(indent + "#" + comment) == ["!" + Trim("#" + comment)]
  {
    var line := indent + "#" + comment;
    assert line[0] == indent[0];
    assert KeepLine(line) by {
      assert line[..1] == [indent[0]];
    }
    assert Trim(line) == Trim("#" + comment) by {
      assert line == indent + ("#" + comment) + "";
      TrimPadded(indent, "#" + comment, "");
    }
    ReadGitignoreLine(line);
  }

  /** A line of blanks is not empty, so it survives as the bare pattern `!`. */
  lemma BlankLineSurvives(blanks: string)
    requires blanks != [] && AllWhitespace(blanks) && '\n' !in blanks
    ensures IgnorePatterns(blanks) == ["!"]
  {
    assert KeepLine(blanks) by {
      assert blanks[..1] == [blanks[0]];
    }
    assert Trim(blanks) == [];
    assert Negated(blanks) == "!";
    ReadGitignoreLine(blanks);
  }
}
