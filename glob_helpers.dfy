/** Glob-string normalisation: src/tools/helpers/glob-helpers.ts. */
module GlobHelpers {
  import opened Strings
  import opened Seqs
  import opened Host

  /** `correctPaths`: every backslash becomes a forward slash, every other character stays. */
  function CorrectPaths(inputPath: string): (r: string)
    ensures |r| == |inputPath|
    ensures forall i :: 0 <= i < |r| ==> r[i] == if inputPath[i] == '\\' then '/' else inputPath[i]
    ensures '\\' !in r
  {
    if inputPath == [] then []
    else [if inputPath[0] == '\\' then '/' else inputPath[0]] + CorrectPaths(inputPath[1..])
  }

  /** Normalising a normalised path changes nothing. */
  lemma CorrectPathsIdempotent(inputPath: string)
    ensures CorrectPaths(CorrectPaths(inputPath)) == CorrectPaths(inputPath)
  {
    CorrectPathsClean(CorrectPaths(inputPath));
  }

  /** A path without backslashes is already normal. */
  lemma CorrectPathsClean(inputPath: string)
    requires '\\' !in inputPath
    ensures CorrectPaths(inputPath) == inputPath
  {
    var r := CorrectPaths(inputPath);
    forall i | 0 <= i < |r| ensures r[i] == inputPath[i] {
      assert inputPath[i] in inputPath;
    }
  }

  /** What `singleGlobToList` makes of one comma-separated piece. */
  function GlobPiece(lib: PathLib, rootDirectory: string, piece: string): (r: string)
    ensures '\\' !in r
    ensures StartsWith(Trim(piece), "!") ==> StartsWith(r, "!")
  {
    var globPath := Trim(piece);
    assert StartsWith(globPath, "!") ==> ("!" + CorrectPaths(lib.resolve(rootDirectory, globPath[1..])))[..1] == "!";
    if StartsWith(globPath, "!") then "!" + CorrectPaths(lib.resolve(rootDirectory, globPath[1..]))
    else CorrectPaths(lib.resolve(rootDirectory, globPath))
  }

  /** `singleGlobToList`: one normalised, root-resolved pattern per comma-separated piece, in order. */
  function SingleGlobToList(lib: PathLib, rootDirectory: string, globPaths: string): (r: seq<string>)
    ensures |r| == |Split(globPaths, ',')|
    ensures forall i :: 0 <= i < |r| ==> r[i] == GlobPiece(lib, rootDirectory, Split(globPaths, ',')[i])
  {
    Map((piece: string) => GlobPiece(lib, rootDirectory, piece), Split(globPaths, ','))
  }

  /** Every listed pattern uses forward slashes only. */
  lemma SingleGlobToListClean(lib: PathLib, rootDirectory: string, globPaths: string)
    ensures forall i :: 0 <= i < |SingleGlobToList(lib, rootDirectory, globPaths)| ==>
              '\\' !in SingleGlobToList(lib, rootDirectory, globPaths)[i]
  {
    var r := SingleGlobToList(lib, rootDirectory, globPaths);
    forall i | 0 <= i < |r| ensures '\\' !in r[i] {
      var globPath := Trim(Split(globPaths, ',')[i]);
      if StartsWith(globPath, "!") {
        var tail := CorrectPaths(lib.resolve(rootDirectory, globPath[1..]));
        assert r[i] == "!" + tail;
        assert r[i] == ['!'] + tail;
      }
    }
  }

  /** A pattern is negated exactly when its trimmed piece is. */
  lemma GlobPieceNegation(lib: PathLib, rootDirectory: string, piece: string)
    requires ResolveNeverNegated(lib)
    ensures StartsWith(GlobPiece(lib, rootDirectory, piece), "!") <==> StartsWith(Trim(piece), "!")
  {
    var globPath := Trim(piece);
    if !StartsWith(globPath, "!") {
      var resolved := lib.resolve(rootDirectory, globPath);
      assert !StartsWith(resolved, "!");
      var r := CorrectPaths(resolved);
      assert resolved != [] ==> resolved[..1] == [resolved[0]] && resolved[0] != '!';
      assert r != [] ==> r[..1] == [r[0]] && r[0] != '!';
    }
  }

  /** Only the one leading `!` is taken off; the rest of the piece, further `!` included, is resolved against the root. */
  lemma GlobPieceStripsOneBang(lib: PathLib, rootDirectory: string, piece: string, rest: string)
    requires Trim(piece) == "!" + rest
    ensures GlobPiece(lib, rootDirectory, piece) == "!" + CorrectPaths(lib.resolve(rootDirectory, rest))
  {
    assert Trim(piece)[1..] == rest;
  }

  /** A piece without `!` is resolved against the root as it is, after trimming. */
  lemma GlobPiecePlain(lib: PathLib, rootDirectory: string, piece: string)
    requires !StartsWith(Trim(piece), "!")
    ensures GlobPiece(lib, rootDirectory, piece) == CorrectPaths(lib.resolve(rootDirectory, Trim(piece)))
  {
  }

  /** Whitespace around a piece does not change its pattern. */
  lemma GlobPiecePadding(lib: PathLib, rootDirectory: string, w1: string, piece: string, w2: string)
    requires AllWhitespace(w1) && AllWhitespace(w2)
    ensures GlobPiece(lib, rootDirectory, w1 + piece + w2) == GlobPiece(lib, rootDirectory, piece)
  {
    TrimPadded(w1, piece, w2);
  }

  /** Listing comma-joined pieces gives one pattern per piece, in order. */
  lemma {:induction false} SingleGlobToListJoin(lib: PathLib, rootDirectory: string, pieces: seq<string>)
    requires |pieces| > 0
    requires forall i :: 0 <= i < |pieces| ==> ',' !in pieces[i]
    ensures SingleGlobToList(lib, rootDirectory, Join(pieces, ',')) == Map((piece: string) => GlobPiece(lib, rootDirectory, piece), pieces)
  {
    SplitJoin(pieces, ',');
  }

  /** `filePathsFromGlob`: fast-glob's matches for the listed patterns, each resolved against the root. */
  function FilePathsFromGlob(lib: PathLib, fs: FileSystem, rootDirectory: string, globPaths: string): (r: seq<string>)
    ensures var matched := fs.glob(SingleGlobToList(lib, rootDirectory, globPaths));
      |r| == |matched| && forall i :: 0 <= i < |r| ==> r[i] == lib.resolve(rootDirectory, matched[i])
  {
    Map((file: string) => lib.resolve(rootDirectory, file), fs.glob(SingleGlobToList(lib, rootDirectory, globPaths)))
  }
}
