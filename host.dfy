/**
 * What the modelled code calls but does not define: Node's `path` module,
 * fast-glob and the filesystem. Each is a parameter of the operations that use
 * it, so the model makes no promise about them beyond what a lemma requires.
 */
module Host {
  import opened Wrappers
  import opened Strings

  /** Node's `path` functions, with their arguments in Node's order. */
  datatype PathLib = PathLib(
    resolve: (string, string) -> string,  // path.resolve(from, to)
    join: (string, string) -> string,     // path.join(first, second)
    relative: (string, string) -> string) // path.relative(from, to)

  /** The filesystem, as the modelled code sees it at one moment. */
  datatype FileSystem = FileSystem(
    glob: seq<string> -> seq<string>,  // fast-glob's `fg.sync(patterns, { dot: true })`
    access: string -> bool,            // `fsp.access(path)` succeeds: something exists at the path
    read: string -> Option<string>)    // `readFile(path)`: the text, or None when it rejects (missing, a directory, no permission)

  /**
   * A relative path in the normal form `path.relative` produces for a file
   * inside a directory: non-empty, not absolute, no trailing `/`, and no
   * empty, `.` or `..` segment.
   */
  predicate NormalRelative(rel: string) {
    forall segment :: segment in Split(rel, '/') ==> segment != "" && segment != "." && segment != ".."
  }

  /**
   * POSIX `path.relative(dir, path.join(dir, rel))` gives `rel` back when `rel`
   * is already normal. `path.join` normalises its result, so for other
   * relative paths (`./b`, `b/`, `../x`) the round trip changes the text.
   */
  ghost predicate RelativeUndoesJoin(lib: PathLib) {
    forall dir, rel :: NormalRelative(rel) ==> lib.relative(dir, lib.join(dir, rel)) == rel
  }

  /** `./b` is not normal, so `RelativeUndoesJoin` asks nothing of it. */
  lemma DotSegmentNotNormal()
    ensures !NormalRelative("./b")
  {
    assert "./b"[1..] == "/b" && "/b"[1..] == "b" && "b"[1..] == "";
    assert Split("", '/') == [""];
    assert ['b'] + "" == "b" && ['.'] + "" == ".";
    assert Split("b", '/') == ["b"];
    assert Split("/b", '/') == ["", "b"];
    assert Split("./b", '/') == [".", "b"];
    assert "." in Split("./b", '/');
  }

  /** `path.resolve` returns an absolute path, which never begins with the negation mark `!`. */
  ghost predicate ResolveNeverNegated(lib: PathLib) {
    forall from, to :: !StartsWith(lib.resolve(from, to), "!")
  }
}
