/** The path-traversal guard in front of path canonicalisation. */
module Utils {
  import opened Wrappers
  import opened Errors
  import Paths

  /** The path has a component that is exactly `..` (`Component::ParentDir`). */
  predicate HasParentDir(path: string)
  {
    ".." in Paths.Components(path)
  }

  /**
   * `validate_path`: a path with a `..` component is refused before
   * `canonicalize` is consulted; otherwise the canonical path, or its failure
   * reported as an invalid path.
   */
  function ValidatePath(path: string, canonicalize: string -> Result<string, string>): (r: Result<string, Circle9Error>)
    ensures r.Ok? <==> !HasParentDir(path) && canonicalize(path).Ok?
    ensures r.Ok? ==> r.value == canonicalize(path).value
    ensures HasParentDir(path) ==> r == Err(InvalidPath("Path traversal detected"))
    ensures r.Err? && !HasParentDir(path) ==> r.error == InvalidPath("Invalid path: " + canonicalize(path).error)
  {
    if HasParentDir(path) then Err(InvalidPath("Path traversal detected"))
    else
      match canonicalize(path)
      case Ok(canonical) => Ok(canonical)
      case Err(e) => Err(InvalidPath("Invalid path: " + e))
  }

  /** A refused path never reaches the filesystem: the outcome is the same whatever `canonicalize` would do. */
  lemma RefusalIgnoresFilesystem(path: string, f: string -> Result<string, string>, g: string -> Result<string, string>)
    requires HasParentDir(path)
    ensures ValidatePath(path, f) == ValidatePath(path, g)
    ensures Message(ValidatePath(path, f).error) == "Invalid path: Path traversal detected"
  {
    assert ValidatePath(path, f) == ValidatePath(path, g) == Err(InvalidPath("Path traversal detected"));
    assert "Invalid path: " + "Path traversal detected" == "Invalid path: Path traversal detected";
  }

  /**
   * A path joined at either separator has a `..` component iff one of its
   * halves has (the right half without a drive prefix of its own).
   */
  lemma ParentDirOfJoin(a: string, sep: char, b: string)
    requires Paths.IsSeparator(sep) && !Paths.HasDrive(b)
    ensures HasParentDir(a + [sep] + b) <==> HasParentDir(a) || HasParentDir(b)
  {
    Paths.ComponentsOfJoin(a, sep, b);
  }

  /** A single component is a parent-directory reference only when it is exactly `..`. */
  lemma SingleComponent(name: string)
    requires Paths.Separator !in name && '\\' !in name && !Paths.HasDrive(name)
    ensures HasParentDir(name) <==> name == ".."
  {
    Paths.SingleName(name);
  }

  /** `.`, `...` and `a..b` name no parent directory, so they pass the check. */
  lemma DotNamesPass()
    ensures !HasParentDir(".") && !HasParentDir("...") && !HasParentDir("a..b")
  {
    SingleComponent(".");
    SingleComponent("...");
    SingleComponent("a..b");
  }

  /** A path that starts by climbing, `../b` or `..\b`, is refused. */
  lemma ClimbFirst(sep: char, b: string)
    requires Paths.IsSeparator(sep) && !Paths.HasDrive(b)
    ensures HasParentDir(".." + [sep] + b)
  {
    SingleComponent("..");
    ParentDirOfJoin("..", sep, b);
  }

  /** A path that ends by climbing, `a/..`, `a\..` or `C:\..`, is refused. */
  lemma ClimbLast(a: string, sep: char)
    requires Paths.IsSeparator(sep)
    ensures HasParentDir(a + [sep] + "..")
  {
    SingleComponent("..");
    ParentDirOfJoin(a, sep, "..");
  }

  /** A path that climbs in the middle, `a/../b` or `a\..\b`, is refused. */
  lemma ClimbBetween(a: string, sep: char, b: string)
    requires Paths.IsSeparator(sep) && !Paths.HasDrive(b)
    ensures HasParentDir(a + [sep] + ".." + [sep] + b)
  {
    var up := ".." + [sep] + b;
    ClimbFirst(sep, b);
    assert !Paths.HasDrive(up) by {
      assert up[1] == '.';
    }
    ParentDirOfJoin(a, sep, up);
    assert a + [sep] + ".." + [sep] + b == a + [sep] + up;
  }
}
