/**
 * The part of `std::path::Path` the core uses, as the Windows build of the
 * backend reads paths: `/` and `\` both separate components and a leading
 * drive letter (`C:`) is a prefix, not a name. Splitting into components,
 * `file_name`, `file_stem` and `extension`.
 */
module Paths {
  import opened Wrappers
  import Strings

  const Separator: char := '/'

  /** The pieces of `s` between occurrences of `sep` (empty pieces included). */
  function Split(s: string, sep: char): (parts: seq<string>)
    ensures |parts| >= 1
  {
    if s == [] then [[]] else ConsPiece(s[0], sep, Split(s[1..], sep))
  }

  /** The pieces of `[c] + t` from those of `t`: a separator starts a new piece, anything else joins the first. */
  function ConsPiece(c: char, sep: char, parts: seq<string>): (r: seq<string>)
    requires |parts| >= 1
    ensures |r| >= 1
  {
    if c == sep then [[]] + parts else [[c] + parts[0]] + parts[1..]
  }

  /** The pieces glued back together with `sep` between them. */
  function Join(parts: seq<string>, sep: char): string
    requires |parts| >= 1
  {
    if |parts| == 1 then parts[0] else parts[0] + [sep] + Join(parts[1..], sep)
  }

  /** Joining after adding a character adds the character in front. */
  lemma JoinConsPiece(c: char, sep: char, parts: seq<string>)
    requires |parts| >= 1
    ensures Join(ConsPiece(c, sep, parts), sep) == [c] + Join(parts, sep)
  {
    var r := ConsPiece(c, sep, parts);
    if c != sep && |parts| > 1 {
      assert r[1..] == parts[1..];
    }
  }

  /** Splitting loses nothing: joining the pieces gives the text back. */
  lemma {:induction false} JoinSplit(s: string, sep: char)
    ensures Join(Split(s, sep), sep) == s
  {
    if s != [] {
      JoinSplit(s[1..], sep);
      JoinConsPiece(s[0], sep, Split(s[1..], sep));
      assert s == [s[0]] + s[1..];
    }
  }

  /** Adding a character commutes with appending more pieces. */
  lemma ConsPieceAppend(c: char, sep: char, left: seq<string>, right: seq<string>)
    requires |left| >= 1
    ensures ConsPiece(c, sep, left + right) == ConsPiece(c, sep, left) + right
  {
    if c != sep {
      assert (left + right)[0] == left[0];
      assert (left + right)[1..] == left[1..] + right;
    }
  }

  /** Splitting at a separator splits the two sides independently. */
  lemma {:induction false} SplitAppend(a: string, b: string, sep: char)
    ensures Split(a + [sep] + b, sep) == Split(a, sep) + Split(b, sep)
  {
    var s := a + [sep] + b;
    if a == [] {
      assert s[0] == sep && s[1..] == b;
    } else {
      assert s[0] == a[0] && s[1..] == a[1..] + [sep] + b;
      SplitAppend(a[1..], b, sep);
      ConsPieceAppend(a[0], sep, Split(a[1..], sep), Split(b, sep));
    }
  }

  /** A text without the separator is a single piece. */
  lemma {:induction false} SplitSingle(s: string, sep: char)
    requires sep !in s
    ensures Split(s, sep) == [s]
  {
    if s != [] {
      assert sep !in s[1..] by {
        forall j | 0 <= j < |s| - 1 ensures s[1..][j] != sep {
          assert s[1..][j] == s[j + 1];
        }
      }
      SplitSingle(s[1..], sep);
      assert [s[0]] + s[1..] == s;
    }
  }

  /** No piece holds the separator. */
  lemma {:induction false} SplitPieces(s: string, sep: char)
    ensures forall i :: 0 <= i < |Split(s, sep)| ==> sep !in Split(s, sep)[i]
  {
    if s != [] {
      SplitPieces(s[1..], sep);
    }
  }

  /** A piece of `s` holds only characters of `s`. */
  lemma {:induction false} SplitOmits(s: string, sep: char, c: char)
    requires c !in s
    ensures forall i :: 0 <= i < |Split(s, sep)| ==> c !in Split(s, sep)[i]
  {
    if s != [] {
      assert c !in s[1..] by {
        forall j | 0 <= j < |s| - 1 ensures s[1..][j] != c {
          assert s[1..][j] == s[j + 1];
        }
      }
      SplitOmits(s[1..], sep, c);
    }
  }

  /** Either separator of a Windows path. */
  predicate IsSeparator(c: char)
  {
    c == '/' || c == '\\'
  }

  /** The path starts with a drive prefix such as `C:`. */
  predicate HasDrive(path: string)
  {
    |path| >= 2 && path[1] == ':' && ('a' <= path[0] <= 'z' || 'A' <= path[0] <= 'Z')
  }

  /** The text with every `\` read as `/`. */
  function Slashes(s: string): (r: string)
    ensures |r| == |s| && '\\' !in r
  {
    if s == [] then [] else [if s[0] == '\\' then Separator else s[0]] + Slashes(s[1..])
  }

  /** Reading separators commutes with concatenation. */
  lemma {:induction false} SlashesAppend(a: string, b: string)
    ensures Slashes(a + b) == Slashes(a) + Slashes(b)
  {
    if a != [] {
      assert (a + b)[0] == a[0];
      assert (a + b)[1..] == a[1..] + b;
      SlashesAppend(a[1..], b);
    } else {
      assert a + b == b;
    }
  }

  /** A text without `\` reads the same. */
  lemma {:induction false} SlashesKeep(s: string)
    requires '\\' !in s
    ensures Slashes(s) == s
  {
    if s != [] {
      assert '\\' !in s[1..] by {
        forall j | 0 <= j < |s| - 1 ensures s[1..][j] != '\\' {
          assert s[1..][j] == s[j + 1];
        }
      }
      SlashesKeep(s[1..]);
      assert [s[0]] + s[1..] == s;
    }
  }

  /** The pieces between separators after the drive prefix, empty pieces included. */
  function Components(path: string): (parts: seq<string>)
    ensures |parts| >= 1
    ensures forall i :: 0 <= i < |parts| ==> Separator !in parts[i] && '\\' !in parts[i]
  {
    var s := Slashes(if HasDrive(path) then path[2..] else path);
    SplitPieces(s, Separator);
    SplitOmits(s, Separator, '\\');
    Split(s, Separator)
  }

  /** A path joined at either separator has the components of its halves, when the right half has no drive prefix. */
  lemma ComponentsOfJoin(a: string, sep: char, b: string)
    requires IsSeparator(sep) && !HasDrive(b)
    ensures Components(a + [sep] + b) == Components(a) + Components(b)
  {
    var s := a + [sep] + b;
    var left := if HasDrive(a) then a[2..] else a;
    assert HasDrive(s) == HasDrive(a);
    assert (if HasDrive(s) then s[2..] else s) == left + [sep] + b;
    SlashesAppend(left + [sep], b);
    SlashesAppend(left, [sep]);
    assert Slashes([sep]) == [Separator];
    SplitAppend(Slashes(left), Slashes(b), Separator);
  }

  /** A text with no separator and no drive prefix is a single component. */
  lemma SingleName(name: string)
    requires Separator !in name && '\\' !in name && !HasDrive(name)
    ensures Components(name) == [name]
  {
    SlashesKeep(name);
    SplitSingle(name, Separator);
  }

  /** The pieces `Path::components` reports as names: neither empty nor `.`. */
  function Names(parts: seq<string>): (names: seq<string>)
    ensures forall i :: 0 <= i < |names| ==> names[i] != [] && names[i] != "." && names[i] in parts
  {
    if parts == [] then []
    else if parts[0] == [] || parts[0] == "." then Names(parts[1..])
    else [parts[0]] + Names(parts[1..])
  }

  /** `Path::file_name`: the last component, unless there is none or it is `..`. */
  function FileName(path: string): (r: Option<string>)
    ensures r.Some? ==> r.value != [] && r.value != "." && r.value != ".." && Separator !in r.value && '\\' !in r.value
  {
    var names := Names(Components(path));
    if names == [] || names[|names| - 1] == ".." then None else Some(names[|names| - 1])
  }

  /** `path.file_name().unwrap_or(default)` */
  function FileNameOr(path: string, default: string): (r: string)
    ensures FileName(path).None? ==> r == default
    ensures FileName(path).Some? ==> r == FileName(path).value && Separator !in r && '\\' !in r && r != ".."
  {
    match FileName(path)
    case Some(name) => name
    case None => default
  }

  /** A name after the last piece keeps its place at the end of the names. */
  lemma {:induction false} NamesSnoc(parts: seq<string>, name: string)
    requires name != [] && name != "."
    ensures Names(parts + [name]) == Names(parts) + [name]
  {
    if parts != [] {
      assert (parts + [name])[1..] == parts[1..] + [name];
      NamesSnoc(parts[1..], name);
    }
  }

  /**
   * The file name of a path is the name after its last separator, `/` or
   * `\`, whatever comes before it (a drive, a directory or nothing).
   */
  lemma LastName(dir: string, sep: char, name: string)
    requires IsSeparator(sep) && Separator !in name && '\\' !in name && !HasDrive(name)
    requires name != [] && name != "." && name != ".."
    ensures FileName(dir + [sep] + name) == Some(name)
  {
    ComponentsOfJoin(dir, sep, name);
    SingleName(name);
    NamesSnoc(Components(dir), name);
  }

  /** A bare drive such as `C:` has no file name. */
  lemma BareDrive(path: string)
    requires HasDrive(path) && |path| == 2
    ensures FileName(path) == None
  {
    assert Components(path) == [[]];
  }

  /**
   * How `file_stem` and `extension` cut a file name: at its last `.`, unless
   * there is none or the only one leads the name (`.bashrc`).
   */
  function StemAndExtension(name: string): (r: (string, Option<string>))
    ensures r.1.None? ==> r.0 == name
    ensures r.1.Some? ==> r.0 != [] && r.0 + "." + r.1.value == name && '.' !in r.1.value
  {
    var k := Strings.LastIndexOf(name, '.');
    if k <= 0 then (name, None)
    else
      var stem, ext := name[..k], name[k + 1..];
      assert name == stem + "." + ext;
      assert forall j :: 0 <= j < |ext| ==> ext[j] == name[k + 1 + j];
      (stem, Some(ext))
  }

  /** `Path::file_stem` */
  function FileStem(path: string): (r: Option<string>)
    ensures r.Some? <==> FileName(path).Some?
  {
    match FileName(path)
    case None => None
    case Some(name) => Some(StemAndExtension(name).0)
  }

  /** `Path::extension` */
  function Extension(path: string): (r: Option<string>)
    ensures r.Some? ==> FileName(path).Some?
  {
    match FileName(path)
    case None => None
    case Some(name) => StemAndExtension(name).1
  }
}
