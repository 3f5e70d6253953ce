/** POSIX file-name extraction (`extract_filename`, which defers to
    `os.path.basename`). Only `/` is a separator. */
module Paths {

  const Separator: char := '/'

  /** `s` is a trailing part of `whole`. */
  predicate IsSuffix(s: string, whole: string)
  {
    |s| <= |whole| && s == whole[|whole| - |s|..]
  }

  /** `name` is the last path component of `path`: a trailing part without a
      separator that is either all of `path` or starts right after one. */
  predicate IsLastComponent(name: string, path: string)
  {
    && IsSuffix(name, path)
    && Separator !in name
    && (|name| < |path| ==> path[|path| - |name| - 1] == Separator)
  }

  /** Everything after the last `/` of `path`; all of `path` when it has none. */
  function ExtractFilename(path: string): (name: string)
    ensures IsLastComponent(name, path)
    ensures Separator !in path ==> name == path
    ensures |path| > 0 && path[|path| - 1] == Separator ==> name == ""
    decreases |path|
  {
    if |path| == 0 || path[|path| - 1] == Separator then ""
    else ExtractFilename(path[..|path| - 1]) + [path[|path| - 1]]
  }

  /** The last component is unique: any candidate satisfying the
      characterisation is what `ExtractFilename` returns. */
  lemma LastComponentUnique(name: string, path: string)
    requires IsLastComponent(name, path)
    ensures name == ExtractFilename(path)
  {
  }

  /** Joining a directory and a separator-free name with `/` and extracting
      the file name gives the name back. */
  lemma JoinThenExtract(dir: string, name: string)
    requires Separator !in name
    ensures ExtractFilename(dir + [Separator] + name) == name
  {
    var path := dir + [Separator] + name;
    assert path[|path| - |name|..] == name;
    assert path[|path| - |name| - 1] == Separator;
    LastComponentUnique(name, path);
  }

  /** Extraction is idempotent: a file name is its own file name. */
  lemma ExtractFilenameIdempotent(path: string)
    ensures ExtractFilename(ExtractFilename(path)) == ExtractFilename(path)
  {
  }
}
