/**
 * The two POSIX path operations the extractor uses: `os.path.basename`,
 * which names each entity's source file, and `os.path.join`, which puts the
 * working directory in front of the file name given on the command line.
 */
module Paths {

  /** `os.path.basename`: everything after the last `/`. */
  function Basename(path: string): string {
    if path == [] || path[|path| - 1] == '/' then []
    else Basename(path[..|path| - 1]) + [path[|path| - 1]]
  }

  /** The base name is the longest suffix free of `/`: it ends the path,
      holds no `/`, and is either the whole path or preceded by a `/`. */
  lemma {:induction false} BasenameIsLastComponent(path: string)
    ensures |Basename(path)| <= |path| && Basename(path) == path[|path| - |Basename(path)|..]
    ensures '/' !in Basename(path)
    ensures |Basename(path)| < |path| ==> path[|path| - |Basename(path)| - 1] == '/'
  {
    if path != [] && path[|path| - 1] != '/' {
      var init := path[..|path| - 1];
      var c := path[|path| - 1];
      BasenameIsLastComponent(init);
      var b := Basename(init);
      var r := Basename(path);
      assert r == b + [c];
      assert path == init + [c];
      assert b == init[|init| - |b|..];
      assert path[|path| - |r|..] == init[|init| - |b|..] + [c];
      if |r| < |path| {
        assert path[|path| - |r| - 1] == init[|init| - |b| - 1];
      }
    }
  }

  /** `os.path.join(dir, name)` for two components: an absolute `name`
      replaces `dir`; otherwise a `/` is inserted unless `dir` is empty or
      already ends in one. */
  function PathJoin(dir: string, name: string): string {
    if |name| > 0 && name[0] == '/' then name
    else if dir == [] || dir[|dir| - 1] == '/' then dir + name
    else dir + "/" + name
  }

  /** Whatever comes before the last `/` does not affect the base name. */
  lemma {:induction false} BasenameAfterSlash(dir: string, name: string)
    ensures Basename(dir + "/" + name) == Basename(name)
    decreases |name|
  {
    var p := dir + "/" + name;
    if name == [] {
      assert p[|p| - 1] == '/';
    } else {
      var init := name[..|name| - 1];
      var c := name[|name| - 1];
      assert p[|p| - 1] == c;
      assert p[..|p| - 1] == dir + "/" + init;
      if c != '/' {
        BasenameAfterSlash(dir, init);
        assert Basename(p) == Basename(dir + "/" + init) + [c];
      }
    }
  }

  /** Joining a directory in front of a file name keeps its base name: the
      last component of `os.path.join(cwd, f)` is the last component of `f`. */
  lemma BasenameOfJoin(dir: string, name: string)
    ensures Basename(PathJoin(dir, name)) == Basename(name)
  {
    if |name| > 0 && name[0] == '/' {
    } else if dir == [] {
      assert dir + name == name;
    } else if dir[|dir| - 1] == '/' {
      assert dir + name == dir[..|dir| - 1] + "/" + name;
      BasenameAfterSlash(dir[..|dir| - 1], name);
    } else {
      BasenameAfterSlash(dir, name);
    }
  }
}
