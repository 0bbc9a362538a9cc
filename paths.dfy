/**
 * `os.path.basename` with POSIX rules: the part of the path after the last
 * `/`, or the whole path when it has none.
 */
module Paths {

  const Separator: char := '/'

  /** The final component of `p`: the longest suffix without a separator.
      Its contract pins it down: a suffix of `p`, free of separators, and
      either all of `p` or preceded in `p` by a separator. */
  function Basename(p: string): (b: string)
    ensures |b| <= |p| && b == p[|p| - |b|..]
    ensures forall i :: 0 <= i < |b| ==> b[i] != Separator
    ensures |b| < |p| ==> p[|p| - |b| - 1] == Separator
  {
    if p == [] || p[|p| - 1] == Separator then []
    else
      var init := p[..|p| - 1];
      var b := Basename(init);
      assert init[|init| - |b|..] == p[|p| - 1 - |b|..|p| - 1];
      b + [p[|p| - 1]]
  }

  /** A path without separators is its own base name. */
  lemma BasenameOfPlainName(p: string)
    requires forall i :: 0 <= i < |p| ==> p[i] != Separator
    ensures Basename(p) == p
  {
  }

  /** The base name does not depend on the directories in front of it. */
  lemma {:induction false} BasenameIgnoresDirectory(dir: string, name: string)
    ensures Basename(dir + [Separator] + name) == Basename(name)
    decreases |name|
  {
    var p := dir + [Separator] + name;
    if name == [] {
      assert p[|p| - 1] == Separator;
    } else {
      assert p[..|p| - 1] == dir + [Separator] + name[..|name| - 1];
      assert p[|p| - 1] == name[|name| - 1];
      BasenameIgnoresDirectory(dir, name[..|name| - 1]);
    }
  }
}
