/** The `os.path` functions the core uses, on POSIX paths ('/' separates
    components). */
module Paths {
  import opened Text

  /** Index of the last occurrence of `c` in `s`, or -1. */
  function LastIndex(s: string, c: char): (r: int)
    ensures -1 <= r < |s|
    ensures r >= 0 ==> s[r] == c
    ensures forall i :: r < i < |s| ==> s[i] != c
  {
    if s == [] then -1
    else if s[|s| - 1] == c then |s| - 1
    else LastIndex(s[..|s| - 1], c)
  }

  /** `os.path.join(root, name)`: an absolute `name` replaces `root`;
      otherwise a separator is put between them unless `root` is empty or
      already ends in one. */
  function Join(root: string, name: string): string
  {
    if name != [] && name[0] == '/' then name
    else if root == [] || root[|root| - 1] == '/' then root + name
    else root + "/" + name
  }

  /** `os.path.basename(p)`: what follows the last separator. */
  function Basename(p: string): (r: string)
    ensures '/' !in r
    ensures EndsWith(p, r)
    ensures r == p || p[|p| - |r| - 1] == '/'
  {
    var sep := LastIndex(p, '/');
    var r := p[sep + 1..];
    assert '/' !in r by {
      forall i | 0 <= i < |r| ensures r[i] != '/' {
        assert r[i] == p[sep + 1 + i];
      }
    }
    assert |p| - |r| == sep + 1;
    assert EndsWith(p, r);
    assert sep == -1 ==> r == p;
    r
  }

  /** `os.path.splitext(p)[0]`: `p` without its extension. The extension
      starts at the last '.' of the last component, and only if some
      character other than '.' precedes that dot in the component (so
      ".mac" and "..mac" have no extension). */
  function StripExt(p: string): (r: string)
    ensures r <= p
  {
    var sep := LastIndex(p, '/');
    var dot := LastIndex(p, '.');
    if dot > sep && exists i :: sep + 1 <= i < dot && p[i] != '.' then p[..dot] else p
  }

  /** Whether directory `root` is `dir` itself or lies below it: the
      directories `os.walk(dir)` visits. */
  predicate Under(root: string, dir: string)
  {
    root == dir || StartsWith(root, dir + "/")
  }

  /** A file name ending in ".mac" loses exactly that suffix, provided
      what precedes it is a plain name that is not made of dots only. */
  lemma StripMacSuffix(stem: string)
    requires '/' !in stem
    requires exists i :: 0 <= i < |stem| && stem[i] != '.'
    ensures StripExt(stem + ".mac") == stem
  {
    var p := stem + ".mac";
    var sep := LastIndex(p, '/');
    var dot := LastIndex(p, '.');
    assert p[|stem|] == '.';
    assert dot == |stem|;
    assert forall j :: 0 <= j < |stem| ==> p[j] == stem[j];
    assert sep == -1;
    var i :| 0 <= i < |stem| && stem[i] != '.';
    assert p[i] == stem[i];
    assert p[..dot] == stem;
  }

  /** A file named exactly ".mac" keeps its whole name. */
  lemma DotMacHasNoExtension()
    ensures StripExt(".mac") == ".mac"
  {
    var p := ".mac";
    assert LastIndex(p, '.') == 0 by {
      assert p[3] != '.' && p[2] != '.' && p[1] != '.' && p[0] == '.';
    }
  }

  /** The base name of a joined path is the joined name, when that name is
      a plain file name. */
  lemma BasenameOfJoin(root: string, name: string)
    requires name != [] && '/' !in name
    ensures Basename(Join(root, name)) == name
  {
    var p := Join(root, name);
    var k := |p| - |name|;
    assert p[k..] == name;
    assert k >= 1 ==> p[k - 1] == '/' by {
      if root != [] && root[|root| - 1] != '/' {
        assert p == (root + "/") + name;
      }
    }
    var sep := LastIndex(p, '/');
    assert forall i :: k <= i < |p| ==> p[i] != '/' by {
      forall i | k <= i < |p| ensures p[i] != '/' {
        assert p[i] == name[i - k];
      }
    }
    assert sep == k - 1;
  }
}
