/** The two `os.path` operations the batch runner uses, for POSIX paths. */
module Paths {
  import opened Strings

  /** `os.path.join(a, b)`: an absolute `b` replaces `a`; otherwise one `/` separates them. */
  function JoinPath(a: string, b: string): (p: string)
    ensures StartsWith(b, "/") ==> p == b
    ensures !StartsWith(b, "/") ==> |p| >= |a| + |b| && StartsWith(p, a) && p[|p| - |b|..] == b
    ensures !StartsWith(b, "/") ==> p[|a|..|p| - |b|] == if a == "" || a[|a| - 1] == '/' then "" else "/"
  {
    if StartsWith(b, "/") then b
    else if a == "" || a[|a| - 1] == '/' then a + b
    else a + "/" + b
  }

  /** `os.path.basename(p)`: the text after the last `/`. */
  function BaseName(p: string): (r: string)
    ensures '/' !in r
    ensures |r| <= |p| && r == p[|p| - |r|..]
    ensures |r| < |p| ==> p[|p| - |r| - 1] == '/'
  {
    if p == [] || p[|p| - 1] == '/' then []
    else BaseName(p[..|p| - 1]) + [p[|p| - 1]]
  }

  /** The basename is the whole text after a final separator. */
  lemma {:induction false} BaseNameAfterSlash(a: string, b: string)
    requires '/' !in b
    ensures BaseName(a + "/" + b) == b
    decreases |b|
  {
    var p := a + "/" + b;
    if b != [] {
      assert p[..|p| - 1] == a + "/" + b[..|b| - 1];
      BaseNameAfterSlash(a, b[..|b| - 1]);
      assert b == b[..|b| - 1] + [b[|b| - 1]];
    }
  }

  /** A name without separators is its own basename. */
  lemma {:induction false} BaseNameOfName(name: string)
    requires '/' !in name
    ensures BaseName(name) == name
    decreases |name|
  {
    if name != [] {
      BaseNameOfName(name[..|name| - 1]);
      assert name == name[..|name| - 1] + [name[|name| - 1]];
    }
  }

  /** Joining a directory with a plain name and taking the basename gives the name back. */
  lemma {:induction false} BaseNameOfJoin(dir: string, name: string)
    requires '/' !in name
    ensures BaseName(JoinPath(dir, name)) == name
  {
    if name != [] {
      assert name[0] != '/';
    }
    if dir == "" {
      BaseNameOfName(name);
    } else if dir[|dir| - 1] == '/' {
      assert dir + name == dir[..|dir| - 1] + "/" + name;
      BaseNameAfterSlash(dir[..|dir| - 1], name);
    } else {
      BaseNameAfterSlash(dir, name);
    }
  }
}
