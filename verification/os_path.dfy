/** The posix flavour of Python's os.path functions the pipeline uses:
    `join`, `dirname`, `basename`, and the set of directories `makedirs`
    creates. Paths are plain strings; nothing is normalised. */
module OsPath {
  import opened Strings

  /** `os.path.join(a, b)`: an absolute `b` replaces `a`; otherwise one '/'
      is inserted unless `a` is empty or already ends with one. */
  function Join(a: string, b: string): (r: string)
    ensures |b| > 0 && b[0] == '/' ==> r == b
    ensures !(|b| > 0 && b[0] == '/') ==> EndsWith(r, b) && |a| <= |r| && r[..|a|] == a
  {
    if |b| > 0 && b[0] == '/' then b
    else if |a| == 0 || a[|a| - 1] == '/' then a + b
    else a + "/" + b
  }

  /** Index just past the last '/', where `split` cuts the path. */
  function CutPoint(p: string): (i: nat)
    ensures i <= |p|
    ensures i > 0 ==> p[i - 1] == '/'
    ensures forall j | i <= j < |p| :: p[j] != '/'
  {
    LastIndex(p, '/') + 1
  }

  /** `os.path.basename`: everything after the last '/'. */
  function BaseName(p: string): (r: string)
    ensures '/' !in r
    ensures EndsWith(p, r)
    ensures |r| < |p| ==> p[|p| - |r| - 1] == '/'
  {
    LastField(p, '/')
  }

  predicate AllSlashes(s: string) {
    forall i | 0 <= i < |s| :: s[i] == '/'
  }

  function StripTrailingSlashes(s: string): (r: string)
    ensures |r| <= |s| && r == s[..|r|]
    ensures |r| > 0 ==> r[|r| - 1] != '/'
    ensures forall j | |r| <= j < |s| :: s[j] == '/'
  {
    if |s| > 0 && s[|s| - 1] == '/' then StripTrailingSlashes(s[..|s| - 1]) else s
  }

  /** `os.path.dirname`: the head of `split`, with its trailing slashes
      removed unless it consists of slashes only. */
  function DirName(p: string): (r: string)
    ensures |r| <= |p| && r == p[..|r|]
  {
    var head := p[..CutPoint(p)];
    if |head| > 0 && !AllSlashes(head) then StripTrailingSlashes(head) else head
  }

  /** Every directory `makedirs(d)` ensures: `d` and each proper prefix of
      `d` that stops just before a '/'. */
  function Ancestors(d: string): (r: set<string>)
    ensures d in r
    ensures forall a | a in r :: |a| <= |d| && a == d[..|a|]
  {
    {d} + set i | 0 < i < |d| && d[i] == '/' :: d[..i]
  }

  /** Joining a relative, slash-free name: basename gives the name back. */
  lemma BaseNameOfJoin(a: string, b: string)
    requires '/' !in b
    ensures BaseName(Join(a, b)) == b
  {
    var p := Join(a, b);
    if |b| < |p| {
      assert p[|p| - |b| - 1] == '/' by {
        if |a| == 0 || a[|a| - 1] == '/' {
          assert p == a + b;
        } else {
          assert p == a + "/" + b;
        }
      }
      LastFieldOfSuffix(p, '/', b);
    } else {
      assert p == b;
      assert LastIndex(p, '/') == -1;
    }
  }

  /** ... and dirname gives the directory back, when it is a proper
      directory name (non-empty, no trailing '/'). */
  lemma DirNameOfJoin(a: string, b: string)
    requires '/' !in b
    requires |a| > 0 && a[|a| - 1] != '/'
    ensures DirName(Join(a, b)) == a
  {
    var p := Join(a, b);
    assert p == a + "/" + b;
    assert p[|a|] == '/';
    forall j | |a| < j < |p|
      ensures p[j] != '/'
    {
      assert p[j] == b[j - |a| - 1];
    }
    assert CutPoint(p) == |a| + 1;
    var head := p[..|a| + 1];
    assert head == a + "/";
    assert !AllSlashes(head) by {
      assert head[|a| - 1] == a[|a| - 1];
    }
    assert StripTrailingSlashes(head) == a by {
      assert head[..|head| - 1] == a;
    }
  }
}
