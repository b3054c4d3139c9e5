/** `os.path.join` and `os.path.basename` on POSIX paths. */
module Paths {

  predicate NoSlash(s: string) { forall i :: 0 <= i < |s| ==> s[i] != '/' }

  /** `os.path.join(dir, name)`: an absolute `name` replaces `dir`; a
      separator is inserted unless `dir` is empty or already ends in one. */
  function Join(dir: string, name: string): (p: string)
    ensures |name| <= |p| && p[|p| - |name|..] == name
  {
    if |name| > 0 && name[0] == '/' then name
    else if dir == [] || dir[|dir| - 1] == '/' then dir + name
    else dir + "/" + name
  }

  /** A name that does not start at the root. */
  predicate Relative(name: string) { name == [] || name[0] != '/' }

  /** Under one directory, distinct relative names give distinct paths. */
  lemma JoinInjective(dir: string, x: string, y: string)
    requires Relative(x) && Relative(y) && Join(dir, x) == Join(dir, y)
    ensures x == y
  {
    var pre := if dir == [] || dir[|dir| - 1] == '/' then dir else dir + "/";
    assert Join(dir, x) == pre + x && Join(dir, y) == pre + y;
    assert x == (pre + x)[|pre|..] && y == (pre + y)[|pre|..];
  }

  /** The position of the last `/`, or -1. */
  function LastSlash(p: string): (r: int)
    ensures -1 <= r < |p|
    ensures r >= 0 ==> p[r] == '/'
    ensures forall i :: r < i < |p| ==> p[i] != '/'
  {
    if p == [] then -1
    else if p[|p| - 1] == '/' then |p| - 1
    else LastSlash(p[..|p| - 1])
  }

  /** `os.path.basename(p)`: what follows the last `/`. */
  function Basename(p: string): (b: string)
    ensures NoSlash(b)
  {
    p[LastSlash(p) + 1..]
  }

  /** After a prefix that is empty or ends in `/`, a name without
      separators leaves the last `/` where the prefix put it. */
  lemma {:induction false} LastSlashAfter(q: string, name: string)
    requires q == [] || q[|q| - 1] == '/'
    requires NoSlash(name)
    ensures LastSlash(q + name) == |q| - 1
  {
    if name == [] {
      assert q + name == q;
    } else {
      var s := q + name;
      assert s[..|s| - 1] == q + name[..|name| - 1];
      LastSlashAfter(q, name[..|name| - 1]);
    }
  }

  /** A name without separators is the base name of any path joined from it. */
  lemma BasenameJoin(dir: string, name: string)
    requires NoSlash(name)
    ensures Basename(Join(dir, name)) == name
  {
    if dir == [] || dir[|dir| - 1] == '/' {
      LastSlashAfter(dir, name);
      assert (dir + name)[|dir|..] == name;
    } else {
      LastSlashAfter(dir + "/", name);
      assert dir + "/" + name == (dir + "/") + name;
      assert (dir + "/" + name)[|dir| + 1..] == name;
    }
  }
}
