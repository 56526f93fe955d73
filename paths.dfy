/** The POSIX behaviour of Python's `os.path.basename`, `os.path.dirname` and
    `os.path.join`, on which every artifact and ledger name is built. */
module Paths {
  import opened Text

  /** `p.rfind(c)`: the index of the last c in p, or -1. */
  function RFind(p: string, c: char): (i: int)
    ensures -1 <= i < |p|
    ensures 0 <= i ==> p[i] == c
    ensures forall k :: i < k < |p| ==> p[k] != c
  {
    if p == [] then -1
    else if p[|p| - 1] == c then |p| - 1
    else RFind(p[..|p| - 1], c)
  }

  /** `os.path.basename(p)`: the longest suffix of p without a slash. */
  function Basename(p: string): (name: string)
    ensures NoChar(name, '/')
    ensures EndsWith(p, name)
    ensures |name| < |p| ==> p[|p| - |name| - 1] == '/'
  {
    p[RFind(p, '/') + 1..]
  }

  predicate AllSlashes(s: string) {
    forall k :: 0 <= k < |s| ==> s[k] == '/'
  }

  /** `s.rstrip('/')` */
  function RStripSlashes(s: string): (r: string)
    ensures r == [] || r[|r| - 1] != '/'
    ensures r <= s
    ensures forall k :: |r| <= k < |s| ==> s[k] == '/'
  {
    if s != [] && s[|s| - 1] == '/' then RStripSlashes(s[..|s| - 1]) else s
  }

  /** `os.path.dirname(p)`: everything up to the last slash, with trailing
      slashes removed unless the head is made of slashes only. */
  function Dirname(p: string): string {
    var head := p[..RFind(p, '/') + 1];
    if head != [] && !AllSlashes(head) then RStripSlashes(head) else head
  }

  /** `os.path.join(a, b)`: an absolute b replaces a; otherwise a slash is
      inserted unless a is empty or already ends with one. */
  function Join(a: string, b: string): (r: string)
    ensures EndsWith(r, b)
  {
    if |b| > 0 && b[0] == '/' then b
    else if a == [] || a[|a| - 1] == '/' then a + b
    else a + "/" + b
  }

  /** A slash-free name joined onto any directory is that path's basename. */
  lemma BasenameOfJoin(dir: string, leaf: string)
    requires NoChar(leaf, '/')
    ensures Basename(Join(dir, leaf)) == leaf
  {
    var p := Join(dir, leaf);
    var i := RFind(p, '/');
    assert p == dir + leaf || p == dir + "/" + leaf;
    if |p| > |leaf| {
      assert p[|p| - |leaf| - 1] == '/';
      assert i == |p| - |leaf| - 1;
    } else {
      assert i == -1;
    }
  }

  /** Joining a slash-free name onto a directory that does not end in a slash
      and going back up with dirname returns that directory. */
  lemma DirnameOfJoin(dir: string, leaf: string)
    requires dir != [] && dir[|dir| - 1] != '/'
    requires NoChar(leaf, '/')
    ensures Dirname(Join(dir, leaf)) == dir
  {
    var p := Join(dir, leaf);
    assert p == dir + "/" + leaf;
    var i := RFind(p, '/');
    assert p[|dir|] == '/';
    assert i == |dir|;
    var head := p[..i + 1];
    assert head == dir + "/";
    assert !AllSlashes(head) by { assert head[|dir| - 1] != '/'; }
    assert head[..|head| - 1] == dir;
  }
}
