/**
 * The three `os.path` helpers the uploader uses, with the semantics of Python's
 * `posixpath` module: `join` (two arguments), `basename` and `dirname`.
 */
module PosixPath {

  /** `p.endswith('/')` */
  predicate EndsWithSlash(p: string) {
    |p| > 0 && p[|p| - 1] == '/'
  }

  /** True of "" and of strings such as "/" and "///". */
  predicate AllSlashes(p: string) {
    forall i :: 0 <= i < |p| ==> p[i] == '/'
  }

  /** A single directory entry name, as `os.listdir` returns them. */
  predicate IsName(n: string) {
    n != "" && '/' !in n
  }

  /** `p.rstrip('/')`: the longest prefix of `p` that does not end with a slash. */
  function RStripSlashes(p: string): (r: string)
    ensures |r| <= |p| && r == p[..|r|]
    ensures !EndsWithSlash(r)
    ensures forall i :: |r| <= i < |p| ==> p[i] == '/'
  {
    if EndsWithSlash(p) then RStripSlashes(p[..|p| - 1]) else p
  }

  /**
   * Trailing slashes removed, unless the string consists of slashes only
   * (then it is returned as it is); this is the step `dirname` applies to its head.
   */
  function StripTrailingSlashes(p: string): string {
    if AllSlashes(p) then p else RStripSlashes(p)
  }

  /** The length of the head of `p`: everything up to and including its last slash. */
  function HeadLength(p: string): (n: nat)
    ensures n <= |p|
    ensures n == 0 || p[n - 1] == '/'
    ensures forall i :: n <= i < |p| ==> p[i] != '/'
  {
    if p == [] then 0
    else if p[|p| - 1] == '/' then |p|
    else HeadLength(p[..|p| - 1])
  }

  /** `os.path.basename(p)`: the text after the last slash. */
  function Basename(p: string): (r: string)
    ensures '/' !in r
    ensures |r| <= |p| && p == p[..|p| - |r|] + r
    ensures |r| == |p| || p[|p| - |r| - 1] == '/'
  {
    var r := p[HeadLength(p)..];
    assert p == p[..HeadLength(p)] + r;
    r
  }

  /** `os.path.dirname(p)`: the head, with its trailing slashes removed unless it is all slashes. */
  function Dirname(p: string): string {
    StripTrailingSlashes(p[..HeadLength(p)])
  }

  /** The dirname of a path is a prefix of it, and empty exactly when the path has no slash at all. */
  lemma DirnamePrefix(p: string)
    ensures var d := Dirname(p);
      |d| <= |p| && d == p[..|d|] && (d == "" <==> '/' !in p)
  {
    var h := p[..HeadLength(p)];
    StripIdempotent(h);
    if '/' in p {
      var i :| 0 <= i < |p| && p[i] == '/';
      assert h != "" && h[|h| - 1] == '/';
      if !AllSlashes(h) {
        var j :| 0 <= j < |h| && h[j] != '/';
        assert |RStripSlashes(h)| > j;
      }
    } else {
      assert HeadLength(p) == 0;
    }
  }

  /** `os.path.join(a, b)` for two arguments. */
  function Join(a: string, b: string): string {
    if |b| > 0 && b[0] == '/' then b
    else if a == "" || EndsWithSlash(a) then a + b
    else a + "/" + b
  }

  /**
   * What `join` builds: an absolute `b` replaces `a`; otherwise the result is
   * `a`, then a slash exactly when `a` is non-empty and lacks one, then `b`.
   */
  lemma JoinShape(a: string, b: string)
    ensures var r := Join(a, b);
      && |b| <= |r| && r[|r| - |b|..] == b
      && (|b| > 0 && b[0] == '/' ==> r == b)
      && (!(|b| > 0 && b[0] == '/') ==>
            && |a| + |b| <= |r| <= |a| + |b| + 1 && r[..|a|] == a
            && (|r| == |a| + |b| + 1 <==> a != "" && !EndsWithSlash(a))
            && (|r| == |a| + |b| + 1 ==> r[|a|] == '/'))
  {
  }

  lemma RStripOfUnslashed(p: string)
    requires !EndsWithSlash(p)
    ensures RStripSlashes(p) == p
  {
  }

  /** A string that does not end with a slash is a fixed point of the stripping. */
  lemma StripOfUnslashed(p: string)
    requires !EndsWithSlash(p)
    ensures StripTrailingSlashes(p) == p
  {
    RStripOfUnslashed(p);
  }

  /** Stripping twice is stripping once; the result is a prefix ending in no slash, or all slashes. */
  lemma {:induction false} StripIdempotent(p: string)
    ensures StripTrailingSlashes(StripTrailingSlashes(p)) == StripTrailingSlashes(p)
    ensures var s := StripTrailingSlashes(p); s == p[..|s|] && (AllSlashes(s) || !EndsWithSlash(s))
  {
    var s := StripTrailingSlashes(p);
    if !AllSlashes(p) {
      assert !EndsWithSlash(s);
      StripOfUnslashed(s);
    }
  }

  /** One more trailing slash does not change the stripped form of a string that has a non-slash. */
  lemma StripAppendSlash(a: string)
    requires !AllSlashes(a)
    ensures StripTrailingSlashes(a + "/") == StripTrailingSlashes(a)
  {
    var i :| 0 <= i < |a| && a[i] != '/';
    assert (a + "/")[i] != '/';
    assert (a + "/")[..|a + "/"| - 1] == a;
  }

  /**
   * The head of a path that ends with a slash is the whole path, so its
   * dirname is the path itself without its trailing slashes.
   */
  lemma DirnameOfSlashTerminated(p: string)
    requires EndsWithSlash(p)
    ensures Dirname(p) == StripTrailingSlashes(p)
  {
    assert p[..HeadLength(p)] == p;
  }

  /** The parent that is checked for a destination `x + "/"` is `x` itself. */
  lemma {:induction false} DirnameOfDirectoryDestination(x: string)
    requires x != "" && !EndsWithSlash(x)
    ensures Dirname(x + "/") == x
  {
    DirnameOfSlashTerminated(x + "/");
    assert x[|x| - 1] != '/';
    StripAppendSlash(x);
    StripOfUnslashed(x);
  }

  /**
   * Joining a directory entry name onto a path: the basename of the result is
   * the name and its dirname is the path with its trailing slashes stripped.
   */
  lemma {:induction false} JoinName(a: string, n: string)
    requires IsName(n)
    ensures Basename(Join(a, n)) == n
    ensures Dirname(Join(a, n)) == StripTrailingSlashes(a)
    ensures !EndsWithSlash(Join(a, n)) && Join(a, n) != ""
  {
    var sep := if a == "" || EndsWithSlash(a) then a else a + "/";
    assert n[0] in n;
    assert Join(a, n) == sep + n;
    HeadOfNameAfterSeparator(sep, n);
    if sep != a {
      assert a[|a| - 1] != '/';
      StripAppendSlash(a);
    }
  }

  /** After a prefix that is empty or ends with a slash, a name is the whole tail: the head is the prefix. */
  lemma HeadOfNameAfterSeparator(sep: string, n: string)
    requires sep == "" || EndsWithSlash(sep)
    requires IsName(n)
    ensures HeadLength(sep + n) == |sep|
    ensures Basename(sep + n) == n
    ensures Dirname(sep + n) == StripTrailingSlashes(sep)
    ensures !EndsWithSlash(sep + n)
  {
    var j := sep + n;
    var k := |sep|;
    var h := HeadLength(j);
    assert j[k..] == n && j[..k] == sep;
    assert n[|n| - 1] in n;
  }

  /** A name joined onto a path gives a path with no trailing slash, so it is its own stripped form. */
  lemma JoinNameStripped(a: string, n: string)
    requires IsName(n)
    ensures StripTrailingSlashes(Join(a, n)) == Join(a, n)
  {
    JoinName(a, n);
    StripOfUnslashed(Join(a, n));
  }
}
