/**
 * Worked scenarios: the exact calls the uploader makes for a two-level
 * directory tree and for a single file sent into a remote directory, and what
 * validation decides for three concrete settings.
 */
module Scenarios {
  import opened Wrappers
  import opened PosixPath
  import opened FileMode
  import opened LocalFs
  import opened Sftp
  import opened Uploader
  import opened Settings

  /** A path `x` with no trailing slash: the server stores `x/` under `x`, and the parent checked for `x/` is `x`. */
  lemma SlashedKey(x: string)
    requires x != "" && !EndsWithSlash(x)
    ensures Key(x + "/") == x && Key(x) == x && Dirname(x + "/") == x
  {
    assert x[|x| - 1] != '/';
    StripAppendSlash(x);
    StripOfUnslashed(x);
    DirnameOfDirectoryDestination(x);
  }

  /** The child `n` of a directory path `dir` that has no trailing slash. */
  lemma ChildPaths(dir: string, n: string)
    requires IsName(n) && dir != "" && !EndsWithSlash(dir)
    ensures var child := dir + "/" + n;
      && Join(dir, n) == child && Join(dir + "/", n) == child
      && child != "" && !EndsWithSlash(child)
      && Dirname(child) == dir && Key(child) == child && Key(dir) == dir
  {
    assert n[0] in n;
    JoinName(dir, n);
    StripOfUnslashed(dir);
    StripOfUnslashed(dir + "/" + n);
  }

  /** Different names under one directory give different paths. */
  lemma ChildrenDistinct(dir: string, x: string, y: string)
    requires x != y
    ensures dir + "/" + x != dir + "/" + y
  {
    assert (dir + "/" + x)[|dir| + 1..] == x;
    assert (dir + "/" + y)[|dir| + 1..] == y;
  }

  /** A listing of one entry is that entry's upload. */
  lemma SingleEntryListing(fs: Entries, n: string, node: Node, local: string, remote: string)
    ensures UploadChildren(fs, [(n, node)], local, remote) == Upload(fs, node, Join(local, n), Join(remote, n))
  {
    var first := Upload(fs, node, Join(local, n), Join(remote, n));
    ListingStep(fs, [(n, node)], 0, local, remote);
    assert [(n, node)][1..] == [] && [(n, node)][0..] == [(n, node)];
    assert first.ops + [] == first.ops;
  }

  /** A file put at a fresh name `n` inside the existing directory `dir`. */
  lemma FreshFileStep(fs: Entries, local: string, dir: string, n: string)
    requires IsName(n) && dir != "" && !EndsWithSlash(dir) && IsDirAt(fs, dir) && dir + "/" + n !in fs
    ensures Upload(fs, File, local, dir + "/" + n)
      == Run(fs[dir + "/" + n := Entry(RegularFileMode)], [Stat(dir + "/" + n), Put(local, dir + "/" + n)], Done)
  {
    ChildPaths(dir, n);
  }

  /** `mkdir` of a fresh name `n` inside the existing directory `dir` creates it, so that it is found as a directory. */
  lemma FreshMkdir(fs: Entries, dir: string, n: string)
    requires IsName(n) && dir != "" && !EndsWithSlash(dir) && IsDirAt(fs, dir) && dir + "/" + n !in fs
    ensures var sub := dir + "/" + n;
      && Dirname(sub) == dir && Resolve(fs, dir).Some? && CanMkdir(fs, sub)
      && AfterSwallowedMkdir(fs, sub) == fs[sub := Entry(DirMode)]
      && IsDirAt(fs[sub := Entry(DirMode)], sub)
  {
    ChildPaths(dir, n);
  }

  /** A fresh subdirectory `n` of `dir` holding the one file `b`: created, then the file put into it. */
  lemma FreshSubdirectoryStep(fs: Entries, src: string, dir: string, n: string, b: string)
    requires IsName(n) && IsName(b) && dir != "" && !EndsWithSlash(dir) && IsDirAt(fs, dir)
    requires dir + "/" + n !in fs && dir + "/" + n + "/" + b !in fs
    ensures Upload(fs, Dir([(b, File)]), src, dir + "/" + n)
      == Run(fs[dir + "/" + n := Entry(DirMode)][dir + "/" + n + "/" + b := Entry(RegularFileMode)],
             [Stat(dir), Mkdir(dir + "/" + n)] + [Stat(dir + "/" + n + "/" + b), Put(Join(src, b), dir + "/" + n + "/" + b)],
             Done)
  {
    var sub := dir + "/" + n;
    FreshMkdir(fs, dir, n);
    var fs1 := fs[sub := Entry(DirMode)];
    ChildPaths(sub, b);
    assert sub + "/" + b !in fs1;
    FreshFileStep(fs1, Join(src, b), sub, b);
    SingleEntryListing(fs1, b, File, src, sub);
    assert Upload(fs, Dir([(b, File)]), src, sub)
      == Prepend([Stat(dir), Mkdir(sub)], UploadChildren(fs1, [(b, File)], src, sub));
  }

  /** Putting the file `a` into `dst` keeps `dst` a directory and leaves the paths of `sub` and `sub/b` free. */
  lemma FileLeavesSiblingsFree(fs: Entries, dst: string, a: string, sub: string, b: string)
    requires IsName(a) && a != sub && dst != "" && !EndsWithSlash(dst) && IsDirAt(fs, dst)
    requires dst + "/" + sub !in fs && dst + "/" + sub + "/" + b !in fs
    ensures var fs1 := fs[dst + "/" + a := Entry(RegularFileMode)];
      IsDirAt(fs1, dst) && dst + "/" + sub !in fs1 && dst + "/" + sub + "/" + b !in fs1
  {
    StripOfUnslashed(dst);
    assert dst + "/" + a != dst by { assert |dst + "/" + a| > |dst|; }
    ChildrenDistinct(dst, a, sub);
    assert dst + "/" + sub + "/" + b == dst + "/" + (sub + "/" + b);
    assert '/' !in a && (sub + "/" + b)[|sub|] == '/';
    ChildrenDistinct(dst, a, sub + "/" + b);
  }

  /** The listing `a`, `sub/b` walked into an existing directory `dst`. */
  lemma TwoLevelListing(fs: Entries, src: string, dst: string, a: string, sub: string, b: string)
    requires IsName(a) && IsName(sub) && IsName(b)
    requires src != "" && !EndsWithSlash(src) && dst != "" && !EndsWithSlash(dst) && IsDirAt(fs, dst)
    requires dst + "/" + a !in fs && dst + "/" + sub !in fs && dst + "/" + sub + "/" + b !in fs && a != sub
    ensures UploadChildren(fs, [(a, File), (sub, Dir([(b, File)]))], src, dst + "/")
      == Run(fs[dst + "/" + a := Entry(RegularFileMode)]
               [dst + "/" + sub := Entry(DirMode)]
               [dst + "/" + sub + "/" + b := Entry(RegularFileMode)],
             [Stat(dst + "/" + a), Put(src + "/" + a, dst + "/" + a)]
             + ([Stat(dst), Mkdir(dst + "/" + sub)]
                + [Stat(dst + "/" + sub + "/" + b), Put(src + "/" + sub + "/" + b, dst + "/" + sub + "/" + b)]),
             Done)
  {
    var dest := dst + "/";
    var remoteA := dst + "/" + a;
    ChildPaths(dst, a);
    ChildPaths(dst, sub);
    ChildPaths(src, a);
    ChildPaths(src, sub);
    ChildPaths(src + "/" + sub, b);

    FreshFileStep(fs, src + "/" + a, dst, a);
    var fs1 := fs[remoteA := Entry(RegularFileMode)];
    FileLeavesSiblingsFree(fs, dst, a, sub, b);
    FreshSubdirectoryStep(fs1, src + "/" + sub, dst, sub, b);

    var outer: seq<(string, Node)> := [(a, File), (sub, Dir([(b, File)]))];
    ListingStep(fs, outer, 0, src, dest);
    assert outer[0..] == outer && outer[1..] == [(sub, Dir([(b, File)]))];
    SingleEntryListing(fs1, sub, Dir([(b, File)]), src, dest);
  }

  /**
   * A directory holding a file `a` and a subdirectory `sub` with a file `b`,
   * uploaded to `dst + "/"` where `dst` exists: the parent checked is `dst`
   * itself, the `mkdir` of the existing destination fails and is ignored, and
   * the tree is mirrored depth first in listing order. With `src` = `/tmp/app`,
   * `dst` = `/srv/app`, `a` = `a.txt`, `sub` = `sub` and `b` = `b.txt` this is
   * `put(/tmp/app/a.txt, /srv/app/a.txt)`, `mkdir(/srv/app/sub)`,
   * `put(/tmp/app/sub/b.txt, /srv/app/sub/b.txt)`.
   */
  lemma TwoLevelTreeCalls(fs: Entries, src: string, dst: string, a: string, sub: string, b: string)
    requires IsName(a) && IsName(sub) && IsName(b)
    requires src != "" && !EndsWithSlash(src) && dst != "" && !EndsWithSlash(dst)
    requires dst in fs && IsDirMode(fs[dst].mode)
    requires dst + "/" + a !in fs && dst + "/" + sub !in fs && dst + "/" + sub + "/" + b !in fs && a != sub
    ensures var run := Upload(fs, Dir([(a, File), (sub, Dir([(b, File)]))]), src, dst + "/");
      && run.outcome == Done
      && run.ops == [Stat(dst), Mkdir(dst + "/")]
           + ([Stat(dst + "/" + a), Put(src + "/" + a, dst + "/" + a)]
              + ([Stat(dst), Mkdir(dst + "/" + sub)]
                 + [Stat(dst + "/" + sub + "/" + b), Put(src + "/" + sub + "/" + b, dst + "/" + sub + "/" + b)]))
      && run.entries == fs[dst + "/" + a := Entry(RegularFileMode)]
                          [dst + "/" + sub := Entry(DirMode)]
                          [dst + "/" + sub + "/" + b := Entry(RegularFileMode)]
  {
    SlashedKey(dst);
    assert !CanMkdir(fs, dst + "/");
    var outer: seq<(string, Node)> := [(a, File), (sub, Dir([(b, File)]))];
    var listing := UploadChildren(fs, outer, src, dst + "/");
    assert Upload(fs, Dir(outer), src, dst + "/") == Prepend([Stat(dst), Mkdir(dst + "/")], listing);
    TwoLevelListing(fs, src, dst, a, sub, b);
  }

  /** A file whose basename is the fresh name `n`, sent to `dir + "/"` where `dir` is a directory, is put at `dir/n`. */
  lemma FileIntoSlashedDirectory(fs: Entries, local: string, dir: string, n: string)
    requires IsName(n) && Basename(local) == n && dir != "" && !EndsWithSlash(dir)
    requires IsDirAt(fs, dir) && dir + "/" + n !in fs
    ensures Upload(fs, File, local, dir + "/")
      == Run(fs[dir + "/" + n := Entry(RegularFileMode)], [Stat(dir + "/"), Put(local, dir + "/" + n)], Done)
  {
    SlashedKey(dir);
    ChildPaths(dir, n);
    assert PutTarget(Resolve(fs, dir + "/"), local, dir + "/") == dir + "/" + n;
  }

  /** The name the single file keeps on the server. */
  lemma FileBasename()
    ensures Basename("/tmp/file.txt") == "file.txt"
  {
    assert Join("/tmp", "file.txt") == "/tmp/file.txt";
    JoinName("/tmp", "file.txt");
  }

  /**
   * A file sent to `/srv/uploads/`, a directory on the server, lands at
   * `/srv/uploads/file.txt` with a single `put`.
   */
  lemma FileIntoDirectoryCall()
    ensures var fs := map["/" := Entry(DirMode), "/srv" := Entry(DirMode), "/srv/uploads" := Entry(DirMode)];
      var run := Upload(fs, File, "/tmp/file.txt", "/srv/uploads/");
      && run.outcome == Done
      && run.ops == [Stat("/srv/uploads/"), Put("/tmp/file.txt", "/srv/uploads/file.txt")]
      && run.entries == fs["/srv/uploads/file.txt" := Entry(RegularFileMode)]
  {
    var fs := map["/" := Entry(DirMode), "/srv" := Entry(DirMode), "/srv/uploads" := Entry(DirMode)];
    var dir := "/srv/uploads";
    FileBasename();
    assert dir[|dir| - 1] != '/';
    StripOfUnslashed(dir);
    assert dir + "/" == "/srv/uploads/" && dir + "/" + "file.txt" == "/srv/uploads/file.txt";
    FileIntoSlashedDirectory(fs, "/tmp/file.txt", dir, "file.txt");
  }

  /** The local side used below: `/tmp/app` is a directory, `/tmp/file.txt` a file, nothing else exists. */
  function LocalPaths(path: string): Option<Node> {
    if path == "/tmp/app" then Some(Dir([("a.txt", File), ("sub", Dir([("b.txt", File)]))]))
    else if path == "/tmp/file.txt" then Some(File)
    else None
  }

  /** A directory source with a destination that lacks the trailing slash is refused before any connection. */
  lemma DirectoryWithoutSlashRejected()
    ensures Validate(Env(Some("secret"), Some("deploy@host"), Some("/tmp/app"), Some("/srv/app"), Unset), LocalPaths)
      == Failure(DestinationNotDirectory)
  {
    var env := Env(Some("secret"), Some("deploy@host"), Some("/tmp/app"), Some("/srv/app"), Unset);
    MissingNamesExactly(env);
    assert "deploy@host"[6] == '@';
  }

  /** Every missing setting is reported, in order, not only the first. */
  lemma AllMissingReported()
    ensures Validate(Env(None, Some("deploy@host"), Some(""), None, Unset), LocalPaths)
      == Failure(MissingValues(["PASSWORD", "SOURCE", "DESTINATION"]))
  {
    MissingNamesExactly(Env(None, Some("deploy@host"), Some(""), None, Unset));
    assert ["PASSWORD"] + [] + ["SOURCE"] + ["DESTINATION"] == ["PASSWORD", "SOURCE", "DESTINATION"];
  }

  /** `deploy@host@lan` is split at its first `@`. */
  lemma SplitExample()
    ensures '@' in "deploy@host@lan" && SplitSsh("deploy@host@lan") == ("deploy", "host@lan")
  {
    var ssh := "deploy@host@lan";
    assert ssh == "deploy" + "@" + "host@lan";
    assert ssh[6] == '@' && '@' !in "deploy";
    SplitSshUnique(ssh, "deploy", "host@lan");
  }

  /** The settings of the accepted example, all four set. */
  function ExampleEnv(): Env {
    Env(Some("secret"), Some("deploy@host@lan"), Some("/tmp/app"), Some("/srv/app/"), Unset)
  }

  /** The checks after the missing-values check pass for the example: the source is a directory, the destination ends with `/`. */
  lemma ExampleChecksPass()
    ensures AllPresent(ExampleEnv())
    ensures CheckPresent(ExampleEnv(), LocalPaths) == Success(Config("deploy", "host@lan", "secret", 22, "/tmp/app", "/srv/app/"))
  {
    SplitExample();
    assert LocalPaths("/tmp/app").Some? && LocalPaths("/tmp/app").value.Dir?;
    assert "/srv/app/"[8] == '/';
  }

  /** An accepted configuration: the user is the text before the first `@`, the port defaults to 22. */
  lemma AcceptedConfiguration()
    ensures Validate(ExampleEnv(), LocalPaths) == Success(Config("deploy", "host@lan", "secret", 22, "/tmp/app", "/srv/app/"))
  {
    ExampleChecksPass();
    MissingNamesExactly(ExampleEnv());
  }
}
