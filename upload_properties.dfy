/**
 * What `sftp_upload` promises, proved about its specification `Upload`:
 * where a single file goes, when a directory upload stops before doing
 * anything, that a failed `mkdir` never stops the walk, that the first failure
 * ends it, what a successful walk does for every entry of the local tree, and
 * that running it again after a success repeats the same calls and succeeds.
 */
module UploadProperties {
  import opened Wrappers
  import opened PosixPath
  import opened FileMode
  import opened LocalFs
  import opened Sftp
  import opened Uploader

  // ---------------------------------------------------------------------------
  // Facts about the remote file system
  // ---------------------------------------------------------------------------

  lemma KeyIdempotent(p: string)
    ensures Key(Key(p)) == Key(p)
  {
    StripIdempotent(p);
  }

  lemma ExtendsTransitive(a: Entries, b: Entries, c: Entries)
    requires Extends(a, b) && Extends(b, c)
    ensures Extends(a, c)
  {
  }

  /** What `stat` finds stays found, unchanged, once entries are only ever added. */
  lemma ResolveStable(fs: Entries, later: Entries, p: string)
    requires Extends(fs, later) && Resolve(fs, p).Some?
    ensures Resolve(later, p) == Resolve(fs, p)
  {
  }

  // ---------------------------------------------------------------------------
  // A single file
  // ---------------------------------------------------------------------------

  /**
   * When `stat` finds the destination and it has the mode 0o40755 or ends with
   * a slash, the one `put` goes to `join(remote, basename(local))`; if that
   * destination is a directory and the name is free for a file, the upload
   * succeeds and the file is there afterwards.
   */
  lemma FileIntoRemoteDirectory(fs: Entries, local: string, remote: string)
    requires Resolve(fs, remote).Some?
    requires LooksLikeDir(Resolve(fs, remote).value.mode) || EndsWithSlash(remote)
    ensures var target := Join(remote, Basename(local));
      var run := Upload(fs, File, local, remote);
      && run.ops == [Stat(remote), Put(local, target)]
      && (IsDirAt(fs, remote) && Basename(local) != "" && (target !in fs || !IsDirMode(fs[target].mode))
          ==> run.outcome == Done && target in run.entries && !IsDirMode(run.entries[target].mode))
  {
    var target := Join(remote, Basename(local));
    assert PutTarget(Resolve(fs, remote), local, remote) == target;
    if IsDirAt(fs, remote) && Basename(local) != "" {
      JoinIntoDirectory(fs, remote, Basename(local));
    }
  }

  /** A name joined onto a directory's path is a file position inside that directory. */
  lemma JoinIntoDirectory(fs: Entries, remote: string, n: string)
    requires IsDirAt(fs, remote) && IsName(n)
    ensures var target := Join(remote, n);
      target != "" && !EndsWithSlash(target) && IsDirAt(fs, Dirname(target))
  {
    JoinName(remote, n);
    KeyIdempotent(remote);
    assert Key(Dirname(Join(remote, n))) == Key(remote);
  }

  /**
   * When `stat` of the destination fails, the failure is ignored and the one
   * `put` goes to the destination unchanged, even when it ends with a slash;
   * such a `put` is refused, so the upload then fails.
   */
  lemma FileWhenStatFails(fs: Entries, local: string, remote: string)
    requires Resolve(fs, remote).None?
    ensures var run := Upload(fs, File, local, remote);
      && run.ops == [Stat(remote), Put(local, remote)]
      && (EndsWithSlash(remote) ==> run == Run(fs, run.ops, Failed(PutRefused(local, remote))))
  {
  }

  /**
   * When `stat` finds the destination, its mode is not 0o40755 and the path
   * has no trailing slash, the file is put at the destination itself, and the
   * upload succeeds exactly when the server accepts a put there. Overwriting an
   * existing regular file in an existing directory succeeds and adds no entry.
   */
  lemma FileOntoExisting(fs: Entries, local: string, remote: string)
    requires Resolve(fs, remote).Some? && !LooksLikeDir(Resolve(fs, remote).value.mode) && !EndsWithSlash(remote)
    ensures var run := Upload(fs, File, local, remote);
      && run.ops == [Stat(remote), Put(local, remote)]
      && (run.outcome == Done <==> CanPut(fs, remote))
      && run.entries == (if CanPut(fs, remote) then AfterPut(fs, remote) else fs)
      && (remote != "" && !IsDirMode(Resolve(fs, remote).value.mode) && IsDirAt(fs, Dirname(remote)) ==>
            run.outcome == Done && run.entries == fs)
  {
    StripOfUnslashed(remote);
    assert Key(remote) == remote && remote in fs;
  }

  /**
   * A directory with any mode other than 0o40755, named without a trailing
   * slash, is not recognised: the file is put onto the directory path itself,
   * which the server refuses.
   */
  lemma UnrecognisedDirectoryRefused(fs: Entries, local: string, remote: string)
    requires remote != "" && !EndsWithSlash(remote)
    requires remote in fs && fs[remote].mode == GroupWritableDirMode
    ensures Upload(fs, File, local, remote) == Run(fs, [Stat(remote), Put(local, remote)], Failed(PutRefused(local, remote)))
  {
    GroupWritableDirMissed();
    StripOfUnslashed(remote);
  }

  // ---------------------------------------------------------------------------
  // A directory: the parent check and the ignored mkdir
  // ---------------------------------------------------------------------------

  /** When the remote parent cannot be stat'ed, a directory upload fails at once: no mkdir, no put, nothing changed. */
  lemma DirectoryNeedsRemoteParent(fs: Entries, node: Node, local: string, remote: string)
    requires !node.File? && Resolve(fs, Dirname(remote)).None?
    ensures Upload(fs, node, local, remote)
      == Run(fs, [Stat(Dirname(remote))], Failed(ParentMissing(Dirname(remote))))
  {
  }

  /** For a destination `x/` the parent that must exist is `x` itself. */
  lemma SlashDestinationMustExist(fs: Entries, node: Node, local: string, x: string)
    requires !node.File? && x != "" && !EndsWithSlash(x) && Resolve(fs, x).None?
    ensures Upload(fs, node, local, x + "/") == Run(fs, [Stat(x)], Failed(ParentMissing(x)))
  {
    DirnameOfDirectoryDestination(x);
  }

  /** A `mkdir` that fails changes nothing and the walk goes on over the whole listing. */
  lemma MkdirFailureIgnored(fs: Entries, children: seq<(string, Node)>, local: string, remote: string)
    requires Resolve(fs, Dirname(remote)).Some? && !CanMkdir(fs, remote)
    ensures Upload(fs, Dir(children), local, remote)
      == Prepend([Stat(Dirname(remote)), Mkdir(remote)], UploadChildren(fs, children, local, remote))
  {
  }

  // ---------------------------------------------------------------------------
  // The listing: in order, first failure ends it
  // ---------------------------------------------------------------------------

  /** Walking `a + b` is walking `a` and then, unless `a` failed, walking `b` from where `a` left the server. */
  lemma {:induction false} ListingConcat(fs: Entries, a: seq<(string, Node)>, b: seq<(string, Node)>, local: string, remote: string)
    ensures var ra := UploadChildren(fs, a, local, remote);
      UploadChildren(fs, a + b, local, remote)
        == if ra.outcome.Failed? then ra
           else Prepend(ra.ops, UploadChildren(ra.entries, b, local, remote))
    decreases |a|
  {
    if a == [] {
      assert a + b == b;
    } else {
      assert (a + b)[0] == a[0] && (a + b)[1..] == a[1..] + b;
      var name := a[0].0;
      var first := Upload(fs, a[0].1, Join(local, name), Join(remote, name));
      if !first.outcome.Failed? {
        ListingConcat(first.entries, a[1..], b, local, remote);
        var rest := UploadChildren(first.entries, a[1..], local, remote);
        if !rest.outcome.Failed? {
          var tail := UploadChildren(rest.entries, b, local, remote);
          assert first.ops + (rest.ops + tail.ops) == (first.ops + rest.ops) + tail.ops;
        }
      }
    }
  }

  /** Once entry `k` of the listing has failed, no later entry is touched: the walk is the walk up to `k`. */
  lemma FailureSkipsLaterEntries(fs: Entries, children: seq<(string, Node)>, k: nat, local: string, remote: string)
    requires k < |children|
    requires UploadChildren(fs, children[..k + 1], local, remote).outcome.Failed?
    ensures UploadChildren(fs, children, local, remote) == UploadChildren(fs, children[..k + 1], local, remote)
  {
    ListingConcat(fs, children[..k + 1], children[k + 1..], local, remote);
    assert children[..k + 1] + children[k + 1..] == children;
  }

  // ---------------------------------------------------------------------------
  // A failure is the last call made
  // ---------------------------------------------------------------------------

  /** Every walk starts with a `stat`: of the destination for a file, of the destination's parent otherwise. */
  lemma UploadStartsWithStat(fs: Entries, node: Node, local: string, remote: string)
    ensures var run := Upload(fs, node, local, remote);
      run.ops != [] && run.ops[0] == Stat(if node.File? then remote else Dirname(remote))
  {
  }

  /** The listing walk makes a call exactly when the listing is not empty. */
  lemma ListingCallsIffNonEmpty(fs: Entries, children: seq<(string, Node)>, local: string, remote: string)
    ensures UploadChildren(fs, children, local, remote).ops == [] <==> children == []
  {
    if children != [] {
      var name := children[0].0;
      UploadStartsWithStat(fs, children[0].1, Join(local, name), Join(remote, name));
    }
  }

  /**
   * A failed walk stopped at the failing call: the last call of the log is the
   * `stat` that found no parent, the refused `put`, or the `mkdir` before the
   * listing that could not be read, and that call still fails on the final server.
   */
  ghost predicate EndsAtFailure(run: Run) {
    run.outcome.Failed? ==>
      && |run.ops| > 0
      && var last := run.ops[|run.ops| - 1];
      match run.outcome.error
      case ParentMissing(parent) => last == Stat(parent) && Resolve(run.entries, parent).None?
      case PutRefused(local, target) => last == Put(local, target) && !CanPut(run.entries, target)
      case NotADirectory(_) => last.Mkdir?
  }

  lemma {:induction false} FailureIsLastCall(fs: Entries, node: Node, local: string, remote: string)
    ensures EndsAtFailure(Upload(fs, node, local, remote))
    decreases node
  {
    match node
    case File =>
    case Special =>
    case Dir(children) =>
      var made := AfterSwallowedMkdir(fs, remote);
      ListingFailureIsLastCall(made, children, local, remote);
      var rest := UploadChildren(made, children, local, remote);
      var ops := [Stat(Dirname(remote)), Mkdir(remote)];
      if rest.outcome.Failed? {
        assert (ops + rest.ops)[|ops + rest.ops| - 1] == rest.ops[|rest.ops| - 1];
      }
  }

  lemma {:induction false} ListingFailureIsLastCall(fs: Entries, children: seq<(string, Node)>, local: string, remote: string)
    ensures EndsAtFailure(UploadChildren(fs, children, local, remote))
    decreases children
  {
    if children != [] {
      assert children[0] in children && children[0].1 < children[0];
      var name := children[0].0;
      FailureIsLastCall(fs, children[0].1, Join(local, name), Join(remote, name));
      var first := Upload(fs, children[0].1, Join(local, name), Join(remote, name));
      if !first.outcome.Failed? {
        ListingFailureIsLastCall(first.entries, children[1..], local, remote);
        var rest := UploadChildren(first.entries, children[1..], local, remote);
        if rest.outcome.Failed? {
          assert (first.ops + rest.ops)[|first.ops + rest.ops| - 1] == rest.ops[|rest.ops| - 1];
        }
      }
    }
  }

  // ---------------------------------------------------------------------------
  // The server only gains entries
  // ---------------------------------------------------------------------------

  lemma {:induction false} UploadExtends(fs: Entries, node: Node, local: string, remote: string)
    ensures Extends(fs, Upload(fs, node, local, remote).entries)
    decreases node
  {
    match node
    case File =>
      AfterPutExtends(fs, PutTarget(Resolve(fs, remote), local, remote));
    case Special =>
      SwallowedMkdirExtends(fs, remote);
    case Dir(children) =>
      SwallowedMkdirExtends(fs, remote);
      var made := AfterSwallowedMkdir(fs, remote);
      ListingExtends(made, children, local, remote);
      ExtendsTransitive(fs, made, UploadChildren(made, children, local, remote).entries);
  }

  lemma AfterPutExtends(fs: Entries, path: string)
    ensures Extends(fs, AfterPut(fs, path))
  {
  }

  lemma SwallowedMkdirExtends(fs: Entries, remote: string)
    ensures Extends(fs, AfterSwallowedMkdir(fs, remote))
  {
  }

  lemma {:induction false} ListingExtends(fs: Entries, children: seq<(string, Node)>, local: string, remote: string)
    ensures Extends(fs, UploadChildren(fs, children, local, remote).entries)
    decreases children
  {
    if children != [] {
      assert children[0] in children && children[0].1 < children[0];
      var name := children[0].0;
      UploadExtends(fs, children[0].1, Join(local, name), Join(remote, name));
      var first := Upload(fs, children[0].1, Join(local, name), Join(remote, name));
      if !first.outcome.Failed? {
        ListingExtends(first.entries, children[1..], local, remote);
        ExtendsTransitive(fs, first.entries, UploadChildren(first.entries, children[1..], local, remote).entries);
      }
    }
  }

  // ---------------------------------------------------------------------------
  // A successful walk mirrors the local tree
  // ---------------------------------------------------------------------------

  /** What the walk is meant to do for one entry of the local tree. */
  datatype Task = MakeDir(remote: string) | SendFile(local: string, remote: string)

  /** The local tree in listing order, depth first: a `mkdir` per directory, a `put` per file, at the mirrored paths. */
  function Mirror(node: Node, local: string, remote: string): seq<Task>
    decreases node
  {
    match node
    case File => [SendFile(local, remote)]
    case Dir(children) => [MakeDir(remote)] + MirrorListing(children, local, remote)
    case Special => [MakeDir(remote)]
  }

  function MirrorListing(children: seq<(string, Node)>, local: string, remote: string): seq<Task>
    decreases children
  {
    if children == [] then []
    else
      assert children[0] in children && children[0].1 < children[0];
      var name := children[0].0;
      Mirror(children[0].1, Join(local, name), Join(remote, name)) + MirrorListing(children[1..], local, remote)
  }

  /** The `mkdir` and `put` calls of a log, in order (the `stat` calls change nothing). */
  function Calls(ops: seq<Op>): seq<Task> {
    if ops == [] then []
    else
      var head := match ops[0]
        case Stat(_) => []
        case Mkdir(p) => [MakeDir(p)]
        case Put(l, t) => [SendFile(l, t)];
      head + Calls(ops[1..])
  }

  /** A call does what was planned; a file may also land inside the planned path, under its own name. */
  predicate Realizes(call: Task, planned: Task) {
    match planned
    case MakeDir(_) => call == planned
    case SendFile(l, m) => call == planned || call == SendFile(l, Join(m, Basename(l)))
  }

  predicate Follows(calls: seq<Task>, plan: seq<Task>) {
    |calls| == |plan| && forall i :: 0 <= i < |calls| ==> Realizes(calls[i], plan[i])
  }

  lemma {:induction false} CallsAppend(a: seq<Op>, b: seq<Op>)
    ensures Calls(a + b) == Calls(a) + Calls(b)
    decreases |a|
  {
    if a != [] {
      assert (a + b)[0] == a[0] && (a + b)[1..] == a[1..] + b;
      CallsAppend(a[1..], b);
    } else {
      assert a + b == b;
    }
  }

  lemma FollowsAppend(c1: seq<Task>, p1: seq<Task>, c2: seq<Task>, p2: seq<Task>)
    requires Follows(c1, p1) && Follows(c2, p2)
    ensures Follows(c1 + c2, p1 + p2)
  {
    forall i | 0 <= i < |c1 + c2|
      ensures Realizes((c1 + c2)[i], (p1 + p2)[i])
    {
      if i < |c1| {
        assert (c1 + c2)[i] == c1[i] && (p1 + p2)[i] == p1[i];
        assert Realizes(c1[i], p1[i]);
      } else {
        var k := i - |c1|;
        assert (c1 + c2)[i] == c2[k] && (p1 + p2)[i] == p2[k];
        assert Realizes(c2[k], p2[k]);
      }
    }
  }

  /**
   * A walk that ends normally made exactly one `mkdir` per local directory and
   * one `put` per local file, in listing order, each at its mirrored remote path
   * (a file possibly one level further down, under its own name).
   */
  lemma {:induction false} SuccessFollowsMirror(fs: Entries, node: Node, local: string, remote: string)
    requires Upload(fs, node, local, remote).outcome == Done
    ensures Follows(Calls(Upload(fs, node, local, remote).ops), Mirror(node, local, remote))
    decreases node
  {
    var run := Upload(fs, node, local, remote);
    match node
    case File =>
      var target := PutTarget(Resolve(fs, remote), local, remote);
      assert run.ops == [Stat(remote), Put(local, target)];
      assert Calls(run.ops) == [SendFile(local, target)] by {
        assert run.ops[1..] == [Put(local, target)];
        assert [Put(local, target)][1..] == [];
        assert Calls([Put(local, target)]) == [SendFile(local, target)];
      }
    case Dir(children) =>
      var made := AfterSwallowedMkdir(fs, remote);
      var parent := Dirname(remote);
      SuccessFollowsMirrorListing(made, children, local, remote);
      var rest := UploadChildren(made, children, local, remote);
      CallsAppend([Stat(parent), Mkdir(remote)], rest.ops);
      assert Calls([Stat(parent), Mkdir(remote)]) == [MakeDir(remote)] by {
        assert [Stat(parent), Mkdir(remote)][1..] == [Mkdir(remote)];
        assert [Mkdir(remote)][1..] == [];
      }
      FollowsAppend([MakeDir(remote)], [MakeDir(remote)], Calls(rest.ops), MirrorListing(children, local, remote));
  }

  lemma {:induction false} SuccessFollowsMirrorListing(fs: Entries, children: seq<(string, Node)>, local: string, remote: string)
    requires UploadChildren(fs, children, local, remote).outcome == Done
    ensures Follows(Calls(UploadChildren(fs, children, local, remote).ops), MirrorListing(children, local, remote))
    decreases children
  {
    if children != [] {
      assert children[0] in children && children[0].1 < children[0];
      var name := children[0].0;
      var first := Upload(fs, children[0].1, Join(local, name), Join(remote, name));
      SuccessFollowsMirror(fs, children[0].1, Join(local, name), Join(remote, name));
      SuccessFollowsMirrorListing(first.entries, children[1..], local, remote);
      var rest := UploadChildren(first.entries, children[1..], local, remote);
      CallsAppend(first.ops, rest.ops);
      FollowsAppend(Calls(first.ops), Mirror(children[0].1, Join(local, name), Join(remote, name)),
                    Calls(rest.ops), MirrorListing(children[1..], local, remote));
    }
  }

  /** The number of `put` calls in a log. */
  function PutCount(ops: seq<Op>): nat {
    if ops == [] then 0 else (if ops[0].Put? then 1 else 0) + PutCount(ops[1..])
  }

  lemma {:induction false} PutCountAppend(a: seq<Op>, b: seq<Op>)
    ensures PutCount(a + b) == PutCount(a) + PutCount(b)
    decreases |a|
  {
    if a != [] {
      assert (a + b)[0] == a[0] && (a + b)[1..] == a[1..] + b;
      PutCountAppend(a[1..], b);
    } else {
      assert a + b == b;
    }
  }

  lemma PutCountPair(p: Op, q: Op)
    ensures PutCount([p, q]) == (if p.Put? then 1 else 0) + (if q.Put? then 1 else 0)
  {
    assert [p, q][1..] == [q] && [q][1..] == [];
    assert PutCount([q]) == (if q.Put? then 1 else 0) + PutCount([]);
  }

  /** A walk that ends normally made as many `put` calls as the local tree has regular files. */
  lemma {:induction false} SuccessPutsEveryFile(fs: Entries, node: Node, local: string, remote: string)
    requires Upload(fs, node, local, remote).outcome == Done
    ensures PutCount(Upload(fs, node, local, remote).ops) == FileCount(node)
    decreases node
  {
    match node
    case File =>
      var target := PutTarget(Resolve(fs, remote), local, remote);
      assert Upload(fs, node, local, remote).ops == [Stat(remote), Put(local, target)];
      PutCountPair(Stat(remote), Put(local, target));
    case Dir(children) =>
      var made := AfterSwallowedMkdir(fs, remote);
      SuccessPutsEveryFileListing(made, children, local, remote);
      var rest := UploadChildren(made, children, local, remote);
      PutCountAppend([Stat(Dirname(remote)), Mkdir(remote)], rest.ops);
      PutCountPair(Stat(Dirname(remote)), Mkdir(remote));
  }

  lemma {:induction false} SuccessPutsEveryFileListing(fs: Entries, children: seq<(string, Node)>, local: string, remote: string)
    requires UploadChildren(fs, children, local, remote).outcome == Done
    ensures PutCount(UploadChildren(fs, children, local, remote).ops) == ChildrenFileCount(children)
    decreases children
  {
    if children != [] {
      assert children[0] in children && children[0].1 < children[0];
      var name := children[0].0;
      var first := Upload(fs, children[0].1, Join(local, name), Join(remote, name));
      SuccessPutsEveryFile(fs, children[0].1, Join(local, name), Join(remote, name));
      SuccessPutsEveryFileListing(first.entries, children[1..], local, remote);
      PutCountAppend(first.ops, UploadChildren(first.entries, children[1..], local, remote).ops);
    }
  }

  // ---------------------------------------------------------------------------
  // Uploading again after a success
  // ---------------------------------------------------------------------------

  /**
   * After a successful walk, the same walk on the resulting server, or on any
   * server that only has more entries, makes exactly the same calls, changes
   * nothing and succeeds: the `mkdir` calls now fail and are ignored, and each
   * `put` overwrites the file it created.
   */
  lemma {:induction false} RerunAfterSuccess(fs: Entries, node: Node, local: string, remote: string, later: Entries)
    requires Upload(fs, node, local, remote).outcome == Done
    requires Extends(Upload(fs, node, local, remote).entries, later)
    ensures Upload(later, node, local, remote) == Run(later, Upload(fs, node, local, remote).ops, Done)
    decreases node
  {
    var run := Upload(fs, node, local, remote);
    match node
    case File =>
      var target := PutTarget(Resolve(fs, remote), local, remote);
      if Resolve(fs, remote).Some? {
        ResolveStable(fs, later, remote);
      } else {
        StripOfUnslashed(remote);
        assert later[remote] == Entry(RegularFileMode);
        RegularFileModeIsNotDir();
      }
      assert PutTarget(Resolve(later, remote), local, remote) == target;
      ResolveStable(fs, later, Dirname(target));
    case Dir(children) =>
      var parent := Dirname(remote);
      var made := AfterSwallowedMkdir(fs, remote);
      UploadExtends(fs, node, local, remote);
      ExtendsTransitive(fs, run.entries, later);
      ResolveStable(fs, later, parent);
      ListingExtends(made, children, local, remote);
      if !CanMkdir(fs, remote) && Key(remote) !in fs {
        if EndsWithSlash(remote) {
          DirnameOfSlashTerminated(remote);
          KeyIdempotent(remote);
          assert false;
        }
        StripOfUnslashed(remote);
        ResolveStable(fs, later, Dirname(Key(remote)));
      }
      assert !CanMkdir(later, remote);
      RerunListingAfterSuccess(made, children, local, remote, later);
  }

  lemma {:induction false} RerunListingAfterSuccess(fs: Entries, children: seq<(string, Node)>, local: string, remote: string, later: Entries)
    requires UploadChildren(fs, children, local, remote).outcome == Done
    requires Extends(UploadChildren(fs, children, local, remote).entries, later)
    ensures UploadChildren(later, children, local, remote) == Run(later, UploadChildren(fs, children, local, remote).ops, Done)
    decreases children
  {
    if children != [] {
      assert children[0] in children && children[0].1 < children[0];
      var name := children[0].0;
      var first := Upload(fs, children[0].1, Join(local, name), Join(remote, name));
      var rest := UploadChildren(first.entries, children[1..], local, remote);
      ListingExtends(first.entries, children[1..], local, remote);
      ExtendsTransitive(first.entries, rest.entries, later);
      RerunAfterSuccess(fs, children[0].1, Join(local, name), Join(remote, name), later);
      RerunListingAfterSuccess(first.entries, children[1..], local, remote, later);
    }
  }

  /** Uploading the same tree to the same destination a second time repeats the calls, succeeds and changes nothing. */
  lemma ReuploadIsIdempotent(fs: Entries, node: Node, local: string, remote: string)
    requires Upload(fs, node, local, remote).outcome == Done
    ensures var run := Upload(fs, node, local, remote);
      Upload(run.entries, node, local, remote) == run.(outcome := Done)
  {
    var run := Upload(fs, node, local, remote);
    RerunAfterSuccess(fs, node, local, remote, run.entries);
  }
}
