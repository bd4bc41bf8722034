/**
 * `sftp_upload`: copy a local file, or a local directory tree depth first, to a
 * remote path over an SFTP session.
 *
 * `Upload` states, as a function of the remote file system before the call,
 * which session calls are made, what the remote file system is afterwards and
 * whether the walk ends normally or with which error. `SftpUpload` is the
 * imperative walk over a `Session`, proved to behave exactly as `Upload` says.
 */
module Uploader {
  import opened Wrappers
  import opened PosixPath
  import opened FileMode
  import opened LocalFs
  import opened Sftp

  /** The errors that escape the walk (each is re-raised unchanged to the caller). */
  datatype UploadError =
    | ParentMissing(parent: string)          // `stat` of the remote parent of a directory failed
    | PutRefused(local: string, remote: string)  // `put` failed
    | NotADirectory(local: string)           // `os.listdir` on something that is neither file nor directory

  datatype Outcome = Done | Failed(error: UploadError)

  /** The effect of one walk: the remote file system afterwards, the calls made, and how it ended. */
  datatype Run = Run(entries: Entries, ops: seq<Op>, outcome: Outcome)

  function Prepend(ops: seq<Op>, run: Run): Run {
    run.(ops := ops + run.ops)
  }

  /**
   * Where a single file is put: into the remote path when `stat` found it and it
   * either has the mode 0o40755 or the path ends with a slash, else the path itself.
   */
  function PutTarget(attr: Option<Entry>, local: string, remote: string): string {
    if attr.Some? && (LooksLikeDir(attr.value.mode) || EndsWithSlash(remote))
    then Join(remote, Basename(local))
    else remote
  }

  /**
   * The target is the remote path itself unless `stat` found it and it looks
   * like a directory; in that case, for a local path with a basename, the
   * target keeps the local basename, sits directly under the remote path and
   * has no trailing slash.
   */
  lemma PutTargetPlacement(attr: Option<Entry>, local: string, remote: string)
    ensures var target := PutTarget(attr, local, remote);
      && (!(attr.Some? && (LooksLikeDir(attr.value.mode) || EndsWithSlash(remote))) ==> target == remote)
      && (attr.Some? && (LooksLikeDir(attr.value.mode) || EndsWithSlash(remote)) && Basename(local) != "" ==>
            && Basename(target) == Basename(local)
            && Dirname(target) == StripTrailingSlashes(remote)
            && !EndsWithSlash(target))
  {
    if attr.Some? && (LooksLikeDir(attr.value.mode) || EndsWithSlash(remote)) && Basename(local) != "" {
      JoinName(remote, Basename(local));
    }
  }

  /**
   * The whole effect of `sftp_upload(sftp, local, remote)` when `node` is what
   * is at `local`. Every walk starts with a `stat`: of the destination for a
   * file, of the destination's parent otherwise.
   */
  function Upload(fs: Entries, node: Node, local: string, remote: string): (run: Run)
    decreases node
  {
    match node
    case File =>
      var target := PutTarget(Resolve(fs, remote), local, remote);
      var ops := [Stat(remote), Put(local, target)];
      if CanPut(fs, target) then Run(AfterPut(fs, target), ops, Done)
      else Run(fs, ops, Failed(PutRefused(local, target)))
    case Dir(children) =>
      var parent := Dirname(remote);
      if Resolve(fs, parent).None? then Run(fs, [Stat(parent)], Failed(ParentMissing(parent)))
      else Prepend([Stat(parent), Mkdir(remote)], UploadChildren(AfterSwallowedMkdir(fs, remote), children, local, remote))
    case Special =>
      var parent := Dirname(remote);
      if Resolve(fs, parent).None? then Run(fs, [Stat(parent)], Failed(ParentMissing(parent)))
      else Run(AfterSwallowedMkdir(fs, remote), [Stat(parent), Mkdir(remote)], Failed(NotADirectory(local)))
  }

  /** The remote file system after `mkdir(remote)` whose failure is ignored. */
  function AfterSwallowedMkdir(fs: Entries, remote: string): Entries {
    if CanMkdir(fs, remote) then AfterMkdir(fs, remote) else fs
  }

  /**
   * The loop over the listing: each entry in turn, stopping at the first
   * failure. It makes a call exactly when the listing is not empty.
   */
  function UploadChildren(fs: Entries, children: seq<(string, Node)>, local: string, remote: string): (run: Run)
    decreases children
  {
    if children == [] then Run(fs, [], Done)
    else
      assert children[0] in children && children[0].1 < children[0];
      var name := children[0].0;
      var first := Upload(fs, children[0].1, Join(local, name), Join(remote, name));
      if first.outcome.Failed? then first
      else Prepend(first.ops, UploadChildren(first.entries, children[1..], local, remote))
  }

  /**
   * `sftp_upload`: the recursive walk. A failed `stat` of a file's destination
   * and a failed `mkdir` are ignored; every other failure ends the walk at once.
   */
  method SftpUpload(sftp: Session, node: Node, local: string, remote: string) returns (outcome: Outcome)
    modifies sftp
    decreases node, 1
    ensures var run := Upload(old(sftp.entries), node, local, remote);
      && sftp.entries == run.entries
      && sftp.log == old(sftp.log) + run.ops
      && outcome == run.outcome
  {
    if node.File? {
      outcome := UploadFile(sftp, local, remote);
    } else {
      outcome := UploadDirectory(sftp, node, local, remote);
    }
  }

  /** The `os.path.isfile(local_path)` branch of `sftp_upload`. */
  method UploadFile(sftp: Session, local: string, remote: string) returns (outcome: Outcome)
    modifies sftp
    ensures var run := Upload(old(sftp.entries), File, local, remote);
      && sftp.entries == run.entries
      && sftp.log == old(sftp.log) + run.ops
      && outcome == run.outcome
  {
    var attr := sftp.Stat(remote);
    var target := remote;
    if attr.Some? && (LooksLikeDir(attr.value.mode) || EndsWithSlash(remote)) {
      target := Join(remote, Basename(local));
    }
    var ok := sftp.Put(local, target);
    outcome := if ok then Done else Failed(PutRefused(local, target));
  }

  /** The other branch of `sftp_upload`: check the remote parent, create the directory, walk the listing. */
  method UploadDirectory(sftp: Session, node: Node, local: string, remote: string) returns (outcome: Outcome)
    requires !node.File?
    modifies sftp
    decreases node, 0
    ensures var run := Upload(old(sftp.entries), node, local, remote);
      && sftp.entries == run.entries
      && sftp.log == old(sftp.log) + run.ops
      && outcome == run.outcome
  {
    ghost var fs := sftp.entries;
    var parent := Dirname(remote);
    var parentAttr := sftp.Stat(parent);
    if parentAttr.None? {
      return Failed(ParentMissing(parent));
    }
    var created := sftp.Mkdir(remote);
    ghost var prologue := sftp.log;
    assert prologue == old(sftp.log) + [Stat(parent), Mkdir(remote)];
    if node.Special? {
      return Failed(NotADirectory(local));
    }
    ghost var listing := UploadChildren(sftp.entries, node.children, local, remote);
    assert Upload(fs, node, local, remote) == Prepend([Stat(parent), Mkdir(remote)], listing);
    outcome := UploadListing(sftp, node.children, local, remote);
    AppendAssociates(old(sftp.log), [Stat(parent), Mkdir(remote)], listing.ops);
  }

  lemma AppendAssociates(a: seq<Op>, b: seq<Op>, c: seq<Op>)
    ensures a + b + c == a + (b + c)
  {
  }

  /** One step of the listing loop: the walk from entry `i` on is entry `i`, then (unless it failed) the rest. */
  lemma ListingStep(fs: Entries, children: seq<(string, Node)>, i: nat, local: string, remote: string)
    requires i < |children|
    ensures var name := children[i].0;
      var first := Upload(fs, children[i].1, Join(local, name), Join(remote, name));
      UploadChildren(fs, children[i..], local, remote)
        == if first.outcome.Failed? then first
           else Prepend(first.ops, UploadChildren(first.entries, children[i + 1..], local, remote))
  {
    assert children[i..][0] == children[i] && children[i..][1..] == children[i + 1..];
  }

  /** The `for item in os.listdir(local_path)` loop of `sftp_upload`. */
  method UploadListing(sftp: Session, children: seq<(string, Node)>, local: string, remote: string)
    returns (outcome: Outcome)
    modifies sftp
    decreases children, 2
    ensures var run := UploadChildren(old(sftp.entries), children, local, remote);
      && sftp.entries == run.entries
      && sftp.log == old(sftp.log) + run.ops
      && outcome == run.outcome
  {
    ghost var whole := UploadChildren(sftp.entries, children, local, remote);
    var i := 0;
    assert children[0..] == children;
    while i < |children|
      invariant 0 <= i <= |children|
      invariant var rest := UploadChildren(sftp.entries, children[i..], local, remote);
        && rest.entries == whole.entries
        && rest.outcome == whole.outcome
        && sftp.log + rest.ops == old(sftp.log) + whole.ops
    {
      var name := children[i].0;
      assert children[i] in children && children[i].1 < children[i];
      ghost var before := sftp.entries;
      ghost var logBefore := sftp.log;
      ListingStep(before, children, i, local, remote);
      outcome := SftpUpload(sftp, children[i].1, Join(local, name), Join(remote, name));
      if outcome.Failed? {
        return;
      }
      ghost var first := Upload(before, children[i].1, Join(local, name), Join(remote, name));
      ghost var next := UploadChildren(sftp.entries, children[i + 1..], local, remote);
      AppendAssociates(logBefore, first.ops, next.ops);
      i := i + 1;
    }
    outcome := Done;
  }
}
