/**
 * The remote side of the SFTP session: a server file system as a map from
 * canonical path to entry, and a session object that answers `stat`, `mkdir`
 * and `put` against it and records every call in a log.
 */
module Sftp {
  import opened Wrappers
  import opened PosixPath
  import opened FileMode

  /** What `stat` reports about an existing remote path. */
  datatype Entry = Entry(mode: nat)

  type Entries = map<string, Entry>

  /** One call the uploader makes on the session. */
  datatype Op =
    | Stat(path: string)
    | Mkdir(path: string)
    | Put(local: string, remote: string)

  /** The server stores each path without its trailing slashes ("/srv/app/" and "/srv/app" are one entry). */
  function Key(path: string): string {
    StripTrailingSlashes(path)
  }

  /** `stat(path)`: the entry at the path, where a path ending with a slash only names a directory. */
  function Resolve(fs: Entries, path: string): Option<Entry> {
    if Key(path) in fs && (!EndsWithSlash(path) || IsDirMode(fs[Key(path)].mode))
    then Some(fs[Key(path)])
    else None
  }

  predicate IsDirAt(fs: Entries, path: string) {
    Resolve(fs, path).Some? && IsDirMode(Resolve(fs, path).value.mode)
  }

  /** `mkdir(path)` succeeds when nothing is at the path yet and its parent is a directory. */
  predicate CanMkdir(fs: Entries, path: string) {
    Key(path) !in fs && IsDirAt(fs, Dirname(Key(path)))
  }

  /** `put(local, path)` succeeds when the path names a file position in an existing directory. */
  predicate CanPut(fs: Entries, path: string) {
    && path != ""
    && !EndsWithSlash(path)
    && IsDirAt(fs, Dirname(path))
    && (path !in fs || !IsDirMode(fs[path].mode))
  }

  /** A new directory, with the permissions the server grants by default. */
  function AfterMkdir(fs: Entries, path: string): Entries {
    fs[Key(path) := Entry(DirMode)]
  }

  /** A new file, or an existing file overwritten in place (its entry is kept). */
  function AfterPut(fs: Entries, path: string): Entries {
    if path in fs then fs else fs[path := Entry(RegularFileMode)]
  }

  /** Every entry of `fs` is still in `fs'`, unchanged. */
  ghost predicate Extends(fs: Entries, fs': Entries) {
    forall p :: p in fs ==> p in fs' && fs'[p] == fs[p]
  }

  /** An open SFTP session: the server's file system and the calls made so far. */
  class Session {
    var entries: Entries
    var log: seq<Op>

    constructor (initial: Entries)
      ensures entries == initial && log == []
    {
      entries := initial;
      log := [];
    }

    /** `sftp.stat(path)`; `None` stands for the IOError raised for a missing path. */
    method Stat(path: string) returns (attr: Option<Entry>)
      modifies this`log
      ensures attr == Resolve(entries, path)
      ensures log == old(log) + [Op.Stat(path)]
    {
      attr := Resolve(entries, path);
      log := log + [Op.Stat(path)];
    }

    /** `sftp.mkdir(path)`; `false` stands for the IOError it raises. */
    method Mkdir(path: string) returns (ok: bool)
      modifies this
      ensures ok == CanMkdir(old(entries), path)
      ensures entries == if ok then AfterMkdir(old(entries), path) else old(entries)
      ensures Extends(old(entries), entries)
      ensures log == old(log) + [Op.Mkdir(path)]
    {
      ok := CanMkdir(entries, path);
      if ok {
        entries := AfterMkdir(entries, path);
      }
      log := log + [Op.Mkdir(path)];
    }

    /** `sftp.put(local, path)`; `false` stands for the error it raises. */
    method Put(local: string, path: string) returns (ok: bool)
      modifies this
      ensures ok == CanPut(old(entries), path)
      ensures entries == if ok then AfterPut(old(entries), path) else old(entries)
      ensures ok ==> path in entries && !IsDirMode(entries[path].mode)
      ensures Extends(old(entries), entries)
      ensures log == old(log) + [Op.Put(local, path)]
    {
      ok := CanPut(entries, path);
      if ok {
        entries := AfterPut(entries, path);
      }
      log := log + [Op.Put(local, path)];
    }
  }
}
