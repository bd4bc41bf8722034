# lan-share uploader, modelled in Dafny

`main.py` of lan-share copies a local file or directory tree to a server over
SFTP. It does two things, and both are modelled here:

- **Checking the settings** (`main`, lines 44-81). PORT must parse. PASSWORD,
  SSH, SOURCE and DESTINATION must all be set and non-empty. SSH must contain
  an `@`, and it is split at the first one. SOURCE must exist. A directory
  source needs a DESTINATION ending with `/`; a file source needs one without.
- **Uploading** (`sftp_upload`, lines 6-41). It stats the remote path of a
  file and puts the file there, or into it when the stat succeeds and the mode
  is 0o40755 or the path ends with `/`. For a
  directory it stats the remote parent, calls `mkdir` and ignores any failure,
  then walks the listing depth first. The first failure ends the walk.

Modules:

- `PosixPath`: `os.path.join`, `basename` and `dirname` with `posixpath` semantics.
- `FileMode`: `st_mode` values and the uploader's test `str(st_mode).startswith('16877')`.
- `LocalFs`: the local tree as a value. A node is a regular file, a directory
  whose entries are in listing order, or anything else (a FIFO, a socket, a device).
- `Sftp`: the server as a map from path to entry. A `Session` class holds that
  map and the log of calls made on it. `stat`, `mkdir` and `put` are its methods.
- `Uploader`: `Upload` is a function that states the whole effect of a walk:
  the calls made, the server afterwards, and how the walk ended.
  `SftpUpload` is the walk itself, as methods on the session with a loop over
  the listing, and it is proved to have exactly the effect `Upload` states.
- `UploadProperties`: what the walk promises, proved about `Upload`.
- `Settings`: the checks `main` makes before it connects. `CollectMissing` is
  the loop that builds the missing list.
- `Launcher`: `main` as a whole: validate, connect, upload.
- `Scenarios`: worked runs: a two-level directory tree, a single file sent
  into a remote directory, and three settings that are rejected or accepted.

The server's behaviour is not defined by the program, so the model fixes one:

- A path is stored without its trailing slashes.
- A path ending with `/` names only a directory.
- `mkdir` succeeds when nothing is at the path and its parent is a directory.
  It creates mode 0o40755.
- `put` succeeds on a path with no trailing slash, inside a directory, that is
  not itself a directory. It creates mode 0o100644, or keeps the entry it overwrites.

Behaviours of the code worth knowing, all modelled as written:

- A directory is created with `mkdir` of the destination as given
  (`/srv/app/`, main.py:30). The parent stat'ed before it (main.py:23) is
  `dirname` of that path, which for `/srv/app/` is `/srv/app` itself. So
  although the comment at main.py:22 speaks of the parent, a destination
  ending with `/` must already exist.
- When the stat of a file's destination fails, the file is put at the
  destination unchanged (main.py:17-20), even when it ends with `/`.
- The message at main.py:62 asks for `user@host`, but the split at main.py:64
  is at the first `@` only, so SSH `a@b@c` is accepted as user `a` at host `b@c`.
- The remote path of a file sent into a directory is built by `os.path.join`
  (main.py:16), so no slash is doubled when the destination ends with `/`.

## Model

| member | source | states |
|---|---|---|
| PosixPath.Dirname | main.py:23 | `dirname` is the head up to the last slash, with its trailing slashes removed unless it is all slashes; its properties are `DirnamePrefix` and `JoinName` |
| PosixPath.DirnamePrefix | main.py:23 | `dirname` is a prefix of the path, and empty exactly when the path has no slash |
| PosixPath.Join | main.py:16 | `join(a, b)`: `b` when it is absolute, else `a`, a slash when `a` is non-empty and lacks one, then `b`; its properties are `JoinShape` and `JoinName` |
| PosixPath.JoinShape | main.py:16 | the result ends with `b`; an absolute `b` is the result; otherwise the result starts with `a`, and has one more character, a slash, exactly when `a` is non-empty and lacks a trailing slash |
| PosixPath.RStripSlashes | main.py:23 | the result is a prefix of the path with no trailing slash, and everything removed is `/` |
| PosixPath.HeadLength | main.py:23 | the head of a path ends at its last slash, and no slash follows it |
| PosixPath.Basename | main.py:16 | `basename` has no slash, is a suffix of the path, and starts right after the path's last slash (or at its start) |
| PosixPath.StripOfUnslashed | main.py:23 | stripping trailing slashes leaves a path without one unchanged |
| PosixPath.StripIdempotent | main.py:23 | stripping twice is stripping once; the result is a prefix, all slashes or free of a trailing one |
| PosixPath.StripAppendSlash | main.py:23 | one more trailing slash does not change the stripped form of a path that has a non-slash |
| PosixPath.DirnameOfSlashTerminated | main.py:23 | `dirname` of a path ending with `/` is the path without its trailing slashes |
| PosixPath.DirnameOfDirectoryDestination | main.py:22-25 | the parent stat'ed for a destination `x/` is `x` itself |
| PosixPath.JoinName | main.py:36-37 | joining an entry name onto a path gives a path whose `basename` is the name and whose `dirname` is the path, stripped |
| PosixPath.JoinNameStripped | main.py:36-37 | a path joined with an entry name has no trailing slash |
| FileMode.DecimalString | main.py:14 | `str(mode)` is a non-empty string of decimal digits, starting with `0` only for zero |
| FileMode.DecimalRoundTrip | main.py:14 | reading `str(mode)` back gives `mode` |
| FileMode.DecimalLengthBelow | main.py:14 | a number below 10^k has at most k digits |
| FileMode.LooksLikeDir | main.py:14 | the test `str(st_mode).startswith('16877')`; which modes pass it is `LooksLikeDirExactly` |
| FileMode.LooksLikeDirExactly | main.py:14 | among 16-bit modes, the `startswith('16877')` test holds exactly for 0o40755 |
| FileMode.DirModeLooksLikeDir | main.py:14 | 0o40755 passes the test and is a directory mode |
| FileMode.RegularFileModeIsNotDir | main.py:14 | a regular file 0o100644 is never taken for a directory |
| FileMode.GroupWritableDirMissed | main.py:14 | a directory with mode 0o40775 is not recognised by the test |
| Sftp.Session.constructor | main.py:89 | a fresh session has the given server and an empty call log |
| Sftp.Session.Stat | main.py:13 | `stat` answers the entry at the path, or fails; the server is unchanged and the call is logged |
| Sftp.Session.Mkdir | main.py:30 | `mkdir` succeeds exactly when the server allows it; on success the directory is added, otherwise nothing changes |
| Sftp.Session.Put | main.py:20 | `put` succeeds exactly when the server allows it; afterwards a non-directory entry is at the target |
| Uploader.PutTarget | main.py:14-16 | where one file is put: `join(remote, basename(local))` when stat found the path and its mode passes the test or it ends with `/`, else the path itself; its properties are `PutTargetPlacement` |
| Uploader.PutTargetPlacement | main.py:14-16 | the target is the path itself unless stat found a path that looks like a directory; then, for a local path with a basename, the target has that basename, its dirname is the path stripped, and it has no trailing slash |
| Uploader.Upload | main.py:6-41 | the reference definition of a whole walk (calls, final server, outcome) that `SftpUpload` is proved to follow and the `UploadProperties` lemmas are about |
| Uploader.UploadChildren | main.py:33-38 | the reference definition of the listing walk: each entry in order, stopping at the first failure |
| Uploader.SftpUpload | main.py:6-41 | the walk leaves the server as `Upload` says, appends exactly `Upload`'s calls to the log, and ends as `Upload` says |
| Uploader.UploadFile | main.py:10-20 | the file branch: stat, the choice of target, one put, a refused put becomes the error |
| Uploader.UploadDirectory | main.py:21-38 | the other branch: parent stat (a failure ends the walk), mkdir with its failure ignored, then the listing |
| Uploader.UploadListing | main.py:33-38 | the loop over the listing has exactly the effect of the listing walk `UploadChildren`, stopping at the first failure |
| Uploader.ListingStep | main.py:33-38 | the walk from entry i on is entry i, then, unless entry i failed, the rest |
| UploadProperties.FileIntoRemoteDirectory | main.py:11-20 | when stat finds the destination and it has mode 0o40755 or ends with `/`, the put goes to `join(remote, basename(local))` and succeeds into a directory |
| UploadProperties.FileOntoExisting | main.py:11-20 | when stat finds the path, its mode fails the test and it has no `/`, the put goes to the path itself and succeeds exactly when the server accepts it; an existing regular file in a directory is overwritten with no new entry |
| UploadProperties.FileWhenStatFails | main.py:11-20 | when stat fails, the put goes to the destination unchanged; with a trailing `/` it is refused |
| UploadProperties.UnrecognisedDirectoryRefused | main.py:14-20 | a 0o40775 directory named without `/` gets the put onto itself, which fails |
| UploadProperties.DirectoryNeedsRemoteParent | main.py:22-28 | a missing remote parent ends a directory upload after one stat: no mkdir, no put, server unchanged |
| UploadProperties.SlashDestinationMustExist | main.py:22-28 | for a destination `x/`, `x` itself must already exist |
| UploadProperties.MkdirFailureIgnored | main.py:29-38 | a failed mkdir changes nothing, and the whole listing is still walked |
| UploadProperties.ListingConcat | main.py:33-41 | walking `a + b` is walking `a`, then, unless it failed, `b` from where `a` left the server |
| UploadProperties.FailureSkipsLaterEntries | main.py:33-41 | once an entry fails, no later entry is touched |
| UploadProperties.FailureIsLastCall | main.py:17-41 | a failed walk stopped right at the failing call: the missing-parent stat, the refused put, or the mkdir before an unreadable listing |
| UploadProperties.ListingFailureIsLastCall | main.py:33-41 | the same for the listing walk |
| UploadProperties.UploadStartsWithStat | main.py:10-25 | every walk starts with a stat: of the destination for a file, of its parent otherwise |
| UploadProperties.ListingCallsIffNonEmpty | main.py:33-38 | the listing walk makes a call exactly when the listing is non-empty |
| UploadProperties.UploadExtends | main.py:6-41 | the walk only adds entries to the server and never changes one |
| UploadProperties.ListingExtends | main.py:33-38 | the same for the listing walk |
| UploadProperties.ResolveStable | main.py:13 | what stat finds stays found, unchanged, while entries are only added |
| UploadProperties.CallsAppend | main.py:6-41 | the mkdir and put calls of two logs concatenated are those of each, in order |
| UploadProperties.FollowsAppend | main.py:33-38 | two call sequences that each follow their plan, concatenated, follow the concatenated plans |
| UploadProperties.SuccessFollowsMirror | main.py:10-38 | a successful walk makes one mkdir per local directory and one put per local file, in listing order, at the mirrored remote paths |
| UploadProperties.SuccessFollowsMirrorListing | main.py:33-38 | the same for the listing walk |
| UploadProperties.PutCountAppend | main.py:20 | the put count of two logs concatenated is the sum |
| UploadProperties.SuccessPutsEveryFile | main.py:10-38 | a successful walk makes exactly as many puts as the local tree has regular files |
| UploadProperties.SuccessPutsEveryFileListing | main.py:33-38 | the same for the listing walk |
| UploadProperties.RerunAfterSuccess | main.py:29-32 | after a success, the same walk on that server or any larger one repeats the calls, changes nothing and succeeds |
| UploadProperties.RerunListingAfterSuccess | main.py:33-38 | the same for the listing walk |
| UploadProperties.ReuploadIsIdempotent | main.py:29-32 | uploading the same tree twice: the second run succeeds with the same calls and leaves the server as the first left it |
| UploadProperties.KeyIdempotent | main.py:23 | the stored form of a stored path is itself |
| Settings.MissingNames | main.py:52-55 | the missing list is empty exactly when every value is set and non-empty |
| Settings.CollectMissing | main.py:52-55 | the loop builds exactly the missing list |
| Settings.MissingNamesExactly | main.py:52-58 | the missing list names the unset or empty ones among PASSWORD, SSH, SOURCE, DESTINATION, in that order |
| Settings.SplitSsh | main.py:64 | `split('@', 1)`: the text before the first `@` and the text after it; its properties are `SplitSshUnique` |
| Settings.FirstAt | main.py:64 | the index of the first `@` |
| Settings.SplitSshUnique | main.py:60-64 | splitting at the first `@` gives the one (user, host) with `ssh == user + "@" + host` and no `@` in user |
| Settings.CheckPresent | main.py:60-81 | the checks after the missing list: SSH has an `@`, SOURCE exists, DESTINATION fits it, in that order; the accepted config is built here. Their outcomes are stated by `ValidateAccepts` and `ValidateRejects` |
| Settings.Validate | main.py:44-81 | every check before connecting, in order; an accepted config has PORT parsed, all four values set and an existing source, and a missing-values error names at least one setting |
| Settings.ValidateAccepts | main.py:44-81 | settings are accepted exactly when every check passes; the config is SSH split at its first `@`, the port (22 by default) and the given values |
| Settings.ValidateRejects | main.py:44-81 | each rejection is the first failing check, in the program's order, with all earlier checks passed |
| Launcher.Transfer | main.py:44-96 | nothing reaches the server unless validation passes and the connection is accepted; then the server and log are those of `Upload` on the source |
| Scenarios.TwoLevelTreeCalls | main.py:21-38 | a tree `a`, `sub/b` sent to an existing `dst/`: stat `dst`, mkdir `dst/` (ignored), stat+put `a`, stat `dst`+mkdir `sub`, stat+put `sub/b` |
| Scenarios.FileIntoSlashedDirectory | main.py:10-20 | a file sent to `dir/`, where `dir` is a directory, is put at `dir/` joined with its basename, and the server gains exactly that file |
| Scenarios.FileIntoDirectoryCall | main.py:10-20 | `/tmp/file.txt` sent to `/srv/uploads/` is put at `/srv/uploads/file.txt` |
| Scenarios.DirectoryWithoutSlashRejected | main.py:71-76 | a directory source with destination `/srv/app` is rejected |
| Scenarios.AllMissingReported | main.py:52-58 | every missing setting is reported, in order |
| Scenarios.AcceptedConfiguration | main.py:60-64 | `deploy@host@lan` is accepted as user `deploy` at host `host@lan`, port 22 |

## Left out

- The SSH connection: `paramiko` `SSHClient`, `AutoAddPolicy`, `connect` and `open_sftp`. `Launcher.Transfer` takes whether the server accepts the validated config as a parameter, and takes the opened session as a parameter.
- `sftp.close()` and `ssh.close()`. The program does not close anything when a transfer fails, and the model does not track open sessions.
- `load_dotenv` and `os.getenv`: the environment is given as optional strings.
- `int(...)` on PORT: the model takes the result (unset, a number, or text `int` rejects) and does not model Python's integer parsing. A PORT `int` rejects fails before the missing-values check, as in the program.
- The `print` messages and `sys.exit(1)`: each exit is a distinct error value.
- File contents and the bytes transferred: `put` records its target path and creates an entry.
- The server's own rules are a modelling choice, listed above. Real servers may differ, for example on permissions or on `mkdir` of a path with a trailing slash.
- Errors of `stat` other than the missing path. A failing `os.listdir` on a directory (for example, permission denied) is not modelled: a directory's listing is always available. Only a node that is neither file nor directory fails there.
- Sftp.Session.Put fails only when the server refuses the target (`CanPut`). A `put` that fails because the local file cannot be opened or read, for example permission denied, is not modelled; in the program it also raises at main.py:20 and ends the walk through main.py:39-41.
- UploadProperties.FailureIsLastCall: its `PutRefused` case states that the refused put still fails on the final server; that holds only because a `put` fails for server reasons alone, as in the line above.
- Entry names: the listing's names are arbitrary strings in the model. Lemmas that need a real entry name (non-empty, no `/`) require it.
- Local changes during a walk: the local tree is a value read once, so files changing while the walk runs are not modelled.
- `os.path.exists` and `os.path.isdir` on symbolic links: the local side is a function from path to node, so link resolution is not modelled.
- Port range: the port is an unbounded integer. Any range check belongs to `connect`, which is left out.
