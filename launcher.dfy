/**
 * `main`: validate the settings, connect, upload the source to the
 * destination. The connection itself is outside the model: `connect` says
 * whether the server accepts the validated host, port, user and password, and
 * `sftp` is the session the connection opens on the remote file system.
 */
module Launcher {
  import opened Wrappers
  import opened LocalFs
  import opened Sftp
  import opened Uploader
  import opened Settings

  /** How `main` ends: normally, or with one of the errors behind its `sys.exit(1)`. */
  datatype Exit =
    | Completed
    | Rejected(reason: ConfigError)
    | ConnectFailed
    | TransferFailed(cause: UploadError)

  /**
   * The settings are checked in full before anything touches the server; a
   * rejected configuration or a refused connection leaves the remote file system
   * and the call log as they were; otherwise the transfer is the walk `Upload`
   * describes, from the source that validation found.
   */
  method Transfer(env: Env, local: string -> Option<Node>, connect: Config -> bool, sftp: Session)
    returns (exit: Exit)
    modifies sftp
    ensures Validate(env, local).Failure? ==>
      && exit == Rejected(Validate(env, local).error)
      && sftp.entries == old(sftp.entries) && sftp.log == old(sftp.log)
    ensures Validate(env, local).Success? && !connect(Validate(env, local).value) ==>
      && exit == ConnectFailed
      && sftp.entries == old(sftp.entries) && sftp.log == old(sftp.log)
    ensures Validate(env, local).Success? && connect(Validate(env, local).value) ==>
      var cfg := Validate(env, local).value;
      && local(cfg.source).Some?
      && var run := Upload(old(sftp.entries), local(cfg.source).value, cfg.source, cfg.destination);
      && sftp.entries == run.entries
      && sftp.log == old(sftp.log) + run.ops
      && exit == (if run.outcome.Done? then Completed else TransferFailed(run.outcome.error))
  {
    if env.port.Unparsable? {
      return Rejected(BadPort);
    }
    var missing := CollectMissing(Required(env));
    if missing != [] {
      return Rejected(MissingValues(missing));
    }
    MissingNamesExactly(env);
    var checked := CheckPresent(env, local);
    if checked.Failure? {
      return Rejected(checked.error);
    }
    var cfg := checked.value;
    if !connect(cfg) {
      return ConnectFailed;
    }
    ValidateAccepts(env, local);
    var node := local(cfg.source).value;
    var outcome := SftpUpload(sftp, node, cfg.source, cfg.destination);
    exit := if outcome.Done? then Completed else TransferFailed(outcome.error);
  }
}
