/**
 * The checks `main` makes on its settings before it connects: PORT must be a
 * number, PASSWORD, SSH, SOURCE and DESTINATION must all be set and non-empty,
 * SSH must contain an `@`, SOURCE must exist locally, and a directory source
 * needs a DESTINATION ending with `/` while a file source needs one without.
 * Each `sys.exit(1)` becomes its own error.
 */
module Settings {
  import opened Wrappers
  import opened PosixPath
  import opened LocalFs

  /** `os.getenv("PORT", 22)` after `int(...)`: unset, a number, or text `int` rejects. */
  datatype PortSetting = Unset | Number(value: int) | Unparsable

  /** The environment as `main` reads it. */
  datatype Env = Env(
    password: Option<string>,
    ssh: Option<string>,
    source: Option<string>,
    destination: Option<string>,
    port: PortSetting)

  const DefaultPort: int := 22

  /** The connection parameters and paths `main` goes on with. */
  datatype Config = Config(
    username: string,
    host: string,
    password: string,
    port: int,
    source: string,
    destination: string)

  datatype ConfigError =
    | BadPort                          // `int(...)` raised before any other check
    | MissingValues(names: seq<string>)
    | MalformedSsh
    | SourceNotFound(source: string)
    | DestinationNotDirectory          // the source is a directory, the destination lacks a trailing slash
    | DestinationNotFile               // the source is a file, the destination has a trailing slash

  /** `not val`: unset or empty. */
  predicate IsMissing(value: Option<string>) {
    value.None? || value.value == ""
  }

  /** The four required settings, in the order `main` checks them. */
  function Required(env: Env): seq<(string, Option<string>)> {
    [("PASSWORD", env.password), ("SSH", env.ssh), ("SOURCE", env.source), ("DESTINATION", env.destination)]
  }

  predicate AllPresent(env: Env) {
    !IsMissing(env.password) && !IsMissing(env.ssh) && !IsMissing(env.source) && !IsMissing(env.destination)
  }

  /** The names of the missing settings, in order. */
  function MissingNames(vars: seq<(string, Option<string>)>): (names: seq<string>)
    ensures |names| <= |vars|
    ensures names == [] <==> forall i :: 0 <= i < |vars| ==> !IsMissing(vars[i].1)
  {
    if vars == [] then []
    else
      var last := vars[|vars| - 1];
      MissingNames(vars[..|vars| - 1]) + (if IsMissing(last.1) then [last.0] else [])
  }

  /** The `for var, val in [...]: if not val: missing.append(var)` loop. */
  method CollectMissing(vars: seq<(string, Option<string>)>) returns (missing: seq<string>)
    ensures missing == MissingNames(vars)
  {
    missing := [];
    var i := 0;
    while i < |vars|
      invariant 0 <= i <= |vars|
      invariant missing == MissingNames(vars[..i])
    {
      var (name, value) := vars[i];
      assert vars[..i + 1][..i] == vars[..i];
      if IsMissing(value) {
        missing := missing + [name];
      }
      i := i + 1;
    }
    assert vars[..|vars|] == vars;
  }

  /**
   * The missing list names exactly the unset or empty settings among PASSWORD,
   * SSH, SOURCE and DESTINATION, in that order; it is empty exactly when all four are set.
   */
  lemma MissingNamesExactly(env: Env)
    ensures MissingNames(Required(env))
      == (if IsMissing(env.password) then ["PASSWORD"] else [])
       + (if IsMissing(env.ssh) then ["SSH"] else [])
       + (if IsMissing(env.source) then ["SOURCE"] else [])
       + (if IsMissing(env.destination) then ["DESTINATION"] else [])
    ensures MissingNames(Required(env)) == [] <==> AllPresent(env)
  {
    var r := Required(env);
    var a := if IsMissing(env.password) then ["PASSWORD"] else [];
    var b := if IsMissing(env.ssh) then ["SSH"] else [];
    var c := if IsMissing(env.source) then ["SOURCE"] else [];
    assert r[..1][..0] == [] && r[..2][..1] == r[..1] && r[..3][..2] == r[..2] && r[..3] == r[..|r| - 1];
    assert MissingNames(r[..1]) == a;
    assert MissingNames(r[..2]) == a + b;
    assert MissingNames(r[..3]) == a + b + c;
  }

  /** The index of the first `@`. */
  function FirstAt(s: string): (i: nat)
    requires '@' in s
    ensures i < |s| && s[i] == '@' && '@' !in s[..i]
  {
    if s[0] == '@' then 0
    else
      assert s == [s[0]] + s[1..];
      var i := 1 + FirstAt(s[1..]);
      assert s[..i] == [s[0]] + s[1..][..i - 1];
      i
  }

  /** `ssh_string.split('@', 1)`: the user before the first `@`, the host after it. */
  function SplitSsh(ssh: string): (string, string)
    requires '@' in ssh
  {
    var i := FirstAt(ssh);
    (ssh[..i], ssh[i + 1..])
  }

  /** Splitting at the first `@` is the one way to write SSH as `user@host` with no `@` in `user`. */
  lemma SplitSshUnique(ssh: string, username: string, host: string)
    requires '@' in ssh
    ensures SplitSsh(ssh) == (username, host) <==> ssh == username + "@" + host && '@' !in username
  {
    var i := FirstAt(ssh);
    assert ssh == ssh[..i] + "@" + ssh[i + 1..];
    if ssh == username + "@" + host && '@' !in username {
      var j := |username|;
      assert ssh[j] == '@' && ssh[..j] == username;
      assert i == j;
      assert ssh[j + 1..] == host;
    }
  }

  /** The trailing-slash rule: a directory source needs `.../`, a file source must not have it, anything else passes. */
  predicate DestinationFits(node: Node, destination: string) {
    match node
    case Dir(_) => EndsWithSlash(destination)
    case File => !EndsWithSlash(destination)
    case Special => true
  }

  function PortNumber(port: PortSetting): int
    requires !port.Unparsable?
  {
    if port.Number? then port.value else DefaultPort
  }

  /** The checks that follow the missing-values check (lines 60-81 of `main`); `local` tells what each local path is. */
  function CheckPresent(env: Env, local: string -> Option<Node>): Result<Config, ConfigError>
    requires !env.port.Unparsable? && AllPresent(env)
  {
    var ssh := env.ssh.value;
    if '@' !in ssh then Failure(MalformedSsh)
    else
      var (username, host) := SplitSsh(ssh);
      var source := env.source.value;
      var destination := env.destination.value;
      match local(source)
      case None => Failure(SourceNotFound(source))
      case Some(node) =>
        if node.Dir? && !EndsWithSlash(destination) then Failure(DestinationNotDirectory)
        else if node.File? && EndsWithSlash(destination) then Failure(DestinationNotFile)
        else Success(Config(username, host, env.password.value, PortNumber(env.port), source, destination))
  }

  /** Everything `main` checks before it connects, in its order. */
  function Validate(env: Env, local: string -> Option<Node>): (r: Result<Config, ConfigError>)
    ensures r.Success? ==> !env.port.Unparsable? && AllPresent(env) && local(r.value.source).Some?
    ensures r.Failure? && r.error.MissingValues? ==> r.error.names != []
  {
    if env.port.Unparsable? then Failure(BadPort)
    else
      var missing := MissingNames(Required(env));
      if missing != [] then Failure(MissingValues(missing))
      else
        MissingNamesExactly(env);
        CheckPresent(env, local)
  }

  /**
   * The settings are accepted exactly when PORT is a number or unset, all four
   * required values are set, SSH has an `@`, SOURCE exists and DESTINATION fits
   * it; the accepted configuration is SSH split at its first `@`, the port
   * (22 by default) and the settings as given.
   */
  lemma ValidateAccepts(env: Env, local: string -> Option<Node>)
    ensures Validate(env, local).Success? <==>
      && !env.port.Unparsable?
      && AllPresent(env)
      && '@' in env.ssh.value
      && local(env.source.value).Some?
      && DestinationFits(local(env.source.value).value, env.destination.value)
    ensures Validate(env, local).Success? ==>
      var cfg := Validate(env, local).value;
      && env.ssh.value == cfg.username + "@" + cfg.host
      && '@' !in cfg.username
      && cfg.port == (if env.port.Number? then env.port.value else 22)
      && cfg.password == env.password.value
      && cfg.source == env.source.value
      && cfg.destination == env.destination.value
  {
    MissingNamesExactly(env);
    if Validate(env, local).Success? {
      var cfg := Validate(env, local).value;
      SplitSshUnique(env.ssh.value, cfg.username, cfg.host);
    }
  }

  /**
   * Each rejection names the first check that failed, every earlier check
   * having passed: a bad PORT before anything, then the full missing list,
   * then SSH, then SOURCE, then the trailing-slash rule.
   */
  lemma ValidateRejects(env: Env, local: string -> Option<Node>)
    ensures var r := Validate(env, local);
      && (r == Failure(BadPort) <==> env.port.Unparsable?)
      && (r.Failure? && r.error.MissingValues? <==> !env.port.Unparsable? && !AllPresent(env))
      && (r.Failure? && r.error.MissingValues? ==> r.error.names == MissingNames(Required(env)) && r.error.names != [])
      && (r == Failure(MalformedSsh) <==> !env.port.Unparsable? && AllPresent(env) && '@' !in env.ssh.value)
      && (r.Failure? && r.error.SourceNotFound? <==>
            !env.port.Unparsable? && AllPresent(env) && '@' in env.ssh.value && local(env.source.value).None?)
      && (r.Failure? && r.error.SourceNotFound? ==> r.error.source == env.source.value)
      && (r == Failure(DestinationNotDirectory) <==>
            && !env.port.Unparsable? && AllPresent(env) && '@' in env.ssh.value
            && local(env.source.value).Some? && local(env.source.value).value.Dir?
            && !EndsWithSlash(env.destination.value))
      && (r == Failure(DestinationNotFile) <==>
            && !env.port.Unparsable? && AllPresent(env) && '@' in env.ssh.value
            && local(env.source.value) == Some(File)
            && EndsWithSlash(env.destination.value))
  {
    MissingNamesExactly(env);
  }
}
