/** The command composition of pgo-backrest/pgo-backrest.go: the checks on the environment,
    the mapping of a task command to a pgBackRest command line, and the S3 options. */
module PgoBackrest {
  import opened Common
  import opened Strings

  const BackrestCommand := "pgbackrest"
  const BackrestBackupCommand := "backup"
  const BackrestInfoCommand := "info"
  const BackrestStanzaCreateCommand := "stanza-create"
  const ContainerName := "database"
  const RepoTypeFlagS3 := "--repo-type=s3"
  const ExitUsage := 2

  /** The task commands `crv1.PgtaskBackrestStanzaCreate`, `...Info` and `...Backup`, whose
      values are defined outside the modelled files. */
  datatype TaskCommands = TaskCommands(stanzaCreate: string, info: string, backup: string)

  predicate Distinct(tasks: TaskCommands)
  {
    tasks.stanzaCreate != tasks.info && tasks.stanzaCreate != tasks.backup && tasks.info != tasks.backup
  }

  /** The environment as the program reads it. `localS3Storage` is the result of
      strconv.ParseBool on PGHA_PGBACKREST_LOCAL_S3_STORAGE, false when that fails. */
  datatype Env = Env(
    namespace: string,
    command: string,
    commandOpts: string,
    podName: string,
    repoType: string,
    localS3Storage: bool)

  /** Either an exec of `shell` in a container of a pod, with `script` on its standard input,
      or an exit with a status code before anything is run. */
  datatype Outcome =
    | Exec(shell: seq<string>, container: string, podName: string, namespace: string, script: string)
    | Exit(code: int)

  /** The pgBackRest sub-command a task command selects, if it is one of the three. */
  function Subcommand(tasks: TaskCommands, command: string): (sub: Option<string>)
  {
    if command == tasks.stanzaCreate then Some(BackrestStanzaCreateCommand)
    else if command == tasks.info then Some(BackrestInfoCommand)
    else if command == tasks.backup then Some(BackrestBackupCommand)
    else None
  }

  /** The S3 options added after the base command. */
  function WithS3Options(base: seq<string>, env: Env): (line: seq<string>)
  {
    if env.localS3Storage then base + ["&&", Join(base, " "), RepoTypeFlagS3]
    else if env.repoType == "s3" then base + [RepoTypeFlagS3]
    else base
  }

  /** The command line, or None for an unsupported task command. */
  function CommandLine(tasks: TaskCommands, env: Env): (line: Option<seq<string>>)
  {
    match Subcommand(tasks, env.command)
    case None => None
    case Some(sub) => Some(WithS3Options([BackrestCommand, sub, env.commandOpts], env))
  }

  predicate MissingSetting(env: Env)
  {
    env.namespace == "" || env.command == "" || env.podName == ""
  }

  /** What the program does with an environment. */
  function Dispatch(tasks: TaskCommands, env: Env): (outcome: Outcome)
  {
    if MissingSetting(env) then Exit(ExitUsage)
    else
      match CommandLine(tasks, env)
      case None => Exit(ExitUsage)
      case Some(cmd) => Exec(["bash"], ContainerName, env.podName, env.namespace, Join(cmd, " "))
  }

  /** `main` between reading the environment and the exec call, appending to the command
      line one word at a time. */
  method Run(tasks: TaskCommands, env: Env) returns (outcome: Outcome)
    ensures outcome == Dispatch(tasks, env)
  {
    if env.namespace == "" {
      return Exit(ExitUsage);
    }
    if env.command == "" {
      return Exit(ExitUsage);
    }
    if env.podName == "" {
      return Exit(ExitUsage);
    }

    var bashcmd := ["bash"];
    var cmdStrs: seq<string> := [];
    if env.command == tasks.stanzaCreate {
      cmdStrs := cmdStrs + [BackrestCommand];
      cmdStrs := cmdStrs + [BackrestStanzaCreateCommand];
      cmdStrs := cmdStrs + [env.commandOpts];
    } else if env.command == tasks.info {
      cmdStrs := cmdStrs + [BackrestCommand];
      cmdStrs := cmdStrs + [BackrestInfoCommand];
      cmdStrs := cmdStrs + [env.commandOpts];
    } else if env.command == tasks.backup {
      cmdStrs := cmdStrs + [BackrestCommand];
      cmdStrs := cmdStrs + [BackrestBackupCommand];
      cmdStrs := cmdStrs + [env.commandOpts];
    } else {
      return Exit(ExitUsage);
    }
    assert cmdStrs == [BackrestCommand, Subcommand(tasks, env.command).value, env.commandOpts];

    if env.localS3Storage {
      var firstCmd := cmdStrs;
      cmdStrs := cmdStrs + ["&&"];
      cmdStrs := cmdStrs + [Join(firstCmd, " ")];
      cmdStrs := cmdStrs + [RepoTypeFlagS3];
      assert cmdStrs == firstCmd + ["&&", Join(firstCmd, " "), RepoTypeFlagS3];
    } else if env.repoType == "s3" {
      cmdStrs := cmdStrs + [RepoTypeFlagS3];
    }

    outcome := Exec(bashcmd, ContainerName, env.podName, env.namespace, Join(cmdStrs, " "));
  }

  // ---------------------------------------------------------------- properties

  /** An empty NAMESPACE, COMMAND or PODNAME exits with status 2 before any command is
      built; an empty COMMAND_OPTS does not stop a supported command. */
  lemma RequiredSettings(tasks: TaskCommands, env: Env)
    ensures MissingSetting(env) ==> Dispatch(tasks, env) == Exit(ExitUsage)
    ensures !MissingSetting(env) && Subcommand(tasks, env.command).Some? ==> Dispatch(tasks, env).Exec?
  {
  }

  /** The three task commands select `stanza-create`, `info` and `backup`, and nothing else is
      accepted. */
  lemma SubcommandChoice(tasks: TaskCommands, command: string)
    requires Distinct(tasks)
    ensures Subcommand(tasks, command) == Some(BackrestStanzaCreateCommand) <==> command == tasks.stanzaCreate
    ensures Subcommand(tasks, command) == Some(BackrestInfoCommand) <==> command == tasks.info
    ensures Subcommand(tasks, command) == Some(BackrestBackupCommand) <==> command == tasks.backup
    ensures Subcommand(tasks, command).None? <==> command !in {tasks.stanzaCreate, tasks.info, tasks.backup}
  {
  }

  /** Any other COMMAND exits with status 2 and runs nothing. */
  lemma UnsupportedCommandExits(tasks: TaskCommands, env: Env)
    requires env.command != tasks.stanzaCreate && env.command != tasks.info && env.command != tasks.backup
    ensures Dispatch(tasks, env) == Exit(ExitUsage)
  {
  }

  /** Every command line starts with `pgbackrest <sub> COMMAND_OPTS`. */
  lemma CommandLineBase(tasks: TaskCommands, env: Env)
    ensures var cmd := CommandLine(tasks, env);
      cmd.Some? ==> |cmd.value| >= 3 && cmd.value[..3] == [BackrestCommand, Subcommand(tasks, env.command).value, env.commandOpts]
  {
  }

  /** With local S3 storage the command is run twice, joined by `&&`: first as it is, then
      once more with the S3 flag; PGBACKREST_REPO_TYPE is then ignored. */
  lemma LocalS3RunsTwice(tasks: TaskCommands, env: Env, repoType: string)
    requires env.localS3Storage && Subcommand(tasks, env.command).Some?
    ensures var base := [BackrestCommand, Subcommand(tasks, env.command).value, env.commandOpts];
      var cmd := CommandLine(tasks, env).value;
      && cmd == base + ["&&", Join(base, " "), RepoTypeFlagS3]
      && |cmd| == 6
      && CommandLine(tasks, env.(repoType := repoType)) == CommandLine(tasks, env)
      && Join(cmd, " ") == Join(base, " ") + " && " + Join(base, " ") + " " + RepoTypeFlagS3
  {
    var base := [BackrestCommand, Subcommand(tasks, env.command).value, env.commandOpts];
    var tail := ["&&", Join(base, " "), RepoTypeFlagS3];
    JoinAppend(base, tail, " ");
    assert tail[1..] == [Join(base, " "), RepoTypeFlagS3];
    assert tail[1..][1..] == [RepoTypeFlagS3];
    assert Join(tail[1..][1..], " ") == RepoTypeFlagS3;
    assert Join(tail[1..], " ") == Join(base, " ") + " " + RepoTypeFlagS3;
    assert Join(tail, " ") == "&&" + " " + (Join(base, " ") + " " + RepoTypeFlagS3);
  }

  /** Without local S3 storage the flag is added exactly when the repository type is "s3". */
  lemma RepoTypeFlag(tasks: TaskCommands, env: Env)
    requires !env.localS3Storage && Subcommand(tasks, env.command).Some?
    ensures var base := [BackrestCommand, Subcommand(tasks, env.command).value, env.commandOpts];
      CommandLine(tasks, env).value == if env.repoType == "s3" then base + [RepoTypeFlagS3] else base
  {
  }

  /** The script is the space-joined command line, run through `bash` in container "database"
      of the named pod. */
  lemma ExecTarget(tasks: TaskCommands, env: Env)
    ensures var outcome := Dispatch(tasks, env);
      outcome.Exec? ==>
        && CommandLine(tasks, env).Some?
        && outcome == Exec(["bash"], "database", env.podName, env.namespace, Join(CommandLine(tasks, env).value, " "))
        && env.podName != "" && env.namespace != ""
  {
  }

  /** A string holds `&&`. */
  predicate HasConjunction(s: string)
  {
    exists i :: 0 <= i < |s| - 1 && s[i] == '&' && s[i + 1] == '&'
  }

  /** A prefix without '&' adds no `&&`. */
  lemma ConjunctionInSuffix(p: string, q: string)
    requires '&' !in p
    ensures HasConjunction(p + q) <==> HasConjunction(q)
  {
    if HasConjunction(p + q) {
      var i :| 0 <= i < |p + q| - 1 && (p + q)[i] == '&' && (p + q)[i + 1] == '&';
      assert q[i - |p|] == '&' && q[i - |p| + 1] == '&';
    }
    if HasConjunction(q) {
      var j :| 0 <= j < |q| - 1 && q[j] == '&' && q[j + 1] == '&';
      assert (p + q)[j + |p|] == '&' && (p + q)[j + |p| + 1] == '&';
    }
  }

  /** In the local-S3 case the copied command holds `&&` only when COMMAND_OPTS does: joining
      the snapshot taken before `&&` was appended does not pick it up. */
  lemma SnapshotWithoutConjunction(tasks: TaskCommands, env: Env)
    requires env.localS3Storage && Subcommand(tasks, env.command).Some?
    ensures HasConjunction(CommandLine(tasks, env).value[4]) <==> HasConjunction(env.commandOpts)
  {
    var sub := Subcommand(tasks, env.command).value;
    var base := [BackrestCommand, sub, env.commandOpts];
    assert base[1..] == [sub, env.commandOpts];
    assert base[1..][1..] == [env.commandOpts];
    var head := BackrestCommand + " " + sub + " ";
    assert Join(base[1..][1..], " ") == env.commandOpts;
    assert Join(base[1..], " ") == sub + " " + env.commandOpts;
    assert Join(base, " ") == head + env.commandOpts;
    assert '&' !in head;
    ConjunctionInSuffix(head, env.commandOpts);
  }
}
