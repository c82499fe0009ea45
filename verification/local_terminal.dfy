/** The local terminal tool: its registries, `validate_command`,
    `execute_terminal_command` with the process spawn abstracted to its
    outcome, and `list_allowed_commands`. */
module LocalTerminal {
  import opened Base
  import opened Text
  import opened Policy
  import opened Execution

  const AllowedCommands: Registry := [
    ("dir", "列出目录内容"),
    ("ls", "列出目录内容"),
    ("pwd", "显示当前工作目录"),
    ("echo", "显示文本"),
    ("python", "执行Python脚本"),
    ("pip", "包管理器"),
    ("git", "版本控制"),
    ("conda", "环境管理")
  ]

  const BlockedCommands: set<string> := {
    "rm", "del", "remove",
    "format", "mkfs",
    "shutdown", "reboot",
    ">", ">>",
    "wget", "curl",
    "sudo", "su"
  }

  const BlockedMessage := "危险命令被拦截: "
  const UnknownMessage := "未知命令被拦截: "

  /** `validate_command`: returns True or raises, never returns False; a
      rejection raises `TerminalSecurityError` naming the blocked token or the
      unknown command name, and a command with no token raises `IndexError`. */
  function ValidateCommand(order: seq<string>, command: string): (r: Result<bool, PyError>)
    requires Enumerates(order, BlockedCommands)
    ensures r.Ok? ==> r.value
    ensures var d := Decide(AllowedCommands, BlockedCommands, order, command);
      && (r.Ok? <==> d.Allowed?)
      && (d.Blocked? ==> r == Err(TerminalSecurityError(BlockedMessage + d.token)))
      && (d.Unknown? ==> r == Err(TerminalSecurityError(UnknownMessage + d.name)))
      && (d.NoCommandName? ==> r == Err(IndexError))
  {
    match Decide(AllowedCommands, BlockedCommands, order, command)
    case Allowed => Ok(true)
    case Blocked(t) => Err(TerminalSecurityError(BlockedMessage + t))
    case Unknown(name) => Err(TerminalSecurityError(UnknownMessage + name))
    case NoCommandName => Err(IndexError)
  }

  /** What `subprocess.Popen(...).communicate(timeout=...)` produced. */
  datatype SpawnOutcome =
    | Completed(out: string, err: string, code: int)
    | TimedOut                      // `TimeoutExpired`; the process is then killed
    | Raised(msg: string)           // any other exception, e.g. a missing working directory

  /** The process the tool asks the operating system to start. */
  datatype SpawnRequest = SpawnRequest(command: string, cwd: string)

  /** One call of the tool: the spawn it made, if any, and the dict it returned. */
  datatype LocalRun = LocalRun(spawned: Option<SpawnRequest>, result: ExecResult)

  /** `working_dir or os.getcwd()`: an empty string is falsy and also falls back. */
  function EffectiveDir(workingDir: Option<string>, cwd: string): (d: string)
    ensures workingDir.Some? && workingDir.value != "" ==> d == workingDir.value
    ensures workingDir.None? || workingDir.value == "" ==> d == cwd
  {
    match workingDir
    case Some(w) => if w != "" then w else cwd
    case None => cwd
  }

  /** `execute_terminal_command`. `cwd` stands for `os.getcwd()` and `outcome`
      for what the spawned process did; `outcome` is consulted only if the
      command passed validation. */
  function ExecuteTerminalCommand(
    order: seq<string>, command: string, timeout: Option<int>,
    workingDir: Option<string>, cwd: string, outcome: SpawnOutcome): (run: LocalRun)
    requires Enumerates(order, BlockedCommands)
    // validation precedes the spawn: only accepted commands reach the OS
    ensures run.spawned.Some? <==> ValidateCommand(order, command).Ok?
    ensures run.spawned.Some? ==> run.spawned.value == SpawnRequest(command, EffectiveDir(workingDir, cwd))
    // only a completed process yields the command and working_dir keys
    ensures run.result.command.Some? <==> run.spawned.Some? && outcome.Completed?
    ensures run.result.command.Some? ==>
      && run.result.command.value == command
      && run.result.workingDir == Some(EffectiveDir(workingDir, cwd))
      && run.result.returnCode == outcome.code
      && run.result.stdout == outcome.out && run.result.stderr == outcome.err
    // every other path is a failure record whose prefix names its handler
    ensures run.result.command.None? ==> IsFailure(run.result)
  {
    match ValidateCommand(order, command)
    case Err(e) =>
      var category := if e.TerminalSecurityError? then Security else ExecutionError;
      LocalRun(None, Failure(category, e.Text()))
    case Ok(_) =>
      var dir := EffectiveDir(workingDir, cwd);
      var result :=
        match outcome
        case Completed(out, err, code) => ExecResult(out, err, code, Some(command), Some(dir))
        case TimedOut => Failure(Timeout, TimeoutDetail(timeout))
        case Raised(msg) => Failure(ExecutionError, msg);
      LocalRun(Some(SpawnRequest(command, dir)), result)
  }

  /** A failure's stderr prefix tells the caller which handler produced it:
      security for policy rejections, timeout for an expired wait, execution
      error for a command with no token and for any other exception. */
  lemma FailureCategories(
    order: seq<string>, command: string, timeout: Option<int>,
    workingDir: Option<string>, cwd: string, outcome: SpawnOutcome)
    requires Enumerates(order, BlockedCommands)
    ensures var run := ExecuteTerminalCommand(order, command, timeout, workingDir, cwd, outcome);
      var d := Decide(AllowedCommands, BlockedCommands, order, command);
      && ((d.Blocked? || d.Unknown?) <==> Classify(run.result.stderr) == Some(Security) && run.spawned.None?)
      && (d.NoCommandName? ==> run.result == Failure(ExecutionError, "list index out of range"))
      && (d.Allowed? && outcome.TimedOut? ==>
            run.result == Failure(Timeout, TimeoutDetail(timeout)) && Classify(run.result.stderr) == Some(Timeout))
      && (d.Allowed? && outcome.Raised? ==>
            run.result == Failure(ExecutionError, outcome.msg) && Classify(run.result.stderr) == Some(ExecutionError))
  {
    var run := ExecuteTerminalCommand(order, command, timeout, workingDir, cwd, outcome);
    var d := Decide(AllowedCommands, BlockedCommands, order, command);
    match d
    case Allowed =>
      match outcome {
        case Completed(_, _, _) =>
        case TimedOut => ClassifyFailure(Timeout, TimeoutDetail(timeout));
        case Raised(m) => ClassifyFailure(ExecutionError, m);
      }
    case Blocked(t) => ClassifyFailure(Security, BlockedMessage + t);
    case Unknown(n) => ClassifyFailure(Security, UnknownMessage + n);
    case NoCommandName => ClassifyFailure(ExecutionError, IndexError.Text());
  }

  // One lemma per registered name keeps each literal check small.
  lemma DirPasses(order: seq<string>)
    requires Enumerates(order, BlockedCommands)
    ensures ValidateCommand(order, AllowedCommands[0].0) == Ok(true)
  {
    assert NoSpace("dir") && Lower("dir") == "dir";
    assert AllowedCommands[0].0 == "dir";
    assert forall t :: t in BlockedCommands ==> ForeignFrom("dir", t, 0);
    ClearOfBlocked(BlockedCommands, "dir");
    BareNamePasses(AllowedCommands, BlockedCommands, order, "dir");
  }

  lemma LsPasses(order: seq<string>)
    requires Enumerates(order, BlockedCommands)
    ensures ValidateCommand(order, AllowedCommands[1].0) == Ok(true)
  {
    assert NoSpace("ls") && Lower("ls") == "ls";
    assert AllowedCommands[1].0 == "ls";
    assert forall t :: t in BlockedCommands ==> ForeignFrom("ls", t, 0);
    ClearOfBlocked(BlockedCommands, "ls");
    BareNamePasses(AllowedCommands, BlockedCommands, order, "ls");
  }

  lemma PwdPasses(order: seq<string>)
    requires Enumerates(order, BlockedCommands)
    ensures ValidateCommand(order, AllowedCommands[2].0) == Ok(true)
  {
    assert NoSpace("pwd") && Lower("pwd") == "pwd";
    assert AllowedCommands[2].0 == "pwd";
    assert forall t :: t in BlockedCommands ==> ForeignFrom("pwd", t, 0);
    ClearOfBlocked(BlockedCommands, "pwd");
    BareNamePasses(AllowedCommands, BlockedCommands, order, "pwd");
  }

  lemma EchoPasses(order: seq<string>)
    requires Enumerates(order, BlockedCommands)
    ensures ValidateCommand(order, AllowedCommands[3].0) == Ok(true)
  {
    assert NoSpace("echo") && Lower("echo") == "echo";
    assert AllowedCommands[3].0 == "echo";
    assert forall t :: t in BlockedCommands ==> ForeignFrom("echo", t, 0);
    ClearOfBlocked(BlockedCommands, "echo");
    BareNamePasses(AllowedCommands, BlockedCommands, order, "echo");
  }

  lemma PythonPasses(order: seq<string>)
    requires Enumerates(order, BlockedCommands)
    ensures ValidateCommand(order, AllowedCommands[4].0) == Ok(true)
  {
    assert NoSpace("python") && Lower("python") == "python";
    assert AllowedCommands[4].0 == "python";
    assert forall t :: t in BlockedCommands ==> ForeignFrom("python", t, 0);
    ClearOfBlocked(BlockedCommands, "python");
    BareNamePasses(AllowedCommands, BlockedCommands, order, "python");
  }

  lemma PipPasses(order: seq<string>)
    requires Enumerates(order, BlockedCommands)
    ensures ValidateCommand(order, AllowedCommands[5].0) == Ok(true)
  {
    assert NoSpace("pip") && Lower("pip") == "pip";
    assert AllowedCommands[5].0 == "pip";
    assert forall t :: t in BlockedCommands ==> ForeignFrom("pip", t, 0);
    ClearOfBlocked(BlockedCommands, "pip");
    BareNamePasses(AllowedCommands, BlockedCommands, order, "pip");
  }

  lemma GitPasses(order: seq<string>)
    requires Enumerates(order, BlockedCommands)
    ensures ValidateCommand(order, AllowedCommands[6].0) == Ok(true)
  {
    assert NoSpace("git") && Lower("git") == "git";
    assert AllowedCommands[6].0 == "git";
    assert forall t :: t in BlockedCommands ==> ForeignFrom("git", t, 0);
    ClearOfBlocked(BlockedCommands, "git");
    BareNamePasses(AllowedCommands, BlockedCommands, order, "git");
  }

  lemma CondaPasses(order: seq<string>)
    requires Enumerates(order, BlockedCommands)
    ensures ValidateCommand(order, AllowedCommands[7].0) == Ok(true)
  {
    assert NoSpace("conda") && Lower("conda") == "conda";
    assert AllowedCommands[7].0 == "conda";
    assert forall t :: t in BlockedCommands ==> ForeignFrom("conda", t, 0);
    ClearOfBlocked(BlockedCommands, "conda");
    BareNamePasses(AllowedCommands, BlockedCommands, order, "conda");
  }

  /** The default of `timeout`, in seconds. */
  const DefaultTimeout := 30

  /** An accepted command that outlives the default `timeout` is spawned and
      then reported as "命令执行超时(>30秒)". */
  lemma DefaultTimeoutText(order: seq<string>, command: string, workingDir: Option<string>, cwd: string)
    requires Enumerates(order, BlockedCommands)
    requires ValidateCommand(order, command).Ok?
    ensures ExecuteTerminalCommand(order, command, Some(DefaultTimeout), workingDir, cwd, TimedOut)
      == LocalRun(Some(SpawnRequest(command, EffectiveDir(workingDir, cwd))), ExecResult("", "命令执行超时(>30秒)", -1, None, None))
  {
    DefaultTimeoutDetail();
  }

  lemma DefaultTimeoutDetail()
    ensures TimeoutPrefix + TimeoutDetail(Some(DefaultTimeout)) == "命令执行超时(>30秒)"
  {
    assert NatToString(3) == "3";
    assert NatToString(30) == "30";
  }

  /** Every registered name, typed alone, passes validation: no registered name
      contains a blocked token. */
  lemma EveryAllowedNamePasses(order: seq<string>)
    requires Enumerates(order, BlockedCommands)
    ensures forall i :: 0 <= i < |AllowedCommands| ==> ValidateCommand(order, AllowedCommands[i].0) == Ok(true)
  {
    forall i | 0 <= i < |AllowedCommands|
      ensures ValidateCommand(order, AllowedCommands[i].0) == Ok(true)
    {
      if i == 0 { DirPasses(order); }
      else if i == 1 { LsPasses(order); }
      else if i == 2 { PwdPasses(order); }
      else if i == 3 { EchoPasses(order); }
      else if i == 4 { PythonPasses(order); }
      else if i == 5 { PipPasses(order); }
      else if i == 6 { GitPasses(order); }
      else { CondaPasses(order); }
    }
  }

  /** The block check beats the allow check: "echo" is registered, but the
      command still never reaches a process. */
  lemma BlockBeatsAllow(order: seq<string>, timeout: Option<int>, workingDir: Option<string>, cwd: string, outcome: SpawnOutcome)
    requires Enumerates(order, BlockedCommands)
    ensures "echo" in Names(AllowedCommands)
    ensures var run := ExecuteTerminalCommand(order, "echo hi && sudo rm -rf /", timeout, workingDir, cwd, outcome);
      run.spawned.None? && Classify(run.result.stderr) == Some(Security)
  {
    assert AllowedCommands[3].0 == "echo";
    var c := "echo hi && sudo rm -rf /";
    assert Lower(c) == c;
    OccursContains(c, "sudo", 11);
    FailureCategories(order, c, timeout, workingDir, cwd, outcome);
  }

  /** Containment is on raw substrings, not on words: "echo result" holds
      "su" and "python train_model.py" holds "del", so both are refused. */
  lemma SubstringFalsePositives(order: seq<string>)
    requires Enumerates(order, BlockedCommands)
    ensures Decide(AllowedCommands, BlockedCommands, order, "echo result").Blocked?
    ensures Decide(AllowedCommands, BlockedCommands, order, "python train_model.py").Blocked?
  {
    EchoResultBlocked(order);
    TrainScriptBlocked(order);
  }

  lemma EchoResultBlocked(order: seq<string>)
    requires Enumerates(order, BlockedCommands)
    ensures Decide(AllowedCommands, BlockedCommands, order, "echo result").Blocked?
  {
    assert Lower("echo result")[7..9] == "su";
    BlockedByOccurrence(AllowedCommands, BlockedCommands, order, "echo result", "su", 7);
  }

  lemma TrainScriptBlocked(order: seq<string>)
    requires Enumerates(order, BlockedCommands)
    ensures Decide(AllowedCommands, BlockedCommands, order, "python train_model.py").Blocked?
  {
    assert Lower("python train_model.py")[15..18] == "del";
    BlockedByOccurrence(AllowedCommands, BlockedCommands, order, "python train_model.py", "del", 15);
  }

  /** "del" is the only blocked token in "echo model", so it is the one
      reported whatever order the set is walked in. */
  lemma ModelScriptBlocked(order: seq<string>)
    requires Enumerates(order, BlockedCommands)
    ensures ValidateCommand(order, "echo model") == Err(TerminalSecurityError(BlockedMessage + "del"))
  {
    var c := "echo model";
    assert Lower(c) == c;
    assert c[7..10] == "del";
    OccursContains(c, "del", 7);
    ModelScriptClear();
    SoleBlockedToken(AllowedCommands, BlockedCommands, order, c, "del");
  }

  /** Every blocked token but "del" has a character "echo model" lacks. */
  lemma ModelScriptClear()
    ensures ForeignToOthers(BlockedCommands, "echo model", "del")
  {
    var c := "echo model";
    forall u | u in BlockedCommands && u != "del"
      ensures ForeignFrom(c, u, 0)
    {
      if u == "mkfs" || u == "curl" {
        assert u[1] !in c;
      } else {
        assert u[0] !in c;
      }
    }
  }

  /** "rm -rf /" contains no blocked token but "rm": nothing is spawned and
      the security failure names "rm". */
  lemma RemoveRootRejected(order: seq<string>, timeout: Option<int>, workingDir: Option<string>, cwd: string, outcome: SpawnOutcome)
    requires Enumerates(order, BlockedCommands)
    ensures ExecuteTerminalCommand(order, "rm -rf /", timeout, workingDir, cwd, outcome)
      == LocalRun(None, Failure(Security, BlockedMessage + "rm"))
  {
    var c := "rm -rf /";
    assert Lower(c) == c;
    OccursContains(c, "rm", 0);
    RemoveRootClear();
    SoleBlockedToken(AllowedCommands, BlockedCommands, order, c, "rm");
  }

  /** Every blocked token but "rm" has a character "rm -rf /" lacks. */
  lemma RemoveRootClear()
    ensures ForeignToOthers(BlockedCommands, "rm -rf /", "rm")
  {
    var c := "rm -rf /";
    forall u | u in BlockedCommands && u != "rm"
      ensures ForeignFrom(c, u, 0)
    {
      if u == "remove" || u == "format" || u == "mkfs" || u == "reboot" {
        assert u[1] !in c;
      } else {
        assert u[0] !in c;
      }
    }
  }

  /** The first character of every blocked token is visible (not whitespace). */
  lemma BlockedTokensStartVisible() ensures VisibleStarts(BlockedCommands) {}

  /** An empty or all-whitespace command passes the block check and then fails
      at `split()[0]`: a generic execution error, not a security error. */
  lemma EmptyCommandIsExecutionError(
    order: seq<string>, command: string, timeout: Option<int>,
    workingDir: Option<string>, cwd: string, outcome: SpawnOutcome)
    requires Enumerates(order, BlockedCommands)
    requires AllSpace(command)
    ensures ExecuteTerminalCommand(order, command, timeout, workingDir, cwd, outcome)
      == LocalRun(None, Failure(ExecutionError, "list index out of range"))
  {
    BlankIsIndexError(order, command);
  }

  lemma BlankIsIndexError(order: seq<string>, command: string)
    requires Enumerates(order, BlockedCommands)
    requires AllSpace(command)
    ensures ValidateCommand(order, command) == Err(IndexError)
  {
    BlockedTokensStartVisible();
    BlankHasNoName(AllowedCommands, BlockedCommands, order, command);
  }

  /** `list_allowed_commands`: one "name: desc" line per registered command,
      in insertion order, and each line reads back as its registry entry. */
  function ListAllowedCommands(): (lines: seq<string>)
    ensures |lines| == |AllowedCommands| == 8
    ensures forall i :: 0 <= i < |lines| ==> ParseEntry(lines[i]) == Some(AllowedCommands[i])
  {
    ListingRoundTrip(AllowedCommands);
    Listing(AllowedCommands)
  }
}
