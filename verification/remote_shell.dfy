/** The remote terminal tool: its registries, the `SSHClient` wrapper as an
    immutable state with transition functions, and the four tool endpoints
    `connect_ssh`, `execute_remote_command`, `close_ssh` and
    `list_allowed_commands`. The paramiko library is abstracted to the
    outcomes it reports. */
module RemoteShell {
  import opened Base
  import opened Text
  import opened Policy
  import opened Execution
  import LocalTerminal

  const AllowedCommands: Registry := [
    ("ls", "列出目录内容"),
    ("pwd", "显示当前工作目录"),
    ("echo", "显示文本"),
    ("python", "执行Python脚本"),
    ("pip", "包管理器"),
    ("nvidia-smi", "查看GPU状态"),
    ("top", "查看进程"),
    ("ps", "进程状态"),
    ("free", "内存使用情况"),
    ("df", "磁盘使用情况")
  ]

  const BlockedCommands: set<string> := {
    "rm", "remove",
    "mkfs", "format",
    "shutdown", "reboot",
    ">", ">>",
    "wget", "curl",
    "sudo", "su"
  }

  const BlockedMessage := "危险命令被拦截: "
  const UnknownMessage := "未知命令被拦截: "
  const NotConnectedMessage := "未连接到SSH服务器"

  /** The name `TerminalSecurityError`, which remote.py uses but neither defines nor imports. */
  const MissingName := "TerminalSecurityError"

  /** What `SSHClient._client` holds: nothing yet; a paramiko client whose
      `connect` failed before it created a transport; one whose transport was
      started but whose handshake or authentication failed (paramiko keeps
      that transport, and `execError` is what `exec_command` on it raises);
      a connected client; or a client that was closed. */
  datatype Handle = NoClient | Fresh | Unauthenticated(execError: string) | Connected | Closed

  /** paramiko's client holds a transport: a connected one, or one left
      behind by a failed handshake or authentication. */
  predicate HasTransport(h: Handle)
  {
    h.Connected? || h.Unauthenticated?
  }

  /** The wrapper's state. `leaked` counts transports whose client was
      replaced by a later `connect` without being closed first. */
  datatype SshClient = SshClient(handle: Handle, leaked: nat)

  /** `SSHClient()`: `_client` starts as None. */
  const NewClient := SshClient(NoClient, 0)

  /** What paramiko's `connect` did: authenticated; raised with a message
      before any transport existed (an unreachable host, a failed socket); or
      raised with a message after starting the transport (a failed handshake
      or authentication), which leaves a transport on which `exec_command`
      raises `execError`. */
  datatype AuthOutcome =
    | Authenticated
    | NoTransport(msg: string)
    | Rejected(msg: string, execError: string)

  /** `SSHClient.connect`: a new paramiko client is stored in `_client`
      before paramiko connects, so even a failed connect leaves a non-None
      handle; a client held before is dropped without `close`, and so is
      any transport it held. */
  function Connect(c: SshClient, auth: AuthOutcome): (r: (SshClient, Option<PyError>))
    ensures r.0.handle != NoClient
    ensures r.0.handle == Connected <==> auth.Authenticated?
    ensures r.0.handle == Fresh <==> auth.NoTransport?
    ensures auth.Rejected? ==> r.0.handle == Unauthenticated(auth.execError)
    ensures HasTransport(r.0.handle) <==> !auth.NoTransport?
    ensures r.1 == (if auth.Authenticated? then None else Some(ForeignError(auth.msg)))
    ensures r.0.leaked == c.leaked + (if HasTransport(c.handle) then 1 else 0)
  {
    var dropped := if HasTransport(c.handle) then 1 else 0;
    match auth
    case Authenticated => (SshClient(Connected, c.leaked + dropped), None)
    case NoTransport(m) => (SshClient(Fresh, c.leaked + dropped), Some(ForeignError(m)))
    case Rejected(m, e) => (SshClient(Unauthenticated(e), c.leaked + dropped), Some(ForeignError(m)))
  }

  /** `SSHClient.close`: the underlying `close` runs only if `_client` is set,
      and `_client` is never reset to None. `failure` is the message of an
      exception the underlying `close` raised, if it raised. */
  function Close(c: SshClient, failure: Option<string>): (r: (SshClient, Option<PyError>))
    ensures c.handle == NoClient ==> r == (c, None)
    ensures c.handle != NoClient ==> r.0.handle != NoClient
    ensures c.handle != NoClient && failure.None? ==> r == (SshClient(Closed, c.leaked), None)
    ensures r.0.leaked == c.leaked
  {
    if c.handle == NoClient then
      (c, None)
    else
      match failure
      case Some(m) => (c, Some(ForeignError(m)))
      case None => (SshClient(Closed, c.leaked), None)
  }

  /** What `exec_command` produced on a connected client: the remote streams
      and exit status, or an exception raised by paramiko. */
  datatype ChannelOutcome = Ran(out: string, err: string, status: int) | ExecFailed(msg: string)

  /** The reads `execute_command` performs on the channel. */
  datatype ChannelStep = ReadStdout | ReadStderr | ReadExitStatus

  /** The dict `execute_command` returns. */
  datatype Reply = Reply(stdout: string, stderr: string, returnCode: int)

  /** One call of `execute_command`: its reply or exception, and the reads made. */
  datatype RemoteCall = RemoteCall(reply: Result<Reply, PyError>, steps: seq<ChannelStep>)

  /** The exit status is read only after both streams were drained, stdout first. */
  predicate DrainsBeforeStatus(steps: seq<ChannelStep>)
  {
    forall i :: 0 <= i < |steps| && steps[i] == ReadExitStatus ==>
      exists j, k :: 0 <= j < k < i && steps[j] == ReadStdout && steps[k] == ReadStderr
  }

  /** paramiko's `exec_command` on a client that has no transport (none was
      created, or `close` discarded it) fails on the missing transport. */
  const NoTransportMessage := "'NoneType' object has no attribute 'open_session'"

  /** `SSHClient.execute_command`. */
  function ExecuteCommand(c: SshClient, command: string, outcome: ChannelOutcome): (call: RemoteCall)
    ensures c.handle == NoClient ==> call == RemoteCall(Err(RuntimeError(NotConnectedMessage)), [])
    ensures c.handle != NoClient ==> call.reply != Err(RuntimeError(NotConnectedMessage))
    ensures call.reply.Ok? <==> c.handle == Connected && outcome.Ran?
    ensures c.handle == Fresh || c.handle == Closed ==>
      call.reply == Err(ForeignError(NoTransportMessage))
    ensures c.handle.Unauthenticated? ==> call.reply == Err(ForeignError(c.handle.execError))
    ensures call.reply.Ok? ==>
      call.reply.value == Reply(outcome.out, outcome.err, outcome.status)
      && ReadStdout in call.steps && ReadStderr in call.steps && ReadExitStatus in call.steps
    ensures DrainsBeforeStatus(call.steps)
  {
    match c.handle
    case NoClient => RemoteCall(Err(RuntimeError(NotConnectedMessage)), [])
    case Fresh => RemoteCall(Err(ForeignError(NoTransportMessage)), [])
    case Unauthenticated(e) => RemoteCall(Err(ForeignError(e)), [])
    case Closed => RemoteCall(Err(ForeignError(NoTransportMessage)), [])
    case Connected =>
      match outcome
      case ExecFailed(m) => RemoteCall(Err(ForeignError(m)), [])
      case Ran(out, err, status) =>
        var steps := [ReadStdout, ReadStderr, ReadExitStatus];
        assert steps[0] == ReadStdout && steps[1] == ReadStderr;
        RemoteCall(Ok(Reply(out, err, status)), steps)
  }

  /** The `{success, message}` dict of `connect_ssh` and `close_ssh`. */
  datatype StatusReply = StatusReply(success: bool, message: string)

  /** `connect_ssh`: never raises; reports success or the failure text. */
  function ConnectSsh(c: SshClient, hostname: string, auth: AuthOutcome): (r: (SshClient, StatusReply))
    ensures r.1.success <==> auth.Authenticated?
    ensures r.1.success ==> r.1.message == "成功连接到 " + hostname
    ensures !r.1.success ==> r.1.message == "连接失败: " + auth.msg
    ensures r.0 == Connect(c, auth).0
  {
    var (c', err) := Connect(c, auth);
    match err
    case None => (c', StatusReply(true, "成功连接到 " + hostname))
    case Some(e) => (c', StatusReply(false, "连接失败: " + e.Text()))
  }

  /** `close_ssh`: never raises; success unless the underlying `close` raised. */
  function CloseSsh(c: SshClient, failure: Option<string>): (r: (SshClient, StatusReply))
    ensures r.1.success <==> c.handle == NoClient || failure.None?
    ensures r.1.success ==> r.1.message == "SSH连接已关闭"
    ensures !r.1.success ==> r.1.message == "关闭连接失败: " + failure.value
    ensures r.0 == Close(c, failure).0
  {
    var (c', err) := Close(c, failure);
    match err
    case None => (c', StatusReply(true, "SSH连接已关闭"))
    case Some(e) => (c', StatusReply(false, "关闭连接失败: " + e.Text()))
  }

  /** remote.py's `validate_command` as written: the `raise
      TerminalSecurityError(...)` statements raise `NameError` instead, because
      the name is undefined in that module. */
  function ValidateCommandAsWritten(order: seq<string>, command: string): (r: Result<bool, PyError>)
    requires Enumerates(order, BlockedCommands)
    ensures var d := Decide(AllowedCommands, BlockedCommands, order, command);
      && (r == Ok(true) <==> d.Allowed?)
      && (d.Blocked? || d.Unknown? ==> r == Err(NameError(MissingName)))
      && (d.NoCommandName? ==> r == Err(IndexError))
  {
    match Decide(AllowedCommands, BlockedCommands, order, command)
    case Allowed => Ok(true)
    case Blocked(_) => Err(NameError(MissingName))
    case Unknown(_) => Err(NameError(MissingName))
    case NoCommandName => Err(IndexError)
  }

  /** `validate_command` with `TerminalSecurityError` in scope (as in
      vscodeterminal.py): True or a security error naming the cause. */
  function ValidateCommand(order: seq<string>, command: string): (r: Result<bool, PyError>)
    requires Enumerates(order, BlockedCommands)
    ensures r.Ok? ==> r.value
    ensures var d := Decide(AllowedCommands, BlockedCommands, order, command);
      && (r.Ok? <==> d.Allowed?)
      && (d.Blocked? ==> r == Err(TerminalSecurityError(BlockedMessage + d.token)))
      && (d.Unknown? ==> r == Err(TerminalSecurityError(UnknownMessage + d.name)))
      && (d.NoCommandName? ==> r == Err(IndexError))
  {
    match Decide(AllowedCommands, BlockedCommands, order, command)
    case Allowed => Ok(true)
    case Blocked(t) => Err(TerminalSecurityError(BlockedMessage + t))
    case Unknown(name) => Err(TerminalSecurityError(UnknownMessage + name))
    case NoCommandName => Err(IndexError)
  }

  // One lemma per registered name keeps each literal check small.
  lemma LsPasses(order: seq<string>)
    requires Enumerates(order, BlockedCommands)
    ensures ValidateCommand(order, AllowedCommands[0].0) == Ok(true)
  {
    assert NoSpace("ls") && Lower("ls") == "ls";
    assert AllowedCommands[0].0 == "ls";
    assert forall t :: t in BlockedCommands ==> ForeignFrom("ls", t, 0);
    ClearOfBlocked(BlockedCommands, "ls");
    BareNamePasses(AllowedCommands, BlockedCommands, order, "ls");
  }

  lemma PwdPasses(order: seq<string>)
    requires Enumerates(order, BlockedCommands)
    ensures ValidateCommand(order, AllowedCommands[1].0) == Ok(true)
  {
    assert NoSpace("pwd") && Lower("pwd") == "pwd";
    assert AllowedCommands[1].0 == "pwd";
    assert forall t :: t in BlockedCommands ==> ForeignFrom("pwd", t, 0);
    ClearOfBlocked(BlockedCommands, "pwd");
    BareNamePasses(AllowedCommands, BlockedCommands, order, "pwd");
  }

  lemma EchoPasses(order: seq<string>)
    requires Enumerates(order, BlockedCommands)
    ensures ValidateCommand(order, AllowedCommands[2].0) == Ok(true)
  {
    assert NoSpace("echo") && Lower("echo") == "echo";
    assert AllowedCommands[2].0 == "echo";
    assert forall t :: t in BlockedCommands ==> ForeignFrom("echo", t, 0);
    ClearOfBlocked(BlockedCommands, "echo");
    BareNamePasses(AllowedCommands, BlockedCommands, order, "echo");
  }

  lemma PythonPasses(order: seq<string>)
    requires Enumerates(order, BlockedCommands)
    ensures ValidateCommand(order, AllowedCommands[3].0) == Ok(true)
  {
    assert NoSpace("python") && Lower("python") == "python";
    assert AllowedCommands[3].0 == "python";
    assert forall t :: t in BlockedCommands ==> ForeignFrom("python", t, 0);
    ClearOfBlocked(BlockedCommands, "python");
    BareNamePasses(AllowedCommands, BlockedCommands, order, "python");
  }

  lemma PipPasses(order: seq<string>)
    requires Enumerates(order, BlockedCommands)
    ensures ValidateCommand(order, AllowedCommands[4].0) == Ok(true)
  {
    assert NoSpace("pip") && Lower("pip") == "pip";
    assert AllowedCommands[4].0 == "pip";
    assert forall t :: t in BlockedCommands ==> ForeignFrom("pip", t, 0);
    ClearOfBlocked(BlockedCommands, "pip");
    BareNamePasses(AllowedCommands, BlockedCommands, order, "pip");
  }

  lemma NvidiaSmiPasses(order: seq<string>)
    requires Enumerates(order, BlockedCommands)
    ensures ValidateCommand(order, AllowedCommands[5].0) == Ok(true)
  {
    assert NoSpace("nvidia-smi") && Lower("nvidia-smi") == "nvidia-smi";
    assert AllowedCommands[5].0 == "nvidia-smi";
    NvidiaSmiClear();
    ClearOfBlocked(BlockedCommands, "nvidia-smi");
    BareNamePasses(AllowedCommands, BlockedCommands, order, "nvidia-smi");
  }

  lemma NvidiaSmiClear()
    ensures forall t :: t in BlockedCommands ==> ForeignFrom("nvidia-smi", t, 0)
  {
  }

  lemma TopPasses(order: seq<string>)
    requires Enumerates(order, BlockedCommands)
    ensures ValidateCommand(order, AllowedCommands[6].0) == Ok(true)
  {
    assert NoSpace("top") && Lower("top") == "top";
    assert AllowedCommands[6].0 == "top";
    assert forall t :: t in BlockedCommands ==> ForeignFrom("top", t, 0);
    ClearOfBlocked(BlockedCommands, "top");
    BareNamePasses(AllowedCommands, BlockedCommands, order, "top");
  }

  lemma PsPasses(order: seq<string>)
    requires Enumerates(order, BlockedCommands)
    ensures ValidateCommand(order, AllowedCommands[7].0) == Ok(true)
  {
    assert NoSpace("ps") && Lower("ps") == "ps";
    assert AllowedCommands[7].0 == "ps";
    assert forall t :: t in BlockedCommands ==> ForeignFrom("ps", t, 0);
    ClearOfBlocked(BlockedCommands, "ps");
    BareNamePasses(AllowedCommands, BlockedCommands, order, "ps");
  }

  lemma FreePasses(order: seq<string>)
    requires Enumerates(order, BlockedCommands)
    ensures ValidateCommand(order, AllowedCommands[8].0) == Ok(true)
  {
    assert NoSpace("free") && Lower("free") == "free";
    assert AllowedCommands[8].0 == "free";
    assert forall t :: t in BlockedCommands ==> ForeignFrom("free", t, 0);
    ClearOfBlocked(BlockedCommands, "free");
    BareNamePasses(AllowedCommands, BlockedCommands, order, "free");
  }

  lemma DfPasses(order: seq<string>)
    requires Enumerates(order, BlockedCommands)
    ensures ValidateCommand(order, AllowedCommands[9].0) == Ok(true)
  {
    assert NoSpace("df") && Lower("df") == "df";
    assert AllowedCommands[9].0 == "df";
    assert forall t :: t in BlockedCommands ==> ForeignFrom("df", t, 0);
    ClearOfBlocked(BlockedCommands, "df");
    BareNamePasses(AllowedCommands, BlockedCommands, order, "df");
  }

  /** Every registered name, alone on the line, passes the remote gate, in
      the corrected and in the as-written validation alike. */
  lemma EveryAllowedNamePasses(order: seq<string>)
    requires Enumerates(order, BlockedCommands)
    ensures forall i :: 0 <= i < |AllowedCommands| ==>
      ValidateCommand(order, AllowedCommands[i].0) == Ok(true)
      && ValidateCommandAsWritten(order, AllowedCommands[i].0) == Ok(true)
  {
    forall i | 0 <= i < |AllowedCommands|
      ensures ValidateCommand(order, AllowedCommands[i].0) == Ok(true)
      ensures ValidateCommandAsWritten(order, AllowedCommands[i].0) == Ok(true)
    {
      if i == 0 { LsPasses(order); }
      else if i == 1 { PwdPasses(order); }
      else if i == 2 { EchoPasses(order); }
      else if i == 3 { PythonPasses(order); }
      else if i == 4 { PipPasses(order); }
      else if i == 5 { NvidiaSmiPasses(order); }
      else if i == 6 { TopPasses(order); }
      else if i == 7 { PsPasses(order); }
      else if i == 8 { FreePasses(order); }
      else { DfPasses(order); }
    }
  }

  /** One call of `execute_remote_command`: the `execute_command` call it made
      (None when validation stopped it first) and what it returned or raised. */
  datatype RemoteRun = RemoteRun(call: Option<RemoteCall>, result: Result<ExecResult, PyError>)

  /** `execute_remote_command` as written. Any exception in the `try` block
      sends Python to evaluate `except TerminalSecurityError`, which raises
      `NameError` itself; that `NameError` escapes the tool. */
  function ExecuteRemoteCommandAsWritten(order: seq<string>, c: SshClient, command: string, outcome: ChannelOutcome): (run: RemoteRun)
    requires Enumerates(order, BlockedCommands)
    ensures run.call.Some? <==> Decide(AllowedCommands, BlockedCommands, order, command).Allowed?
    ensures run.result.Ok? <==> run.call.Some? && run.call.value.reply.Ok?
    ensures run.result.Err? ==> run.result.error == NameError(MissingName)
    ensures run.result.Ok? ==> run.result.value.command == Some(command) && run.result.value.workingDir.None?
  {
    match ValidateCommandAsWritten(order, command)
    case Err(_) => RemoteRun(None, Err(NameError(MissingName)))
    case Ok(_) =>
      var call := ExecuteCommand(c, command, outcome);
      match call.reply
      case Err(_) => RemoteRun(Some(call), Err(NameError(MissingName)))
      case Ok(reply) => RemoteRun(Some(call), Ok(ExecResult(reply.stdout, reply.stderr, reply.returnCode, Some(command), None)))
  }

  /** `execute_remote_command` with `TerminalSecurityError` in scope: every
      failure becomes a failure record, nothing escapes. */
  function ExecuteRemoteCommand(order: seq<string>, c: SshClient, command: string, outcome: ChannelOutcome): (run: RemoteRun)
    requires Enumerates(order, BlockedCommands)
    ensures run.call.Some? <==> ValidateCommand(order, command).Ok?
    ensures run.call.Some? ==> run.call.value == ExecuteCommand(c, command, outcome)
    ensures run.result.Ok?
    ensures run.result.value.command.Some? <==> run.call.Some? && run.call.value.reply.Ok?
    ensures run.result.value.command.Some? ==>
      var reply := run.call.value.reply.value;
      run.result.value == ExecResult(reply.stdout, reply.stderr, reply.returnCode, Some(command), None)
    ensures run.result.value.command.None? ==> IsFailure(run.result.value)
  {
    match ValidateCommand(order, command)
    case Err(e) =>
      var category := if e.TerminalSecurityError? then Security else ExecutionError;
      RemoteRun(None, Ok(Failure(category, e.Text())))
    case Ok(_) =>
      var call := ExecuteCommand(c, command, outcome);
      match call.reply
      case Err(e) => RemoteRun(Some(call), Ok(Failure(ExecutionError, e.Text())))
      case Ok(reply) => RemoteRun(Some(call), Ok(ExecResult(reply.stdout, reply.stderr, reply.returnCode, Some(command), None)))
  }

  /** The as-written tool raises exactly where the corrected one reports a
      failure record, and agrees with it wherever the command ran. */
  lemma AsWrittenRaisesWhereCorrectedFails(order: seq<string>, c: SshClient, command: string, outcome: ChannelOutcome)
    requires Enumerates(order, BlockedCommands)
    ensures var written := ExecuteRemoteCommandAsWritten(order, c, command, outcome);
      var fixed := ExecuteRemoteCommand(order, c, command, outcome);
      && written.call == fixed.call
      && (written.result.Err? <==> IsFailure(fixed.result.value))
      && (written.result.Ok? ==> written.result == fixed.result)
  {
  }

  /** A blocked command makes the as-written tool raise `NameError` instead of
      returning the security failure it was written to return. */
  lemma BlockedCommandEscapes(order: seq<string>, c: SshClient, outcome: ChannelOutcome)
    requires Enumerates(order, BlockedCommands)
    ensures ExecuteRemoteCommandAsWritten(order, c, "rm -rf /", outcome) == RemoteRun(None, Err(NameError(MissingName)))
    ensures ExecuteRemoteCommand(order, c, "rm -rf /", outcome).result == Ok(Failure(Security, BlockedMessage + "rm"))
  {
    RemoveRootDecided(order);
  }

  /** "rm" is the only remote blocked token in "rm -rf /". */
  lemma RemoveRootDecided(order: seq<string>)
    requires Enumerates(order, BlockedCommands)
    ensures Decide(AllowedCommands, BlockedCommands, order, "rm -rf /") == Blocked("rm")
  {
    var cmd := "rm -rf /";
    assert Lower(cmd) == cmd;
    OccursContains(cmd, "rm", 0);
    RemoveRootClear();
    SoleBlockedToken(AllowedCommands, BlockedCommands, order, cmd, "rm");
  }

  /** Every remote blocked token but "rm" has a character "rm -rf /" lacks. */
  lemma RemoveRootClear()
    ensures ForeignToOthers(BlockedCommands, "rm -rf /", "rm")
  {
    var c := "rm -rf /";
    forall u | u in BlockedCommands && u != "rm"
      ensures ForeignFrom(c, u, 0)
    {
      if u == "remove" || u == "format" || u == "mkfs" || u == "reboot" {
        assert u[1] !in c;
      } else {
        assert u[0] !in c;
      }
    }
  }

  /** On a client that never connected, an accepted command fails with
      "未连接到SSH服务器" in the corrected tool and raises `NameError` as written. */
  lemma NotConnectedFails(order: seq<string>, command: string, outcome: ChannelOutcome)
    requires Enumerates(order, BlockedCommands)
    requires Decide(AllowedCommands, BlockedCommands, order, command).Allowed?
    ensures ExecuteRemoteCommand(order, NewClient, command, outcome).result
      == Ok(Failure(ExecutionError, NotConnectedMessage))
    ensures ExecuteRemoteCommandAsWritten(order, NewClient, command, outcome).result
      == Err(NameError(MissingName))
  {
    assert ValidateCommand(order, command) == Ok(true);
    assert ValidateCommandAsWritten(order, command) == Ok(true);
    assert ExecuteCommand(NewClient, command, outcome).reply == Err(RuntimeError(NotConnectedMessage));
  }

  /** After a failed `connect` the handle is set, so a later execute is never
      reported as "not connected": it fails with paramiko's own error, on the
      missing transport when none was created, and with the error of the
      unauthenticated transport otherwise. */
  lemma FailedConnectIsNotDisconnected(c: SshClient, auth: AuthOutcome, command: string, outcome: ChannelOutcome)
    ensures var reply := ExecuteCommand(Connect(c, auth).0, command, outcome).reply;
      && (!auth.Authenticated? ==> reply.Err? && reply != Err(RuntimeError(NotConnectedMessage)))
      && (auth.NoTransport? ==> reply == Err(ForeignError(NoTransportMessage)))
      && (auth.Rejected? ==> reply == Err(ForeignError(auth.execError)))
  {
  }

  /** Closing a client that never connected calls nothing and reports success;
      closing twice is harmless; a closed client is never "not connected". */
  lemma CloseBehaviour(c: SshClient, command: string, outcome: ChannelOutcome)
    ensures CloseSsh(NewClient, None) == (NewClient, StatusReply(true, "SSH连接已关闭"))
    ensures var c1 := CloseSsh(c, None).0;
      CloseSsh(c1, None) == (c1, StatusReply(true, "SSH连接已关闭"))
    ensures c.handle != NoClient ==>
      ExecuteCommand(CloseSsh(c, None).0, command, outcome).reply == Err(ForeignError(NoTransportMessage))
  {
  }

  /** Connecting again while connected drops the live connection without
      closing it, as does connecting again after a rejected login, which
      left its transport open; connecting after `close` drops nothing. */
  lemma ReconnectLeaks(c: SshClient, a1: AuthOutcome, a2: AuthOutcome)
    ensures var c1 := ConnectSsh(c, "h", Authenticated).0;
      ConnectSsh(c1, "h", a2).0.leaked == c.leaked + (if HasTransport(c.handle) then 1 else 0) + 1
    ensures var c1 := ConnectSsh(c, "h", Rejected("denied", "inactive")).0;
      ConnectSsh(c1, "h", a2).0.leaked == c.leaked + (if HasTransport(c.handle) then 1 else 0) + 1
    ensures var c1 := CloseSsh(ConnectSsh(c, "h", a1).0, None).0;
      ConnectSsh(c1, "h", a2).0.leaked == Connect(c, a1).0.leaked
  {
  }

  /** "echo model" contains "del", which only the local registry blocks: the
      remote gate accepts the command and the local gate rejects it. */
  lemma DelOnlyBlockedLocally(order: seq<string>, localOrder: seq<string>)
    requires Enumerates(order, BlockedCommands)
    requires Enumerates(localOrder, LocalTerminal.BlockedCommands)
    ensures ValidateCommand(order, "echo model") == Ok(true)
    ensures LocalTerminal.ValidateCommand(localOrder, "echo model")
      == Err(TerminalSecurityError(LocalTerminal.BlockedMessage + "del"))
  {
    ModelScriptPasses(order);
    LocalTerminal.ModelScriptBlocked(localOrder);
  }

  lemma ModelScriptPasses(order: seq<string>)
    requires Enumerates(order, BlockedCommands)
    ensures ValidateCommand(order, "echo model") == Ok(true)
  {
    ModelScriptUnblocked();
    ModelScriptToken();
    EchoRegistered();
    TokenPasses(AllowedCommands, BlockedCommands, order, "echo model", "echo");
  }

  lemma EchoRegistered()
    ensures Lower("echo") in Names(AllowedCommands)
  {
    assert AllowedCommands[2].0 == "echo";
    assert Lower("echo") == "echo";
  }

  lemma ModelScriptUnblocked()
    ensures !AnyBlocked(BlockedCommands, Lower("echo model"))
  {
    ModelScriptLower();
    ModelScriptClear();
    ClearOfBlocked(BlockedCommands, "echo model");
  }

  lemma ModelScriptLower()
    ensures Lower("echo model") == "echo model"
  {
  }

  lemma ModelScriptToken()
    ensures FirstToken("echo model") == Some("echo")
  {
    assert "echo model" == "echo" + " model";
    assert NoSpace("echo") && IsSpace(" model"[0]);
    FirstTokenOfWord("echo", " model");
  }

  /** Every remote blocked token has a character "echo model" lacks. */
  lemma ModelScriptClear()
    ensures forall t :: t in BlockedCommands ==> ForeignFrom("echo model", t, 0)
  {
    var c := "echo model";
    forall u | u in BlockedCommands
      ensures ForeignFrom(c, u, 0)
    {
      if u == "mkfs" || u == "curl" {
        assert u[1] !in c;
      } else {
        assert u[0] !in c;
      }
    }
  }

  /** `list_allowed_commands`: one "name: desc" line per registered command,
      in insertion order, and each line reads back as its registry entry. */
  function ListAllowedCommands(): (lines: seq<string>)
    ensures |lines| == |AllowedCommands| == 10
    ensures forall i :: 0 <= i < |lines| ==> ParseEntry(lines[i]) == Some(AllowedCommands[i])
  {
    ListingRoundTrip(AllowedCommands);
    Listing(AllowedCommands)
  }
}
