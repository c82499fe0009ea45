/** The uniform result record of both terminal tools and the failure
    categories a caller can tell apart by the stderr prefix. */
module Execution {
  import opened Base
  import opened Text

  /** The dict a terminal tool returns. `command` and `workingDir` are
      `None` when the key is absent from the dict. */
  datatype ExecResult = ExecResult(
    stdout: string,
    stderr: string,
    returnCode: int,
    command: Option<string>,
    workingDir: Option<string>)

  /** The three failure handlers of the tools. */
  datatype Category = Security | Timeout | ExecutionError

  const SecurityPrefix := "安全错误: "
  const TimeoutPrefix := "命令执行超时(>"
  const ErrorPrefix := "执行错误: "

  function Prefix(c: Category): string
  {
    match c
    case Security => SecurityPrefix
    case Timeout => TimeoutPrefix
    case ExecutionError => ErrorPrefix
  }

  /** A failure record: empty stdout, return code -1, no command or working_dir key. */
  function Failure(c: Category, detail: string): (r: ExecResult)
    ensures r.stdout == "" && r.returnCode == -1
    ensures r.command.None? && r.workingDir.None?
    ensures StartsWith(r.stderr, Prefix(c))
  {
    StartsWithIsPrefix(Prefix(c) + detail, Prefix(c));
    ExecResult("", Prefix(c) + detail, -1, None, None)
  }

  predicate IsFailure(r: ExecResult)
  {
    r.stdout == "" && r.returnCode == -1 && r.command.None? && r.workingDir.None?
  }

  /** What a caller learns by matching the stderr prefix. */
  function Classify(stderr: string): (c: Option<Category>)
    ensures c.Some? ==> StartsWith(stderr, Prefix(c.value))
  {
    if StartsWith(stderr, SecurityPrefix) then Some(Security)
    else if StartsWith(stderr, TimeoutPrefix) then Some(Timeout)
    else if StartsWith(stderr, ErrorPrefix) then Some(ExecutionError)
    else None
  }

  /** The three prefixes start with different characters, so the prefix of a
      failure record always names the handler that produced it. */
  lemma {:induction false} ClassifyFailure(c: Category, detail: string)
    ensures Classify(Failure(c, detail).stderr) == Some(c)
  {
    var s := Failure(c, detail).stderr;
    assert s[0] == Prefix(c)[0];
    forall d: Category | d != c
      ensures !StartsWith(s, Prefix(d))
    {
      assert Prefix(d)[0] != Prefix(c)[0];
    }
  }

  /** The timeout diagnostic `命令执行超时(>{timeout}秒)`; an absent timeout prints as `None`. */
  function TimeoutDetail(timeout: Option<int>): (detail: string)
    ensures |detail| > 2 && detail[|detail| - 2..] == "秒)"
    ensures timeout.None? ==> detail[..|detail| - 2] == "None"
    // the printed number reads back as the timeout
    ensures timeout.Some? && timeout.value >= 0 ==>
      var digits := detail[..|detail| - 2];
      IsDigits(digits) && DecimalValue(digits) == timeout.value
    ensures timeout.Some? && timeout.value < 0 ==>
      var digits := detail[1..|detail| - 2];
      detail[0] == '-' && IsDigits(digits) && DecimalValue(digits) == -timeout.value
  {
    var text := match timeout case None => "None" case Some(t) => IntToString(t);
    SplitAppend(text, "秒)");
    text + "秒)"
  }

  /** The two halves of a concatenation, read back by slicing. */
  lemma SplitAppend(s: string, t: string)
    ensures (s + t)[..|s|] == s && (s + t)[|s|..] == t
    ensures |s| > 0 ==> (s + t)[1..|s|] == s[1..]
  {
  }

}
