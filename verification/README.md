# ExpWeaver tool core, modelled in Dafny

ExpWeaver exposes experiment-tracking and shell tools to a language-model
agent. This project models the logic of those tools. The calls they make into
W&B, SwanLab, paramiko and the operating system become parameters of the
model.

- **Command policy** (`Policy`, `LocalTerminal`, `RemoteShell`, `Execution`).
  Both terminal tools use the same gate. A command is refused when any
  blocked token occurs anywhere in its lower-cased text. Otherwise its
  lower-cased first whitespace token must be a registered name. The local
  tool then spawns a process; the remote tool drives an SSH client wrapper.
  In the local tool, and in the remote tool once the undefined
  `TerminalSecurityError` is in scope, every failure becomes a result record
  whose stderr prefix names the handler that produced it. As written, the
  remote tool lets every failure escape as `NameError` (see Findings). Python iterates the blocked set in an order fixed
  by string hashes, so the model takes that order as a parameter. It proves
  that acceptance does not depend on the order.
- **SSH client wrapper** (`RemoteShell`). An immutable state with
  transitions for `connect`, `close` and `execute_command`. A failed connect
  either never created a transport or left a started, unauthenticated one.
  A counter records transports that were replaced without being closed.
- **W&B tools** (`ArtifactUrl`, `StringDict`, `RunListing`, `RunSelection`):
  - the artifact-URL parser of `list_artifact`;
  - `convert_to_string_dict`, with Python dicts as insertion-ordered entry
    lists;
  - both copies of `list_runs`. A small heap of list objects makes the
    sharing of the artifacts list visible;
  - `filter_runs_by_single_param_difference`: grouping by config without
    the parameter, taking the first largest group, and Python's stable sort,
    including the `TypeError` it raises on unorderable values.
- **Supervisor** (`Supervisor`). One polling round of
  `supervise_experiments`: which runs are notified, with which name and
  state, and the state map carried into the next round.
- **SwanLab tools** (`Swanlab`). The four lookup tools and the pipeline that
  chains them with a fallback after each stage.

Shared vocabulary lives in `Base` (results, options, the Python exceptions
that reach a caller) and `Text` (substring search, `split`, `lower`, `str` of
an integer).

## Model

| member | source | states |
|---|---|---|
| `Text.Lower` | vscodeterminal.py:51 | `lower()` keeps the length and lower-cases every ASCII capital, character by character |
| `Text.FirstToken` | vscodeterminal.py:55 | `split()[0]` is absent exactly for an empty or all-whitespace command; otherwise it is a non-empty whitespace-free word preceded only by whitespace and followed by whitespace or the end |
| `Policy.FirstBlocked` | vscodeterminal.py:50-52 | the loop reports a blocked token that occurs in the lower-cased command; it reports none exactly when no token of the set occurs |
| `Policy.Decide` | vscodeterminal.py:36-59 | a command is blocked iff some blocked token occurs anywhere in its lower-cased text, and the reported token is such a token; only an unblocked command reaches the first-token check, which allows a registered name, rejects any other name as unknown, and fails when there is no token |
| `Policy.OrderIrrelevant` | vscodeterminal.py:50-52 | the set's iteration order can change only which blocked token is named, never whether the command is blocked or any other verdict |
| `Policy.AcceptedIff` | vscodeterminal.py:36-59 | accepted exactly when no blocked token occurs, a first token exists, and its lower-cased form is registered |
| `Policy.BlockedByOccurrence` | vscodeterminal.py:50-52 | one occurrence of one blocked token at any position rejects the command |
| `Policy.SoleBlockedToken` | vscodeterminal.py:50-52 | when a blocked token occurs in the lower-cased command and every other blocked token has a character the command lacks, that token is the one reported, whatever the iteration order |
| `Policy.BlankHasNoName` | vscodeterminal.py:50-55 | a whitespace-only command passes the block check and then has no first token |
| `Policy.Listing` | vscodeterminal.py:131 | one line per registry entry, in insertion order, each starting with "name: " |
| `Policy.ListingRoundTrip` | vscodeterminal.py:127-131 | reading each listing line back at its first ": " yields that registry entry |
| `Execution.Failure` | vscodeterminal.py:106-124 | a failure record has empty stdout, return code -1, no command or working_dir key, and stderr starting with its handler's prefix |
| `Execution.ClassifyFailure` | vscodeterminal.py:106-124 | the stderr prefix of a failure record identifies the handler that produced it |
| `Execution.TimeoutDetail` | vscodeterminal.py:112-117 | the timeout message ends in "秒)" after the timeout as printed by Python: "None" when absent, otherwise decimal digits (after a "-" when negative) that read back as the timeout |
| `LocalTerminal.ValidateCommand` | vscodeterminal.py:36-59 | returns True exactly when the gate allows; otherwise it raises a security error naming the blocked token or the unknown name, or `IndexError` when there is no token; it never returns False |
| `LocalTerminal.EffectiveDir` | vscodeterminal.py:83 | a non-empty `working_dir` is used; an absent or empty one falls back to the current directory |
| `LocalTerminal.ExecuteTerminalCommand` | vscodeterminal.py:62-124 | a process is spawned iff validation passes, with the command and the effective directory; only a completed process yields the command and working_dir keys and its own streams and code; every other path is a failure record |
| `LocalTerminal.FailureCategories` | vscodeterminal.py:106-124 | policy rejections are exactly the security failures that spawn nothing; a command with no token is an execution error "list index out of range"; a timeout and other exceptions carry their own prefixes |
| `LocalTerminal.DefaultTimeoutText` | vscodeterminal.py:62-117 | with `timeout` left at its default of 30, an accepted command that outlives it is spawned and reported as "命令执行超时(>30秒)" |
| `LocalTerminal.EveryAllowedNamePasses` | vscodeterminal.py:11-30 | each of the eight registered names, typed alone, is accepted: no registered name contains a blocked token |
| `LocalTerminal.BlockBeatsAllow` | vscodeterminal.py:48-57 | "echo" is registered, yet "echo hi && sudo rm -rf /" spawns nothing and fails as a security error |
| `LocalTerminal.SubstringFalsePositives` | vscodeterminal.py:50-52 | matching is on raw substrings: "echo result" (holds "su") and "python train_model.py" (holds "del") are refused |
| `LocalTerminal.ModelScriptBlocked` | vscodeterminal.py:23-52 | "echo model" is refused naming "del", whatever order the set is walked in |
| `LocalTerminal.RemoveRootRejected` | vscodeterminal.py:78-111 | "rm -rf /" spawns nothing and returns the security failure naming "rm" |
| `LocalTerminal.EmptyCommandIsExecutionError` | vscodeterminal.py:119-124 | an empty or whitespace-only command is reported as a generic execution error, not a security error |
| `LocalTerminal.ListAllowedCommands` | vscodeterminal.py:127-131 | eight lines, each reading back as its registry entry, in insertion order |
| `RemoteShell.Connect` | remote.py:38-52 | after any connect the handle is set, even if it failed; it is live iff authentication succeeded; a connect that failed before a transport existed leaves none, one that failed later leaves an unauthenticated transport; a transport held before is dropped without closing and counted |
| `RemoteShell.Close` | remote.py:54-57 | without a handle nothing happens; otherwise the client is closed unless the close raised; the handle is never reset |
| `RemoteShell.ExecuteCommand` | remote.py:59-69 | with no handle it raises "未连接到SSH服务器" and reads nothing; it returns a reply only on a live connection whose command ran, carrying its streams and status; the exit status is read only after both streams |
| `RemoteShell.ConnectSsh` | remote.py:75-111 | never raises; reports success iff authentication succeeded, with the host in the message, or the failure text |
| `RemoteShell.CloseSsh` | remote.py:165-177 | never raises; reports success unless the underlying close raised |
| `RemoteShell.ValidateCommandAsWritten` | remote.py:113-125 | returns True exactly when the gate allows; every policy rejection raises `NameError` for the undefined exception class |
| `RemoteShell.ValidateCommand` | remote.py:113-125 | the corrected gate: True, a security error naming the cause, or `IndexError` |
| `RemoteShell.EveryAllowedNamePasses` | remote.py:10-31 | each of the ten registered names, typed alone, passes both the as-written and the corrected gate |
| `RemoteShell.ExecuteRemoteCommandAsWritten` | remote.py:128-162 | the client is called iff the gate allows; a result is returned iff that call replied; every failure escapes as `NameError` |
| `RemoteShell.ExecuteRemoteCommand` | remote.py:128-162 | the corrected tool never raises: the client is called iff validation passes; a reply becomes the result record; every failure becomes a failure record |
| `RemoteShell.AsWrittenRaisesWhereCorrectedFails` | remote.py:145-162 | the two versions make the same client call; the as-written one raises exactly where the corrected one returns a failure record, and they agree elsewhere |
| `RemoteShell.BlockedCommandEscapes` | remote.py:116-118 | "rm -rf /" raises `NameError` as written, where the corrected tool returns the security failure naming "rm" |
| `RemoteShell.NotConnectedFails` | remote.py:59-62 | on a client that never connected, an accepted command fails with "未连接到SSH服务器" in the corrected tool and raises `NameError` as written |
| `RemoteShell.FailedConnectIsNotDisconnected` | remote.py:42-46 | after a failed connect the handle is set, so executing never fails as "not connected": it fails on the missing transport, or with the error of the unauthenticated transport |
| `RemoteShell.CloseBehaviour` | remote.py:54-57 | closing a never-connected client succeeds and changes nothing; closing twice is harmless; a closed client is never "not connected" |
| `RemoteShell.ReconnectLeaks` | remote.py:38-46 | connecting again while connected, or after a rejected login, drops one open transport unclosed; connecting after a close drops nothing more |
| `RemoteShell.DelOnlyBlockedLocally` | remote.py:24-31 | "echo model" passes the remote gate, which does not block "del", and is refused by the local gate |
| `RemoteShell.ModelScriptPasses` | remote.py:113-125 | "echo model" is accepted remotely: no remote blocked token occurs in it and "echo" is registered |
| `RemoteShell.ListAllowedCommands` | remote.py:180-182 | ten lines, each reading back as its registry entry, in insertion order |
| `ArtifactUrl.ParseArtifactUrl` | src/experiment_tracking/wandb_api_tool.py:181-185 | a failed match raises `ValueError("Invalid new-format W&B artifact URL")`; a successful one yields five non-empty '/'-free parts, and the URL is their rendering followed by nothing or a '/'-led trailer |
| `ArtifactUrl.ArtifactId` | src/experiment_tracking/wandb_api_tool.py:186 | for a well-formed entity and project, the identifier's first two '/'-separated fields read back as entity and project, followed by "name:version" |
| `ArtifactUrl.ArtifactRequest` | src/experiment_tracking/wandb_api_tool.py:185-190 | the artifact is requested as "entity/project/name:version" with the type passed separately, and the request fails exactly when the parse fails |
| `ArtifactUrl.UrlParses` | src/experiment_tracking/wandb_api_tool.py:181-185 | rendering five well-formed parts, with or without a trailer, parses back to those parts |
| `ArtifactUrl.ParseIff` | wandb_api_tool.py:141-145 | a URL parses to given parts exactly when it is their rendering followed by a trailer |
| `ArtifactUrl.TrailingPathIgnored` | src/experiment_tracking/wandb_api_tool.py:181 | the match is anchored only at the start: a '/'-led tail leaves the requested artifact unchanged |
| `ArtifactUrl.EmptySegmentRefused` | src/experiment_tracking/wandb_api_tool.py:181-183 | a URL with an empty path segment raises the ValueError |
| `StringDict.Put` | src/experiment_tracking/wandb_api_tool.py:139 | assigning an existing key keeps its position and replaces its value; a new key is appended |
| `StringDict.Convert` | src/experiment_tracking/wandb_api_tool.py:58-65 | a dict converts to a dict of at most as many entries; everything else converts to its `str()` |
| `StringDict.CollectSpec` | src/experiment_tracking/wandb_api_tool.py:135-142 | assigning pairs in order yields one entry per distinct key, in order of first assignment, holding the last value assigned |
| `StringDict.CollectKeys` | src/experiment_tracking/wandb_api_tool.py:135-142 | the keys of the built dict are the distinct assigned keys, in order of first assignment |
| `StringDict.CollectValues` | src/experiment_tracking/wandb_api_tool.py:135-142 | every entry of the built dict holds the value of the last assignment to its key |
| `StringDict.ConvertDict` | src/experiment_tracking/wandb_api_tool.py:61 | the converted dict has one key per distinct `str(k)`, in order of first occurrence, each holding the converted value of the last item with that key string |
| `StringDict.CollidingKeys` | src/experiment_tracking/wandb_api_tool.py:61 | two keys with the same `str()` collapse into one entry holding the later value |
| `RunListing.ListRunsShared` | wandb_api_tool.py:91-122 | as written: every record refers to the one list created before the loop, which ends up holding all runs' artifacts in run order |
| `RunListing.ListRunsPerRun` | src/experiment_tracking/wandb_api_tool.py:104-161 | each record refers to its own list, which holds only its own run's artifacts |
| `RunListing.SharedListSeesAll` | wandb_api_tool.py:95-120 | after the root copy returns, every record shows the artifacts of all runs |
| `RunListing.PerRunListsAreOwn` | src/experiment_tracking/wandb_api_tool.py:109-158 | every record shows exactly its own run's artifacts, and no two records share a list |
| `RunListing.SharedListCounterexample` | wandb_api_tool.py:95-119 | with two runs logging one artifact each, the root copy shows both artifacts on the first run; the corrected copy shows one |
| `RunListing.SummaryKeys` | src/experiment_tracking/wandb_api_tool.py:125-132 | the keys come from `keys()`; if that raised, from `_summary` when it exists, else none; a raising fallback abandons the summary |
| `RunListing.ConvertSummary` | src/experiment_tracking/wandb_api_tool.py:124-146 | when listing the keys failed outright, the summary is empty |
| `RunListing.ConvertSummarySpec` | src/experiment_tracking/wandb_api_tool.py:134-142 | one entry per distinct `str(key)`, in order of first occurrence, holding the converted value of the last such key, or "N/A" if reading it raised |
| `RunListing.FailedLookupIsUnavailable` | src/experiment_tracking/wandb_api_tool.py:140-142 | a key whose read raises still gets an entry, holding "N/A" |
| `RunListing.ListRuns` | src/experiment_tracking/wandb_api_tool.py:67-161 | one record per run, in order, each showing its own artifacts and its converted summary |
| `RunSelection.ParamValue` | src/experiment_tracking/wandb_api_tool.py:245 | a missing parameter reads as `None`; a present one reads as its value |
| `RunSelection.StrippedKeys` | src/experiment_tracking/wandb_api_tool.py:241-252 | one key per run, in order, equal to its config with the parameter removed |
| `RunSelection.Members` | src/experiment_tracking/wandb_api_tool.py:258-261 | a group holds exactly the indices with that key, ascending |
| `RunSelection.FirstMax` | src/experiment_tracking/wandb_api_tool.py:264 | the chosen size is maximal, and every earlier size is strictly smaller |
| `RunSelection.LargestGroup` | src/experiment_tracking/wandb_api_tool.py:255-264 | the chosen group is a complete group of equal keys, ascending; no group is larger; every earlier-starting group is strictly smaller |
| `RunSelection.SortStable` | src/experiment_tracking/wandb_api_tool.py:265-266 | the sorted indices are a permutation of the group |
| `RunSelection.SortStableSorted` | src/experiment_tracking/wandb_api_tool.py:265-266 | on a group of numbers only or of strings only, the output is ascending by value, with equal values in input order |
| `RunSelection.StableOrderUnique` | src/experiment_tracking/wandb_api_tool.py:265-266 | two stably sorted arrangements of the same indices are equal |
| `RunSelection.SelectIndices` | src/experiment_tracking/wandb_api_tool.py:234-266 | no runs select nothing; otherwise the sort raises `TypeError` exactly when the largest group holds at least two values that are not all numbers or all strings; else it returns a stably sorted permutation of that group |
| `RunSelection.FilterRunsBySingleParamDifference` | src/experiment_tracking/wandb_api_tool.py:196-270 | no runs return []; it raises exactly when the selection raises; otherwise the runs at the selected indices, in order |
| `RunSelection.SelectedDistinct` | src/experiment_tracking/wandb_api_tool.py:258-268 | a non-empty selection of distinct input runs |
| `RunSelection.SelectedGroup` | src/experiment_tracking/wandb_api_tool.py:255-264 | the selected runs have equal configs once the parameter is removed, and no other run has that config |
| `RunSelection.SelectedLargest` | src/experiment_tracking/wandb_api_tool.py:264 | no group is larger than the selection, and every equally large group starts after it |
| `RunSelection.SelectedOrder` | src/experiment_tracking/wandb_api_tool.py:265-266 | the selected runs ascend by the parameter's value; equal values keep input order |
| `RunSelection.MissingParamGroupsTogether` | src/experiment_tracking/wandb_api_tool.py:245-252 | a run lacking the parameter groups with runs that differ from it only by having it, and its value reads as `None` |
| `RunSelection.SelectionIsStableSort` | src/experiment_tracking/wandb_api_tool.py:265-266 | any stably sorted permutation of the largest group is exactly the output |
| `Supervisor.States` | src/monitoring/experiment_supervisor.py:37 | the state map has exactly the listed ids, each with the state of its last listed run |
| `Supervisor.FiringIsTransition` | src/monitoring/experiment_supervisor.py:43-45 | a run fires iff it was seen before as "running" and its state is now a different, final one |
| `Supervisor.NameOf` | src/monitoring/experiment_supervisor.py:46 | the name of a listed run with the id, and no earlier listed run has that id |
| `Supervisor.Notices` | src/monitoring/experiment_supervisor.py:42-48 | no more notices than iterated ids; each is about an iterated id that fires, and carries its current state |
| `Supervisor.NoticesIff` | src/monitoring/experiment_supervisor.py:42-48 | a run is notified iff it is iterated and went from "running" to a final state; nothing is sent when no run does |
| `Supervisor.NoticesMembership` | src/monitoring/experiment_supervisor.py:42-48 | the notified ids are exactly the iterated ids whose state went from "running" to a final one |
| `Supervisor.NoticesFields` | src/monitoring/experiment_supervisor.py:42-48 | every notice carries the run's current state and the name of the first run listed with its id, and no id is notified twice |
| `Supervisor.NoticesOrdered` | src/monitoring/experiment_supervisor.py:42-48 | when the iterated ids ascend by first position among the runs, so do the notified ids |
| `Supervisor.Poll` | src/monitoring/experiment_supervisor.py:31-50 | one round notifies exactly the runs that were "running" last round and are final now, each once, with the first run's name and the last run's state; the current map becomes the previous one |
| `Supervisor.PollOrdered` | src/monitoring/experiment_supervisor.py:37-48 | the notices of a round come in the order in which their ids first appear among the runs |
| `Supervisor.FirstPollSilent` | src/monitoring/experiment_supervisor.py:31-45 | the first round sends nothing |
| `Supervisor.NewOrGoneSilent` | src/monitoring/experiment_supervisor.py:43-45 | a run new in this round, or no longer listed, is never notified |
| `Supervisor.RepeatedPollSilent` | src/monitoring/experiment_supervisor.py:45-50 | polling the same runs twice sends nothing the second time: a finished run is notified once |
| `Supervisor.CaseSensitive` | src/monitoring/experiment_supervisor.py:45 | "RUNNING" does not count as "running" |
| `Supervisor.DuplicateIdUsesFirstNameLastState` | src/monitoring/experiment_supervisor.py:37-46 | with an id listed twice, the notice names the first run and reports the last run's state |
| `Swanlab.Filter` | swanlab_api_tool.py:46 | the kept elements are exactly those satisfying the condition, each as often as in the input; `FilterAppend` and `FilterOne` show it keeps them in input order |
| `Swanlab.FilterAppend` | swanlab_api_tool.py:46 | the comprehension keeps input order: filtering a concatenation is the concatenation of the filtered parts |
| `Swanlab.FilterSnoc` | swanlab_api_tool.py:46 | an appended element is kept, at the end, exactly when the condition holds for it |
| `Swanlab.FilterOne` | swanlab_api_tool.py:46 | a single element is kept exactly when the condition holds for it |
| `Swanlab.Traverse` | swanlab_api_tool.py:69-71 | succeeds iff every call succeeds, with their results in order; otherwise it fails with the first call's exception |
| `Swanlab.FlattenHas` | swanlab_api_tool.py:69-71 | the concatenation holds exactly the elements of the lists |
| `Swanlab.UserWorkspace` | swanlab_api_tool.py:31-50 | the listing's exception escapes; without a name, all workspaces; with one, exactly the workspaces of that name, in their listed order (the filter of `FilterAppend`); an empty selection is `None` |
| `Swanlab.UserWorkspaceProject` | swanlab_api_tool.py:53-78 | with workspaces, the projects of every workspace in order, filtered by name when one is given, failing if any listing fails; without workspaces, the personal projects whatever name is given |
| `Swanlab.WorkspaceProjectsFromEveryWorkspace` | swanlab_api_tool.py:68-71 | with no name, a project is returned iff some workspace lists it |
| `Swanlab.FindExperiment` | swanlab_api_tool.py:104-106 | the position of the first experiment with the name; none when no experiment has it |
| `Swanlab.FirstMatch` | swanlab_api_tool.py:101-107 | the first match in scanning order, project after project; none when no experiment has the name |
| `Swanlab.UserProjectExpe` | swanlab_api_tool.py:81-109 | fails iff some experiment listing fails; without a name, the dict of every project's experiments; with one, the one-entry dict of the first match, or `None` |
| `Swanlab.ExperimentDictSpec` | swanlab_api_tool.py:96-99 | one entry per distinct project name, in order of first occurrence, holding the last such project's experiments |
| `Swanlab.ProjectMetrics` | swanlab_api_tool.py:128-133 | succeeds iff every experiment's metrics fetch succeeds; the keys are the distinct experiment ids in order of first occurrence, each holding the csv of the last experiment with that id |
| `Swanlab.GetExpeMetrics` | swanlab_api_tool.py:112-135 | succeeds iff every project's metrics succeed; one entry per distinct project name in order, each holding the cuid-to-csv dict of the last project entry with that name |
| `Swanlab.MetricsKeepProjects` | swanlab_api_tool.py:126-133 | for a dict, the metrics carry exactly its project names, in its order |
| `Swanlab.WorkspaceStage` | swanlab_api_tool.py:151-157 | a non-empty selection passes on; an exception or an empty selection becomes `None` |
| `Swanlab.ProjectStage` | swanlab_api_tool.py:160-168 | a non-empty result passes on; an empty one is replaced by the personal projects; any exception gives [] |
| `Swanlab.ExperimentStage` | swanlab_api_tool.py:171-179 | the experiment dict passes on; `None` and an exception give {} |
| `Swanlab.SwanlabPipeline` | swanlab_api_tool.py:138-191 | never raises: the metrics of a non-empty experiment dict, or {} when the dict is empty or fetching the metrics raised |
| `Swanlab.NoProjectsNoMetrics` | swanlab_api_tool.py:160-186 | with no projects anywhere, every stage falls back and the result is {} |

## Left out

- Process spawning, pipes, killing a process on timeout and the timeout value's effect are not modelled. `SpawnOutcome` stands for what `communicate` produced. The timeout is an explicit parameter; the default of 30 seconds is `LocalTerminal.DefaultTimeout`, and `LocalTerminal.DefaultTimeoutText` states the message of a default call that times out.
- paramiko is not modelled. `AuthOutcome`, `ChannelOutcome` and the `close` failure stand for what it reported. `NoTransportMessage` is the assumed text of the error paramiko raises when a client has no transport. The error `exec_command` raises on a transport whose handshake or authentication failed is a parameter (`execError`), not a fixed text. The `timeout` argument (remote.py:59-64, 130, 147) is passed to `exec_command` and is not modelled: a read that timed out is one of the failures `ChannelOutcome.ExecFailed` stands for.
- W&B, SwanLab, SMTP and all network access are not modelled. The SwanLab client calls and the W&B summary and artifact lookups are parameters returning data or an exception; the two W&B listings in `list_runs` are taken as total (next line).
- `RunListing.ListRuns`: `api.runs` (wandb_api_tool.py:94, src/experiment_tracking/wandb_api_tool.py:107) and `run.logged_artifacts()` (wandb_api_tool.py:97, src/experiment_tracking/wandb_api_tool.py:111) are taken as total: `runs` is a sequence and `logged` a total function. In the source they sit outside any `try`, so an exception either raises escapes `list_runs`; that path is not modelled, and the same holds for `RunListing.ListRunsShared` and `RunListing.ListRunsPerRun`.
- `get_summary` followed by `get_metrics` and `to_csv` is one parameter, `metricsCsv`.
- `lower()` is modelled on ASCII letters only; the Unicode case mappings of other characters are not modelled.
- Config values are numbers, strings and `None`; floats are reals, so NaN is not modelled. Booleans are the numbers 0 and 1, as Python compares and hashes them. Unhashable config values (lists, dicts), on which grouping raises `TypeError`, are not modelled.
- The type names in the sort's `TypeError` message are not modelled.
- `str()` of an arbitrary object is a parameter; it may raise in Python, and the summary conversion catching that is not modelled.
- The run fields copied with `getattr` (entity, id, metadata, name, path, state, url, config) are abstracted as the run itself; defaults for missing attributes are not modelled.
- The artifact download, `list_projects` and `wandb_login` are plain calls into W&B and are not modelled.
- The supervisor's endless loop, sleep, logging and e-mail are not modelled; one round is. Runs are iterated in the first-occurrence order of their ids.
- The asynchronous execution of the tools and the MCP registration are not modelled.
- The swanlab_api.py client, draw.py, the scripts under scripts/ and the package `__init__` files are not part of this model.
- An empty or whitespace-only command: the code raises `IndexError`, which the local tool reports as a generic execution error. The model follows the code, not a description that calls this an unknown command.
- `RunListing.ConvertSummary`: its contract states only the empty case. The full content is stated by `RunListing.ConvertSummarySpec`.
- `RunSelection.SortStable`: its contract states only the permutation. Sortedness is proved in `RunSelection.SortStableSorted` under the no-`TypeError` condition.

## Findings

| source | as written | input that shows it | evidently intended | confidence | as-written member | corrected member |
|---|---|---|---|---|---|---|
| remote.py:118 | `TerminalSecurityError` is raised and caught but neither defined nor imported in remote.py, so every rejection and every client error in `execute_remote_command` escapes as `NameError` | `execute_remote_command("rm -rf /")` | a failure record whose stderr reads "安全错误: 危险命令被拦截: rm", as in vscodeterminal.py | not executed | `RemoteShell.ExecuteRemoteCommandAsWritten` | `RemoteShell.ExecuteRemoteCommand` |
| wandb_api_tool.py:95 | the artifacts list is created once before the loop and shared by every run record, so each record lists the artifacts of all runs | two runs logging artifacts [1] and [2]: the first record shows [1, 2] | each record lists only its own run's artifacts, as in src/experiment_tracking/wandb_api_tool.py | not executed | `RunListing.ListRunsShared` | `RunListing.ListRunsPerRun` |
