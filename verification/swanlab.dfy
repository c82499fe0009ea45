/** The SwanLab tools: select workspaces, collect their projects, map each
    project to its experiments or find one experiment, fetch the metrics of
    every experiment, and the pipeline that chains the four with a fallback
    after each stage. The SwanLab client is a parameter: every call it makes
    is a function returning the response data or the exception it raised. */
module Swanlab {
  import opened Base
  import opened StringDict

  /** The fields the tools read from a workspace record. */
  datatype Workspace = Workspace(name: string, username: string)

  /** A project record: its name and the username of its group. */
  datatype Project = Project(name: string, owner: string)

  /** An experiment record: its name, its id and the username of its user. */
  datatype Experiment = Experiment(name: string, cuid: string, user: string)

  /** The client calls. `metricsCsv(project, e)` stands for the summary-keys
      lookup followed by the metrics download and `to_csv`. */
  datatype Client = Client(
    workspaces: Result<seq<Workspace>, PyError>,
    projectsOf: string -> Result<seq<Project>, PyError>,
    personalProjects: Result<seq<Project>, PyError>,
    experimentsOf: (string, string) -> Result<seq<Experiment>, PyError>,
    metricsCsv: (string, Experiment) -> Result<string, PyError>)

  /** A Python dict, as its items in insertion order. */
  type Dict<V> = seq<(string, V)>

  /** `if name:`: `None` and the empty string are false. */
  predicate Given(name: Option<string>)
  {
    name.Some? && name.value != ""
  }

  /** `[x for x in s if p(x)]`. */
  function Filter<T(==,!new)>(s: seq<T>, p: T -> bool): (r: seq<T>)
    ensures |r| <= |s|
    ensures forall x :: x in r <==> x in s && p(x)
    ensures forall x :: multiset(r)[x] == if p(x) then multiset(s)[x] else 0
  {
    if |s| == 0 then
      []
    else
      var n := |s| - 1;
      assert s == s[..n] + [s[n]];
      Filter(s[..n], p) + (if p(s[n]) then [s[n]] else [])
  }

  /** The filter keeps input order: filtering a concatenation filters each
      part in place. With `FilterOne` this fixes the result, not only its
      multiset. */
  lemma {:induction false} FilterAppend<T(!new)>(a: seq<T>, b: seq<T>, p: T -> bool)
    ensures Filter(a + b, p) == Filter(a, p) + Filter(b, p)
    decreases |b|
  {
    if |b| == 0 {
      assert a + b == a;
    } else {
      var c, x := b[..|b| - 1], b[|b| - 1];
      assert b == c + [x];
      assert a + b == (a + c) + [x];
      FilterAppend(a, c, p);
      FilterSnoc(a + c, x, p);
      FilterSnoc(c, x, p);
      ConcatAssoc(Filter(a, p), Filter(c, p), if p(x) then [x] else []);
    }
  }

  /** One step of the filter: an element appended is kept at the end
      exactly when it satisfies the condition. */
  lemma FilterSnoc<T(!new)>(s: seq<T>, x: T, p: T -> bool)
    ensures Filter(s + [x], p) == Filter(s, p) + (if p(x) then [x] else [])
  {
  }

  /** Stated apart, so that the filter's facts stay out of its proof. */
  lemma ConcatAssoc<T>(x: seq<T>, y: seq<T>, z: seq<T>)
    ensures x + y + z == x + (y + z)
  {
  }

  /** A single element is kept exactly when it satisfies the condition. */
  lemma FilterOne<T(!new)>(x: T, p: T -> bool)
    ensures Filter([x], p) == (if p(x) then [x] else [])
  {
  }

  /** `[f(x) for x in xs]` where `f` may raise: the first exception escapes. */
  function Traverse<T, U>(xs: seq<T>, f: T -> Result<U, PyError>): (r: Result<seq<U>, PyError>)
    ensures r.Ok? <==> forall i :: 0 <= i < |xs| ==> f(xs[i]).Ok?
    ensures r.Ok? ==> |r.value| == |xs| && forall i :: 0 <= i < |xs| ==> r.value[i] == f(xs[i]).value
    ensures r.Err? ==>
      exists i :: 0 <= i < |xs| && f(xs[i]) == Err(r.error) && forall j :: 0 <= j < i ==> f(xs[j]).Ok?
  {
    if |xs| == 0 then
      Ok([])
    else
      var n := |xs| - 1;
      match Traverse(xs[..n], f)
      case Err(e) => Err(e)
      case Ok(us) =>
        match f(xs[n])
        case Err(e) => Err(e)
        case Ok(u) => Ok(us + [u])
  }

  /** `projects_list += projects` over the lists, in order. */
  function Flatten<T>(lists: seq<seq<T>>): seq<T>
  {
    if |lists| == 0 then [] else Flatten(lists[..|lists| - 1]) + lists[|lists| - 1]
  }

  lemma {:induction false} FlattenHas<T>(lists: seq<seq<T>>, x: T)
    ensures x in Flatten(lists) <==> exists i :: 0 <= i < |lists| && x in lists[i]
  {
    if |lists| > 0 {
      var n := |lists| - 1;
      FlattenHas(lists[..n], x);
      if x in lists[n] {
        assert 0 <= n < |lists| && x in lists[n];
      }
      if exists i :: 0 <= i < |lists| && x in lists[i] {
        var i :| 0 <= i < |lists| && x in lists[i];
        if i < n {
          assert lists[..n][i] == lists[i];
        }
      }
    }
  }

  /** The condition `ws["name"] == workspace_name` of `user_workspace`. */
  function NamedAs(name: string): Workspace -> bool
  {
    (w: Workspace) => w.name == name
  }

  /** `user_workspace`: the workspaces, kept in order only where "name"
      equals the given name when one is given; an empty selection is `None`. */
  function UserWorkspace(client: Client, workspaceName: Option<string>): (r: Result<Option<seq<Workspace>>, PyError>)
    ensures r.Err? <==> client.workspaces.Err?
    ensures r.Err? ==> r.error == client.workspaces.error
    ensures r.Ok? && !Given(workspaceName) ==>
      r.value == (if client.workspaces.value == [] then None else Some(client.workspaces.value))
    ensures r.Ok? && Given(workspaceName) ==>
      (r.value.None? <==> forall w :: w in client.workspaces.value ==> w.name != workspaceName.value)
    ensures r.Ok? && Given(workspaceName) && r.value.Some? ==>
      forall w :: multiset(r.value.value)[w] ==
        if w.name == workspaceName.value then multiset(client.workspaces.value)[w] else 0
    ensures r.Ok? && Given(workspaceName) && r.value.Some? ==>
      r.value.value == Filter(client.workspaces.value, NamedAs(workspaceName.value))
  {
    match client.workspaces
    case Err(e) => Err(e)
    case Ok(ws) =>
      var kept := if Given(workspaceName) then Filter(ws, NamedAs(workspaceName.value)) else ws;
      if kept == [] then
        Ok(None)
      else
        Ok(Some(kept))
  }

  /** `if workspaces:`: `None` and the empty list are false. */
  predicate Present<T>(xs: Option<seq<T>>)
  {
    xs.Some? && |xs.value| > 0
  }

  /** `user_workspace_project`: with workspaces, the projects of each
      workspace in order, filtered by name when one is given; without, the
      personal projects, whatever name is given. */
  function UserWorkspaceProject(client: Client, workspaces: Option<seq<Workspace>>, projectName: Option<string>): (r: Result<seq<Project>, PyError>)
    ensures !Present(workspaces) ==> r == client.personalProjects
    ensures Present(workspaces) ==>
      var lists := Traverse(workspaces.value, (w: Workspace) => client.projectsOf(w.username));
      && (r.Err? <==> lists.Err?)
      && (r.Ok? && !Given(projectName) ==> r.value == Flatten(lists.value))
      && (r.Ok? && Given(projectName) ==>
            r.value == Filter(Flatten(lists.value), (p: Project) => p.name == projectName.value))
  {
    if Present(workspaces) then
      match Traverse(workspaces.value, (w: Workspace) => client.projectsOf(w.username))
      case Err(e) => Err(e)
      case Ok(lists) =>
        var all := Flatten(lists);
        if Given(projectName) then Ok(Filter(all, (p: Project) => p.name == projectName.value)) else Ok(all)
    else
      client.personalProjects
  }

  /** The projects `user_workspace_project` returns with workspaces and no
      name are exactly those some workspace lists. */
  lemma WorkspaceProjectsFromEveryWorkspace(client: Client, ws: seq<Workspace>, p: Project)
    requires |ws| > 0 && UserWorkspaceProject(client, Some(ws), None).Ok?
    ensures p in UserWorkspaceProject(client, Some(ws), None).value <==>
      exists i :: 0 <= i < |ws| && p in client.projectsOf(ws[i].username).value
  {
    var lists := Traverse(ws, (w: Workspace) => client.projectsOf(w.username)).value;
    FlattenHas(lists, p);
  }

  /** The experiment list of every project, in order. */
  function ExperimentLists(client: Client, projects: seq<Project>): Result<seq<seq<Experiment>>, PyError>
  {
    Traverse(projects, (p: Project) => client.experimentsOf(p.name, p.owner))
  }

  /** The assignments `expe_dict[project["name"]] = experiments`, in order. */
  function Assignments<V>(projects: seq<Project>, values: seq<V>): (pairs: seq<(string, V)>)
    requires |values| == |projects|
    ensures |pairs| == |projects|
    ensures forall i :: 0 <= i < |projects| ==> pairs[i] == (projects[i].name, values[i])
  {
    seq(|projects|, i requires 0 <= i < |projects| => (projects[i].name, values[i]))
  }

  /** The position, entry then experiment, of the first experiment named
      `name` in scanning order. */
  function FirstMatch(d: Dict<seq<Experiment>>, name: string): (r: Option<(nat, nat)>)
    ensures r.None? <==> forall i, j :: 0 <= i < |d| && 0 <= j < |d[i].1| ==> d[i].1[j].name != name
    ensures r.Some? ==>
      var (i, j) := r.value;
      && i < |d| && j < |d[i].1| && d[i].1[j].name == name
      && (forall k :: 0 <= k < j ==> d[i].1[k].name != name)
      && (forall h, k :: 0 <= h < i && 0 <= k < |d[h].1| ==> d[h].1[k].name != name)
  {
    if |d| == 0 then
      None
    else
      match FindExperiment(d[0].1, name)
      case Some(j) => Some((0, j))
      case None =>
        match FirstMatch(d[1..], name)
        case None => None
        case Some((i, j)) =>
          assert d[1..][i] == d[i + 1];
          Some((i + 1, j))
  }

  /** The position of the first experiment named `name`. */
  function FindExperiment(es: seq<Experiment>, name: string): (r: Option<nat>)
    ensures r.None? <==> forall j :: 0 <= j < |es| ==> es[j].name != name
    ensures r.Some? ==>
      r.value < |es| && es[r.value].name == name && forall k :: 0 <= k < r.value ==> es[k].name != name
  {
    if |es| == 0 then None
    else if es[0].name == name then Some(0)
    else
      match FindExperiment(es[1..], name)
      case None => None
      case Some(j) => Some(j + 1)
  }

  /** `user_project_expe`: the dict of every project's experiments (a later
      project with the same name overwrites the earlier one); with an
      experiment name, the one-entry dict of the first match, or `None`. */
  function UserProjectExpe(client: Client, projects: seq<Project>, expeName: Option<string>): (r: Result<Option<Dict<seq<Experiment>>>, PyError>)
    ensures r.Err? <==> ExperimentLists(client, projects).Err?
    ensures r.Ok? && !Given(expeName) ==>
      r.value == Some(Collect(Assignments(projects, ExperimentLists(client, projects).value)))
    ensures r.Ok? && Given(expeName) ==>
      var d := Collect(Assignments(projects, ExperimentLists(client, projects).value));
      && (r.value.None? <==> FirstMatch(d, expeName.value).None?)
      && (r.value.Some? ==>
            var (i, j) := FirstMatch(d, expeName.value).value;
            r.value.value == [(d[i].0, [d[i].1[j]])])
  {
    match ExperimentLists(client, projects)
    case Err(e) => Err(e)
    case Ok(lists) =>
      var d := Collect(Assignments(projects, lists));
      if Given(expeName) then
        match FirstMatch(d, expeName.value)
        case None => Ok(None)
        case Some((i, j)) => Ok(Some([(d[i].0, [d[i].1[j]])]))
      else
        Ok(Some(d))
  }

  /** The experiment dict has one entry per distinct project name, in order
      of first occurrence, holding the experiments of the LAST project with
      that name. */
  lemma ExperimentDictSpec(client: Client, projects: seq<Project>)
    requires ExperimentLists(client, projects).Ok?
    ensures var lists := ExperimentLists(client, projects).value;
      var d := Collect(Assignments(projects, lists));
      var names := KeysOf(Assignments(projects, lists));
      && KeysOf(d) == FirstKeys(names)
      && forall p :: 0 <= p < |d| ==> d[p].0 in names && d[p].1 == lists[LastIndex(names, d[p].0)]
  {
    var lists := ExperimentLists(client, projects).value;
    CollectSpec(Assignments(projects, lists));
  }

  /** The csv of every experiment of one project, keyed by `cuid` (a later
      experiment with the same id overwrites). */
  function ProjectMetrics(client: Client, project: string, es: seq<Experiment>): (r: Result<Dict<string>, PyError>)
    ensures r.Ok? <==> forall k :: 0 <= k < |es| ==> client.metricsCsv(project, es[k]).Ok?
    ensures r.Ok? ==> KeysOf(r.value) == FirstKeys(KeysOf(CuidPairs(es)))
    ensures r.Ok? ==> forall p :: 0 <= p < |r.value| ==>
      && r.value[p].0 in KeysOf(CuidPairs(es))
      && r.value[p].1 == client.metricsCsv(project, es[LastIndex(KeysOf(CuidPairs(es)), r.value[p].0)]).value
  {
    match Traverse(es, (e: Experiment) => client.metricsCsv(project, e))
    case Err(e) => Err(e)
    case Ok(csvs) =>
      var pairs := seq(|es|, k requires 0 <= k < |es| => (es[k].cuid, csvs[k]));
      assert KeysOf(pairs) == KeysOf(CuidPairs(es));
      CollectSpec(pairs);
      Ok(Collect(pairs))
  }

  /** The experiment ids, each paired with its experiment. */
  function CuidPairs(es: seq<Experiment>): (pairs: seq<(string, Experiment)>)
    ensures |pairs| == |es|
    ensures forall k :: 0 <= k < |es| ==> pairs[k] == (es[k].cuid, es[k])
  {
    seq(|es|, k requires 0 <= k < |es| => (es[k].cuid, es[k]))
  }

  /** `get_expe_metrics`: for every project of the dict, in order, the dict
      of its experiments' csv; the first exception escapes. */
  function GetExpeMetrics(client: Client, expe: Dict<seq<Experiment>>): (r: Result<Dict<Dict<string>>, PyError>)
    ensures r.Ok? <==> forall p :: 0 <= p < |expe| ==> ProjectMetrics(client, expe[p].0, expe[p].1).Ok?
    ensures r.Ok? ==> KeysOf(r.value) == FirstKeys(KeysOf(expe))
    ensures r.Ok? ==> forall p :: 0 <= p < |r.value| ==>
      && r.value[p].0 in KeysOf(expe)
      && var entry := expe[LastIndex(KeysOf(expe), r.value[p].0)];
         ProjectMetrics(client, entry.0, entry.1).Ok?
         && r.value[p].1 == ProjectMetrics(client, entry.0, entry.1).value
  {
    match Traverse(expe, (entry: (string, seq<Experiment>)) => ProjectMetrics(client, entry.0, entry.1))
    case Err(e) => Err(e)
    case Ok(tables) =>
      var pairs := seq(|expe|, p requires 0 <= p < |expe| => (expe[p].0, tables[p]));
      assert KeysOf(pairs) == KeysOf(expe);
      CollectSpec(pairs);
      Ok(Collect(pairs))
  }

  /** In a dict no key repeats, so the metrics carry exactly its project
      names, in its order. */
  lemma MetricsKeepProjects(client: Client, expe: Dict<seq<Experiment>>)
    requires forall a, b :: 0 <= a < b < |expe| ==> expe[a].0 != expe[b].0
    requires GetExpeMetrics(client, expe).Ok?
    ensures KeysOf(GetExpeMetrics(client, expe).value) == KeysOf(expe)
  {
    FirstKeysOfDistinct(KeysOf(expe));
  }

  /** Step 1 of the pipeline: the workspaces, or `None` after an exception
      or an empty selection. */
  function WorkspaceStage(client: Client, workspaceName: Option<string>): (ws: Option<seq<Workspace>>)
    ensures ws.Some? ==> |ws.value| > 0 && UserWorkspace(client, workspaceName) == Ok(ws)
    ensures ws.None? <==> !(UserWorkspace(client, workspaceName).Ok? && UserWorkspace(client, workspaceName).value.Some?)
  {
    match UserWorkspace(client, workspaceName)
    case Ok(Some(ws)) => Some(ws)
    case _ => None
  }

  /** Step 2: the projects; an empty result is replaced by a refetch of the
      personal projects, and an exception in either call gives []. */
  function ProjectStage(client: Client, ws: Option<seq<Workspace>>, projectName: Option<string>): (ps: seq<Project>)
    ensures UserWorkspaceProject(client, ws, projectName).Err? ==> ps == []
    ensures UserWorkspaceProject(client, ws, projectName) == Ok([]) ==>
      ps == (match client.personalProjects case Ok(q) => q case Err(_) => [])
    ensures UserWorkspaceProject(client, ws, projectName).Ok? && UserWorkspaceProject(client, ws, projectName).value != [] ==>
      ps == UserWorkspaceProject(client, ws, projectName).value
  {
    match UserWorkspaceProject(client, ws, projectName)
    case Err(_) => []
    case Ok(ps) =>
      if ps != [] then
        ps
      else
        match UserWorkspaceProject(client, None, None)
        case Ok(q) => q
        case Err(_) => []
  }

  /** Step 3: the experiment dict; `None` and an exception both give {}. */
  function ExperimentStage(client: Client, ps: seq<Project>, expeName: Option<string>): (d: Dict<seq<Experiment>>)
    ensures UserProjectExpe(client, ps, expeName).Ok? && UserProjectExpe(client, ps, expeName).value.Some? ==>
      d == UserProjectExpe(client, ps, expeName).value.value
    ensures !(UserProjectExpe(client, ps, expeName).Ok? && UserProjectExpe(client, ps, expeName).value.Some?) ==> d == []
  {
    match UserProjectExpe(client, ps, expeName)
    case Ok(Some(d)) => d
    case _ => []
  }

  /** Step 4 and the result: the metrics of a non-empty experiment dict, or
      {} when the dict is empty or fetching the metrics raised. The pipeline
      never raises. */
  function SwanlabPipeline(client: Client, workspaceName: Option<string>, projectName: Option<string>, expeName: Option<string>): (m: Dict<Dict<string>>)
    ensures var d := ExperimentStage(client, ProjectStage(client, WorkspaceStage(client, workspaceName), projectName), expeName);
      && (d == [] ==> m == [])
      && (d != [] && GetExpeMetrics(client, d).Ok? ==> m == GetExpeMetrics(client, d).value)
      && (GetExpeMetrics(client, d).Err? ==> m == [])
  {
    var ws := WorkspaceStage(client, workspaceName);
    var ps := ProjectStage(client, ws, projectName);
    var d := ExperimentStage(client, ps, expeName);
    if d == [] then
      []
    else
      match GetExpeMetrics(client, d)
      case Ok(m) => m
      case Err(_) => []
  }

  /** With no projects at all, every stage falls back and the pipeline
      returns {}. */
  lemma NoProjectsNoMetrics(client: Client, workspaceName: Option<string>, projectName: Option<string>, expeName: Option<string>)
    requires UserWorkspaceProject(client, WorkspaceStage(client, workspaceName), projectName).Ok?
    requires UserWorkspaceProject(client, WorkspaceStage(client, workspaceName), projectName).value == []
    requires client.personalProjects == Ok([])
    ensures SwanlabPipeline(client, workspaceName, projectName, expeName) == []
  {
    var ps := ProjectStage(client, WorkspaceStage(client, workspaceName), projectName);
    assert ps == [];
    assert ExperimentLists(client, ps) == Ok([]);
    var none: seq<seq<Experiment>> := [];
    assert Collect(Assignments(ps, none)) == [];
  }
}
