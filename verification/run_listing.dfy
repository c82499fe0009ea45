/** `list_runs`: one record per run, carrying the run's artifact list and its
    summary. The two copies of the tool differ in where the artifact list is
    created; the model makes list identity explicit with a small heap of list
    objects, so that aliasing is visible. */
module RunListing {
  import opened Base
  import opened StringDict

  /** A run record. `run` stands for the fields copied from the run with
      `getattr` (entity, id, metadata, name, path, state, url, config);
      `artifacts` is the identity of the list object stored under
      "artifacts". */
  datatype Record<R, S> = Record(run: R, summary: S, artifacts: nat)

  /** The returned records together with the list objects they refer to. */
  datatype Listing<R, S, A> = Listing(records: seq<Record<R, S>>, heap: map<nat, seq<A>>)

  /** Every record's artifact list exists. */
  predicate Resolved<R, S, A>(l: Listing<R, S, A>)
  {
    forall i :: 0 <= i < |l.records| ==> l.records[i].artifacts in l.heap
  }

  /** What a caller sees once `list_runs` has returned: each record's run and
      the contents of its artifact list at that moment. */
  function View<R, S, A>(l: Listing<R, S, A>): (v: seq<(R, seq<A>)>)
    requires Resolved(l)
    ensures |v| == |l.records|
  {
    seq(|l.records|, i requires 0 <= i < |l.records| => (l.records[i].run, l.heap[l.records[i].artifacts]))
  }

  /** All runs' artifacts, run after run. */
  function AllArtifacts<R, A>(runs: seq<R>, logged: R -> seq<A>): seq<A>
  {
    if |runs| == 0 then [] else AllArtifacts(runs[..|runs| - 1], logged) + logged(runs[|runs| - 1])
  }

  /** The list object created once before the loop in the root copy. */
  const Shared: nat := 0

  /** The root copy of `list_runs`: one `artifacts` list, created before the
      loop, is extended with every run's artifacts and stored in every record.
      `logged` is `run.logged_artifacts()` and `summaryOf` is `dict(run.summary)`. */
  function ListRunsShared<R, S, A>(runs: seq<R>, logged: R -> seq<A>, summaryOf: R -> S): (l: Listing<R, S, A>)
    ensures |l.records| == |runs|
    ensures Shared in l.heap && l.heap[Shared] == AllArtifacts(runs, logged)
    ensures forall i :: 0 <= i < |runs| ==>
      l.records[i] == Record(runs[i], summaryOf(runs[i]), Shared)
  {
    if |runs| == 0 then
      Listing([], map[Shared := []])
    else
      var n := |runs| - 1;
      var prev := ListRunsShared(runs[..n], logged, summaryOf);
      Listing(prev.records + [Record(runs[n], summaryOf(runs[n]), Shared)],
              prev.heap[Shared := prev.heap[Shared] + logged(runs[n])])
  }

  /** The corrected copy: a fresh list per run, created inside the loop; run
      `i`'s list is the object `i`. */
  function ListRunsPerRun<R, S, A>(runs: seq<R>, logged: R -> seq<A>, summaryOf: R -> S): (l: Listing<R, S, A>)
    ensures |l.records| == |runs|
    ensures forall k :: k in l.heap ==> k < |runs|
    ensures forall i :: 0 <= i < |runs| ==>
      && l.records[i] == Record(runs[i], summaryOf(runs[i]), i)
      && i in l.heap && l.heap[i] == logged(runs[i])
  {
    if |runs| == 0 then
      Listing([], map[])
    else
      var n := |runs| - 1;
      var prev := ListRunsPerRun(runs[..n], logged, summaryOf);
      Listing(prev.records + [Record(runs[n], summaryOf(runs[n]), n)],
              prev.heap[n := logged(runs[n])])
  }

  /** In the root copy every record shows the artifacts of ALL runs, not its
      own. */
  lemma SharedListSeesAll<R, S, A>(runs: seq<R>, logged: R -> seq<A>, summaryOf: R -> S)
    ensures Resolved(ListRunsShared(runs, logged, summaryOf))
    ensures var v := View(ListRunsShared(runs, logged, summaryOf));
      forall i :: 0 <= i < |runs| ==> v[i] == (runs[i], AllArtifacts(runs, logged))
  {
  }

  /** In the corrected copy every record shows exactly its own run's artifacts,
      and no two records share a list. */
  lemma PerRunListsAreOwn<R, S, A>(runs: seq<R>, logged: R -> seq<A>, summaryOf: R -> S)
    ensures Resolved(ListRunsPerRun(runs, logged, summaryOf))
    ensures var l := ListRunsPerRun(runs, logged, summaryOf);
      && (forall i :: 0 <= i < |runs| ==> View(l)[i] == (runs[i], logged(runs[i])))
      && (forall i, j :: 0 <= i < j < |runs| ==> l.records[i].artifacts != l.records[j].artifacts)
  {
    var l := ListRunsPerRun(runs, logged, summaryOf);
    assert Resolved(l);
    var v := View(l);
    forall i | 0 <= i < |runs|
      ensures v[i] == (runs[i], logged(runs[i]))
    {
      assert l.records[i].artifacts == i;
    }
  }

  /** Two runs logging one artifact each: the root copy reports both
      artifacts on the first run, the corrected copy only the first run's. */
  lemma SharedListCounterexample()
    ensures var logged := (r: int) => [r];
      var summaryOf := (r: int) => 0;
      && View(ListRunsShared([1, 2], logged, summaryOf))[0] == (1, [1, 2])
      && View(ListRunsPerRun([1, 2], logged, summaryOf))[0] == (1, [1])
  {
    var logged := (r: int) => [r];
    var summaryOf := (r: int) => 0;
    assert [1, 2][..1] == [1] && [1][..0] == [];
    assert AllArtifacts([1], logged) == [1];
    assert AllArtifacts([1, 2], logged) == [1, 2];
    SharedListSeesAll([1, 2], logged, summaryOf);
    PerRunListsAreOwn([1, 2], logged, summaryOf);
  }

  /** What the summary conversion can observe of `run.summary`: the outcome
      of iterating `keys()`, whether `_summary` exists and the outcome of
      listing its keys, and the outcome of reading each key. */
  datatype SummarySource = SummarySource(
    keys: Result<seq<PyObject>, PyError>,
    fallback: Option<Result<seq<PyObject>, PyError>>,
    lookup: PyObject -> Result<PyObject, PyError>)

  /** The value stored for a key whose lookup raised. */
  const Unavailable := "N/A"

  /** The keys the conversion goes through, or `None` when listing them
      raised outside the per-key handler. */
  function SummaryKeys(src: SummarySource): (r: Option<seq<PyObject>>)
    ensures src.keys.Ok? ==> r == Some(src.keys.value)
    ensures src.keys.Err? && src.fallback.None? ==> r == Some([])
    ensures src.keys.Err? && src.fallback.Some? ==>
      (r.None? <==> src.fallback.value.Err?)
      && (r.Some? ==> r.value == src.fallback.value.value)
  {
    match src.keys
    case Ok(ks) => Some(ks)
    case Err(_) =>
      match src.fallback
      case None => Some([])
      case Some(Err(_)) => None
      case Some(Ok(ks)) => Some(ks)
  }

  /** One assignment `summary_dict_str[str(key)] = ...`. */
  function SummaryEntry(str: PyObject -> string, src: SummarySource, key: PyObject): (string, StrTree)
  {
    (str(key), match src.lookup(key) case Ok(v) => Convert(str, v) case Err(_) => SLeaf(Unavailable))
  }

  /** The summary of one run in the corrected copy: every listed key becomes
      `str(key)` holding the converted value, or "N/A" when reading it raised;
      listing the keys with no usable fallback gives an empty dict. */
  function ConvertSummary(str: PyObject -> string, src: SummarySource): (d: seq<(string, StrTree)>)
    ensures SummaryKeys(src).None? ==> d == []
  {
    match SummaryKeys(src)
    case None => []
    case Some(ks) => Collect(seq(|ks|, i requires 0 <= i < |ks| => SummaryEntry(str, src, ks[i])))
  }

  /** The converted summary holds one entry per distinct `str()` of the
      listed keys, in order of first occurrence, each with the value of the
      LAST key of that form: its converted value, or "N/A" if reading it
      raised. */
  lemma ConvertSummarySpec(str: PyObject -> string, src: SummarySource)
    requires SummaryKeys(src).Some?
    ensures var ks := SummaryKeys(src).value;
      var d := ConvertSummary(str, src);
      var names := seq(|ks|, i requires 0 <= i < |ks| => str(ks[i]));
      && KeysOf(d) == FirstKeys(names)
      && forall p :: 0 <= p < |d| ==>
           d[p].0 in names
           && var k := ks[LastIndex(names, d[p].0)];
              d[p].1 == (match src.lookup(k) case Ok(v) => Convert(str, v) case Err(_) => SLeaf(Unavailable))
  {
    var ks := SummaryKeys(src).value;
    var pairs := seq(|ks|, i requires 0 <= i < |ks| => SummaryEntry(str, src, ks[i]));
    var names := seq(|ks|, i requires 0 <= i < |ks| => str(ks[i]));
    assert KeysOf(pairs) == names;
    CollectSpec(pairs);
  }

  /** A key whose lookup raises still gets an entry, holding "N/A". */
  lemma FailedLookupIsUnavailable(str: PyObject -> string, key: PyObject, e: PyError)
    ensures var src := SummarySource(Ok([key]), None, (k: PyObject) => Err(e));
      ConvertSummary(str, src) == [(str(key), SLeaf(Unavailable))]
  {
    var src := SummarySource(Ok([key]), None, (k: PyObject) => Err(e));
    var pairs := seq(1, i requires 0 <= i < 1 => SummaryEntry(str, src, [key][i]));
    assert pairs == [(str(key), SLeaf(Unavailable))];
    assert pairs[..0] == [];
  }

  /** The corrected copy of `list_runs` with its summary conversion. */
  function ListRuns<R, A>(runs: seq<R>, logged: R -> seq<A>, str: PyObject -> string, summaryOf: R -> SummarySource): (l: Listing<R, seq<(string, StrTree)>, A>)
    ensures Resolved(l) && |l.records| == |runs|
    ensures forall i :: 0 <= i < |runs| ==>
      && View(l)[i] == (runs[i], logged(runs[i]))
      && l.records[i].summary == ConvertSummary(str, summaryOf(runs[i]))
  {
    var convert := (r: R) => ConvertSummary(str, summaryOf(r));
    PerRunListsAreOwn(runs, logged, convert);
    ListRunsPerRun(runs, logged, convert)
  }
}
