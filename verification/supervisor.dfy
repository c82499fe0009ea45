/** One polling round of `supervise_experiments`: compare every run's state
    with the state seen in the previous round and notify on the runs that
    went from "running" to a final state. Fetching the runs, the e-mail and
    the sleep between rounds are outside the model. */
module Supervisor {
  import opened StringDict

  /** The fields of a W&B run the supervisor reads. */
  datatype Run = Run(id: string, name: string, state: string)

  /** One `send_notification(run_name, state, ...)` call, with the id of the
      run it concerns. */
  datatype Notice = Notice(id: string, name: string, state: string)

  const Running := "running"

  /** The final states, compared exactly: no case folding. */
  const Final := ["finished", "crashed", "failed"]

  /** The run ids in listing order. */
  function Ids(runs: seq<Run>): (ids: seq<string>)
    ensures |ids| == |runs|
    ensures forall i :: 0 <= i < |runs| ==> ids[i] == runs[i].id
  {
    seq(|runs|, i requires 0 <= i < |runs| => runs[i].id)
  }

  /** `{run.id: run.state for run in runs}`: the runs assigned one after the
      other, so a repeated id keeps the state of its LAST run. */
  function States(runs: seq<Run>): (m: map<string, string>)
    ensures forall id :: id in m <==> id in Ids(runs)
    ensures forall id :: id in m ==> m[id] == runs[LastIndex(Ids(runs), id)].state
  {
    if |runs| == 0 then
      map[]
    else
      var n := |runs| - 1;
      var prev := States(runs[..n]);
      StatesStep(runs, n);
      prev[runs[n].id := runs[n].state]
  }

  /** How ids and their last positions in `runs` relate to those of its
      prefix without the last run. */
  lemma StatesStep(runs: seq<Run>, n: nat)
    requires n == |runs| - 1
    ensures Ids(runs[..n]) == Ids(runs)[..n]
    ensures forall id :: id in Ids(runs) <==> id in Ids(runs[..n]) || id == runs[n].id
    ensures forall id :: id in Ids(runs[..n]) && id != runs[n].id ==>
      LastIndex(Ids(runs), id) == LastIndex(Ids(runs[..n]), id)
  {
    var ids := Ids(runs);
    assert ids == ids[..n] + [runs[n].id];
  }

  /** The name `next(run.name for run in runs if run.id == run_id)` yields:
      that of the FIRST listed run with the id. */
  function NameOf(runs: seq<Run>, id: string): (name: string)
    requires id in Ids(runs)
    ensures exists k ::
      && 0 <= k < |runs| && runs[k].id == id && name == runs[k].name
      && (forall j :: 0 <= j < k ==> runs[j].id != id)
  {
    var k := FirstIndex(Ids(runs), id);
    assert runs[k].id == id && forall j :: 0 <= j < k ==> runs[j].id != id;
    runs[FirstIndex(Ids(runs), id)].name
  }

  /** The notification condition: the previous state is exactly "running"
      (`prev_states.get` gives `None` for an unseen id) and the current state
      is a final one. */
  predicate Fires(prev: map<string, string>, id: string, state: string)
  {
    id in prev && prev[id] == Running && state in Final
  }

  /** The ids of a run of notices, in order. */
  function NoticeIds(notes: seq<Notice>): (ids: seq<string>)
    ensures |ids| == |notes|
    ensures forall k :: 0 <= k < |notes| ==> ids[k] == notes[k].id
  {
    seq(|notes|, k requires 0 <= k < |notes| => notes[k].id)
  }

  /** The second loop over `current_states.items()`, taken in `order`. */
  function Notices(prev: map<string, string>, cur: map<string, string>, order: seq<string>, runs: seq<Run>): (notes: seq<Notice>)
    requires forall k :: 0 <= k < |order| ==> order[k] in cur && order[k] in Ids(runs)
    ensures |notes| <= |order|
    ensures forall k :: 0 <= k < |notes| ==>
      && notes[k].id in order && notes[k].id in cur
      && Fires(prev, notes[k].id, cur[notes[k].id]) && notes[k].state == cur[notes[k].id]
  {
    if |order| == 0 then
      []
    else
      var n := |order| - 1;
      var id := order[n];
      var before := Notices(prev, cur, order[..n], runs);
      assert forall k :: 0 <= k < |before| ==> before[k].id in order;
      before + (if Fires(prev, id, cur[id]) then [Notice(id, NameOf(runs, id), cur[id])] else [])
  }

  /** A run is notified iff it is listed and fires; nothing is sent when no
      listed run fires. */
  lemma NoticesIff(prev: map<string, string>, cur: map<string, string>, order: seq<string>, runs: seq<Run>)
    requires forall k :: 0 <= k < |order| ==> order[k] in cur && order[k] in Ids(runs)
    ensures var notes := Notices(prev, cur, order, runs);
      && (forall id :: id in NoticeIds(notes) <==> id in order && Fires(prev, id, cur[id]))
      && ((forall k :: 0 <= k < |order| ==> !Fires(prev, order[k], cur[order[k]])) ==> notes == [])
  {
    NoticesMembership(prev, cur, order, runs);
    var notes := Notices(prev, cur, order, runs);
    if notes != [] {
      var id := NoticeIds(notes)[0];
      assert id in order && Fires(prev, id, cur[id]);
      var k :| 0 <= k < |order| && order[k] == id;
    }
  }

  /** The notified ids are exactly the listed ids that fire. */
  lemma {:induction false} NoticesMembership(prev: map<string, string>, cur: map<string, string>, order: seq<string>, runs: seq<Run>)
    requires forall k :: 0 <= k < |order| ==> order[k] in cur && order[k] in Ids(runs)
    ensures forall id :: id in NoticeIds(Notices(prev, cur, order, runs)) <==> id in order && Fires(prev, id, cur[id])
  {
    if |order| > 0 {
      var n := |order| - 1;
      var id := order[n];
      NoticesMembership(prev, cur, order[..n], runs);
      var before := Notices(prev, cur, order[..n], runs);
      var notes := Notices(prev, cur, order, runs);
      assert order == order[..n] + [id];
      if Fires(prev, id, cur[id]) {
        assert NoticeIds(notes) == NoticeIds(before) + [id];
      } else {
        assert notes == before;
      }
    }
  }

  /** A run fires only on a real transition: it was known, it was
      "running", and it is now in a different, final state. */
  lemma FiringIsTransition(prev: map<string, string>, id: string, state: string)
    ensures Fires(prev, id, state) <==>
      id in prev && prev[id] == Running && state != Running && state in Final
  {
  }

  /** `xs` lists ids of `ids`, ascending by where each first occurs there. */
  predicate Ascends(ids: seq<string>, xs: seq<string>)
  {
    && (forall k :: 0 <= k < |xs| ==> xs[k] in ids)
    && forall a, b :: 0 <= a < b < |xs| ==> FirstIndex(ids, xs[a]) < FirstIndex(ids, xs[b])
  }

  lemma AscendsPrefix(ids: seq<string>, xs: seq<string>, n: nat)
    requires Ascends(ids, xs) && n <= |xs|
    ensures Ascends(ids, xs[..n])
  {
  }

  lemma AscendsAppend(ids: seq<string>, xs: seq<string>, z: string)
    requires Ascends(ids, xs) && z in ids
    requires forall k :: 0 <= k < |xs| ==> FirstIndex(ids, xs[k]) < FirstIndex(ids, z)
    ensures Ascends(ids, xs + [z])
  {
  }

  /** The first-occurrence list of `ks` ascends by first position in `ks`. */
  lemma FirstKeysAscend(ks: seq<string>)
    ensures Ascends(ks, FirstKeys(ks))
  {
    FirstKeysSpec(ks);
  }

  /** The notices keep the order of `order`: when the ids in `order` ascend
      by their first position among the runs, so do the notified ids. */
  lemma {:induction false} NoticesOrdered(prev: map<string, string>, cur: map<string, string>, order: seq<string>, runs: seq<Run>)
    requires forall k :: 0 <= k < |order| ==> order[k] in cur && order[k] in Ids(runs)
    requires Ascends(Ids(runs), order)
    ensures Ascends(Ids(runs), NoticeIds(Notices(prev, cur, order, runs)))
  {
    if |order| > 0 {
      var n := |order| - 1;
      var id := order[n];
      var ids := Ids(runs);
      AscendsPrefix(ids, order, n);
      NoticesOrdered(prev, cur, order[..n], runs);
      var before := NoticeIds(Notices(prev, cur, order[..n], runs));
      var after := NoticeIds(Notices(prev, cur, order, runs));
      if Fires(prev, id, cur[id]) {
        assert after == before + [id];
        forall k | 0 <= k < |before|
          ensures FirstIndex(ids, before[k]) < FirstIndex(ids, id)
        {
          var p :| 0 <= p < n && order[..n][p] == before[k];
          assert order[p] == before[k];
        }
        AscendsAppend(ids, before, id);
      } else {
        assert after == before;
      }
    }
  }

  /** Every notice is about a listed run, carries its current state and the
      name of the first run listed with its id, and no id is notified twice. */
  predicate WellFormedNotices(notes: seq<Notice>, cur: map<string, string>, order: seq<string>, runs: seq<Run>)
  {
    && (forall k :: 0 <= k < |notes| ==>
         && notes[k].id in order && notes[k].id in cur && notes[k].id in Ids(runs)
         && notes[k].state == cur[notes[k].id]
         && notes[k].name == NameOf(runs, notes[k].id))
    && (forall a, b :: 0 <= a < b < |notes| ==> notes[a].id != notes[b].id)
  }

  /** Every notice carries the run's current state and the name of the first
      run listed with its id; no id is notified twice when `order` has no
      repeats. */
  lemma {:induction false} NoticesFields(prev: map<string, string>, cur: map<string, string>, order: seq<string>, runs: seq<Run>)
    requires forall k :: 0 <= k < |order| ==> order[k] in cur && order[k] in Ids(runs)
    requires forall a, b :: 0 <= a < b < |order| ==> order[a] != order[b]
    ensures WellFormedNotices(Notices(prev, cur, order, runs), cur, order, runs)
  {
    if |order| > 0 {
      var n := |order| - 1;
      var id := order[n];
      NoticesFields(prev, cur, order[..n], runs);
      var before := Notices(prev, cur, order[..n], runs);
      var notes := Notices(prev, cur, order, runs);
      assert forall k :: 0 <= k < |before| ==> before[k].id in order[..n];
      assert id !in order[..n];
      assert order == order[..n] + [id];
      if Fires(prev, id, cur[id]) {
        assert notes == before + [Notice(id, NameOf(runs, id), cur[id])];
      } else {
        assert notes == before;
      }
    }
  }

  /** One round: the notices sent, in the order of first appearance of the
      ids among the runs, and the map that becomes `prev_states`. */
  function Poll(prev: map<string, string>, runs: seq<Run>): (r: (seq<Notice>, map<string, string>))
    ensures r.1 == States(runs)
    ensures forall id :: id in NoticeIds(r.0) <==> id in r.1 && Fires(prev, id, r.1[id])
    ensures (forall id :: id in r.1 ==> !Fires(prev, id, r.1[id])) ==> r.0 == []
    ensures forall k :: 0 <= k < |r.0| ==>
      && r.0[k].id in Ids(runs)
      && r.0[k].state == runs[LastIndex(Ids(runs), r.0[k].id)].state
      && r.0[k].name == runs[FirstIndex(Ids(runs), r.0[k].id)].name
    ensures forall a, b :: 0 <= a < b < |r.0| ==> r.0[a].id != r.0[b].id
  {
    var cur := States(runs);
    var order := FirstKeys(Ids(runs));
    FirstKeysSpec(Ids(runs));
    NoticesIff(prev, cur, order, runs);
    NoticesFields(prev, cur, order, runs);
    (Notices(prev, cur, order, runs), cur)
  }

  /** The notices of a round come in the order in which their ids first
      appear among the runs. */
  lemma PollOrdered(prev: map<string, string>, runs: seq<Run>)
    ensures Ascends(Ids(runs), NoticeIds(Poll(prev, runs).0))
  {
    var cur := States(runs);
    var order := FirstKeys(Ids(runs));
    FirstKeysSpec(Ids(runs));
    FirstKeysAscend(Ids(runs));
    NoticesOrdered(prev, cur, order, runs);
  }

  /** The first round, with no previous states, sends nothing. */
  lemma FirstPollSilent(runs: seq<Run>)
    ensures Poll(map[], runs).0 == []
  {
  }


  /** A run that is new in this round, or that has disappeared since the last
      one, is never notified. */
  lemma NewOrGoneSilent(prev: map<string, string>, runs: seq<Run>, id: string)
    requires id !in prev || id !in Ids(runs)
    ensures id !in NoticeIds(Poll(prev, runs).0)
  {
  }

  /** The states are replaced wholesale after each round, so polling the same
      runs again sends nothing: a run that stays final is notified once. */
  lemma RepeatedPollSilent(prev: map<string, string>, runs: seq<Run>)
    ensures Poll(Poll(prev, runs).1, runs).0 == []
  {
    var next := Poll(prev, runs).1;
    assert Running !in Final;
  }

  /** The state comparison is case-sensitive: "RUNNING" does not count as
      "running". */
  lemma CaseSensitive()
    ensures Poll(map["r1" := "RUNNING"], [Run("r1", "exp", "finished")]).0 == []
    ensures Poll(map["r1" := "running"], [Run("r1", "exp", "finished")]).0 == [Notice("r1", "exp", "finished")]
  {
    var runs := [Run("r1", "exp", "finished")];
    assert Ids(runs) == ["r1"];
    assert States(runs) == map["r1" := "finished"] by {
      assert runs[..0] == [];
    }
    assert FirstKeys(["r1"]) == ["r1"] by {
      assert ["r1"][..0] == [];
    }
    var notes := Poll(map["r1" := "running"], runs).0;
    assert "r1" in NoticeIds(notes);
    assert FirstIndex(["r1"], "r1") == 0;
  }

  /** When the same id is listed twice, the notice carries the first run's
      name and the last run's state. */
  lemma DuplicateIdUsesFirstNameLastState()
    ensures Poll(map["r" := "running"], [Run("r", "a", "running"), Run("r", "b", "failed")]).0
      == [Notice("r", "a", "failed")]
  {
    var prev := map["r" := "running"];
    var runs := [Run("r", "a", "running"), Run("r", "b", "failed")];
    var ids := Ids(runs);
    assert ids == ["r", "r"];
    assert ids[..1] == ["r"] && ids[..1][..0] == [];
    assert FirstKeys(ids[..1]) == ["r"];
    assert FirstKeys(ids) == ["r"];
    assert LastIndex(ids, "r") == 1;
    assert FirstIndex(ids, "r") == 0;
    var cur := States(runs);
    assert cur["r"] == "failed";
    assert NameOf(runs, "r") == "a";
    assert ["r"][..0] == [];
    assert Notices(prev, cur, ["r"], runs) == [Notice("r", "a", "failed")];
  }

}
