/** `filter_runs_by_single_param_difference`: group the runs by their config
    with one parameter removed, keep the largest group (the first one created
    on ties), and sort it by the parameter's value with Python's stable sort. */
module RunSelection {
  import opened Base

  /** The config values the selection compares. `Num` stands for Python's
      int, float and bool, which compare with each other; `NoneV` is `None`,
      which compares with nothing. */
  datatype Value = NoneV | Num(x: real) | Str(s: string)

  type Config = map<string, Value>

  /** Python's `'<' not supported between instances` TypeError; the operand
      type names in the message are not modelled. */
  const UnorderableMessage := "'<' not supported between instances"

  /** `config.get(param_name, None)`. */
  function ParamValue(c: Config, param: string): (v: Value)
    ensures param !in c ==> v == NoneV
    ensures param in c ==> v == c[param]
  {
    if param in c then c[param] else NoneV
  }

  /** The config copy with `param_name` deleted, if present. */
  function Strip(c: Config, param: string): Config
  {
    c - {param}
  }

  /** `configs_without_param`. */
  function StrippedKeys(configs: seq<Config>, param: string): (keys: seq<Config>)
    ensures |keys| == |configs|
    ensures forall i :: 0 <= i < |configs| ==> keys[i] == Strip(configs[i], param)
  {
    seq(|configs|, i requires 0 <= i < |configs| => Strip(configs[i], param))
  }

  /** `param_values`. */
  function ParamValues(configs: seq<Config>, param: string): (vals: seq<Value>)
    ensures |vals| == |configs|
    ensures forall i :: 0 <= i < |configs| ==> vals[i] == ParamValue(configs[i], param)
  {
    seq(|configs|, i requires 0 <= i < |configs| => ParamValue(configs[i], param))
  }

  /** `config_groups[k]`: the indices whose key is `k`, ascending, as
      `enumerate` appends them. */
  function Members(keys: seq<Config>, k: Config): (g: seq<nat>)
    ensures forall i :: i in g <==> 0 <= i < |keys| && keys[i] == k
    ensures forall a :: 0 <= a < |g| ==> g[a] < |keys|
    ensures forall a, b :: 0 <= a < b < |g| ==> g[a] < g[b]
  {
    if |keys| == 0 then
      []
    else
      var n := |keys| - 1;
      var g := Members(keys[..n], k);
      if keys[n] == k then g + [n] else g
  }

  function Count(keys: seq<Config>, k: Config): nat
  {
    |Members(keys, k)|
  }

  /** The size of every run's group. */
  function GroupSizes(keys: seq<Config>): (sizes: seq<nat>)
    ensures |sizes| == |keys|
    ensures forall i :: 0 <= i < |keys| ==> sizes[i] == Count(keys, keys[i])
  {
    seq(|keys|, i requires 0 <= i < |keys| => Count(keys, keys[i]))
  }

  /** The first position, among the first `n`, of a largest size: `max`
      keeps the first maximum it meets. */
  function FirstMax(sizes: seq<nat>, n: nat): (b: nat)
    requires 0 < n <= |sizes|
    ensures b < n
    ensures forall i :: 0 <= i < n ==> sizes[i] <= sizes[b]
    ensures forall i :: 0 <= i < b ==> sizes[i] < sizes[b]
  {
    if n == 1 then
      0
    else
      var b := FirstMax(sizes, n - 1);
      if sizes[n - 1] > sizes[b] then n - 1 else b
  }

  /** `max(config_groups.values(), key=len)`: a complete group of equal keys,
      no group is larger, and every equally large group was created later. */
  function LargestGroup(keys: seq<Config>): (g: seq<nat>)
    requires |keys| > 0
    ensures |g| > 0 && g[0] < |keys|
    ensures forall a, b :: 0 <= a < b < |g| ==> g[a] < g[b]
    ensures forall i :: i in g ==> i < |keys| && keys[i] == keys[g[0]]
    ensures forall i :: 0 <= i < |keys| && keys[i] == keys[g[0]] ==> i in g
    ensures forall i :: 0 <= i < |keys| ==> Count(keys, keys[i]) <= |g|
    ensures forall i :: 0 <= i < g[0] ==> Count(keys, keys[i]) < |g|
  {
    var sizes := GroupSizes(keys);
    var b := FirstMax(sizes, |keys|);
    var g := Members(keys, keys[b]);
    assert b in g;
    LeaderOpensGroup(keys, sizes, b, g);
    g
  }

  /** The first largest position is the first member of its own group. */
  lemma LeaderOpensGroup(keys: seq<Config>, sizes: seq<nat>, b: nat, g: seq<nat>)
    requires |sizes| == |keys| && b < |keys|
    requires forall i :: 0 <= i < |keys| ==> sizes[i] == Count(keys, keys[i])
    requires forall i :: 0 <= i < b ==> sizes[i] < sizes[b]
    requires g == Members(keys, keys[b])
    ensures |g| > 0 && g[0] == b
  {
    assert b in g;
    var k :| 0 <= k < |g| && g[k] == b;
    assert g[0] in g;
    assert keys[g[0]] == keys[b];
    assert k == 0;
  }

  /** Python's string `<`: lexicographic by code point, a proper prefix first. */
  predicate StrLess(a: string, b: string)
  {
    |b| > 0 && (|a| == 0 || a[0] < b[0] || (a[0] == b[0] && StrLess(a[1..], b[1..])))
  }

  /** Python's `<` where it is defined: between numbers and between strings. */
  predicate Less(a: Value, b: Value)
  {
    match (a, b)
    case (Num(x), Num(y)) => x < y
    case (Str(s), Str(t)) => StrLess(s, t)
    case _ => false
  }

  predicate KindOf(v: Value, num: bool)
  {
    if num then v.Num? else v.Str?
  }

  /** Every indexed value is a number (`num`) or every one is a string (`!num`). */
  predicate OfKind(vals: seq<Value>, idx: seq<nat>, num: bool)
  {
    forall k :: 0 <= k < |idx| ==> idx[k] < |vals| && KindOf(vals[idx[k]], num)
  }

  /** The values can be sorted without a TypeError: a single index, or all
      numbers, or all strings. */
  predicate Sortable(vals: seq<Value>, idx: seq<nat>)
  {
    |idx| <= 1 || OfKind(vals, idx, true) || OfKind(vals, idx, false)
  }

  /** Index `i` goes before index `j` in a stable ascending sort of ascending
      indices: a smaller value, or an equal value and an earlier position. */
  predicate Before(vals: seq<Value>, i: nat, j: nat)
  {
    i < |vals| && j < |vals| && (Less(vals[i], vals[j]) || (vals[i] == vals[j] && i < j))
  }

  predicate SortedStable(vals: seq<Value>, out: seq<nat>)
  {
    forall a, b :: 0 <= a < b < |out| ==> Before(vals, out[a], out[b])
  }

  /** Where `x` goes among `s`: after the last element it is not less than. */
  function InsertPos(vals: seq<Value>, x: nat, s: seq<nat>): (p: nat)
    ensures p <= |s|
    ensures forall k :: p <= k < |s| ==> x < |vals| && s[k] < |vals| && Less(vals[x], vals[s[k]])
    ensures 0 < p ==> !(x < |vals| && s[p - 1] < |vals| && Less(vals[x], vals[s[p - 1]]))
  {
    if |s| == 0 then
      0
    else
      var n := |s| - 1;
      if x < |vals| && s[n] < |vals| && Less(vals[x], vals[s[n]]) then
        InsertPos(vals, x, s[..n])
      else
        |s|
  }

  /** Places `x` after every trailing element that is not greater than it. */
  function Insert(vals: seq<Value>, x: nat, s: seq<nat>): (r: seq<nat>)
    ensures |r| == |s| + 1
    ensures multiset(r) == multiset(s) + multiset{x}
  {
    var p := InsertPos(vals, x, s);
    assert s == s[..p] + s[p..];
    s[..p] + [x] + s[p..]
  }

  /** Where each element of `s` and `x` itself end up after the insertion. */
  lemma InsertLayout(vals: seq<Value>, x: nat, s: seq<nat>)
    ensures var p := InsertPos(vals, x, s);
      var r := Insert(vals, x, s);
      && (forall k :: 0 <= k < p ==> r[k] == s[k])
      && r[p] == x
      && (forall k :: p < k < |r| ==> r[k] == s[k - 1])
  {
    SpliceLayout(s, x, InsertPos(vals, x, s));
  }

  /** Splicing `x` in at position `p` shifts the elements from `p` on by one. */
  lemma SpliceLayout(s: seq<nat>, x: nat, p: nat)
    requires p <= |s|
    ensures var r := s[..p] + [x] + s[p..];
      && (forall k :: 0 <= k < p ==> r[k] == s[k])
      && r[p] == x
      && (forall k :: p < k < |r| ==> r[k] == s[k - 1])
  {
    var left := s[..p];
    var r := left + ([x] + s[p..]);
    assert forall k :: 0 <= k < p ==> r[k] == left[k];
    assert forall k :: p <= k < |r| ==> r[k] == ([x] + s[p..])[k - p];
  }

  /** `sorted(indices, key=lambda i: param_values[i])`, as an insertion sort. */
  function SortStable(vals: seq<Value>, g: seq<nat>): (out: seq<nat>)
    ensures |out| == |g|
    ensures multiset(out) == multiset(g)
    ensures forall k :: 0 <= k < |out| ==> out[k] in g
  {
    if |g| == 0 then
      []
    else
      var n := |g| - 1;
      assert g == g[..n] + [g[n]];
      var s := SortStable(vals, g[..n]);
      assert forall i :: i in g[..n] ==> i in g;
      Insert(vals, g[n], s)
  }

  lemma {:induction false} StrLessIrreflexive(a: string)
    ensures !StrLess(a, a)
  {
    if |a| > 0 {
      StrLessIrreflexive(a[1..]);
    }
  }

  lemma {:induction false} StrLessTransitive(a: string, b: string, c: string)
    requires StrLess(a, b) && StrLess(b, c)
    ensures StrLess(a, c)
  {
    if |a| > 0 && a[0] == b[0] && b[0] == c[0] {
      StrLessTransitive(a[1..], b[1..], c[1..]);
    }
  }

  lemma {:induction false} StrLessTotal(a: string, b: string)
    ensures a == b || StrLess(a, b) || StrLess(b, a)
  {
    if |a| > 0 && |b| > 0 && a[0] == b[0] {
      StrLessTotal(a[1..], b[1..]);
      if a[1..] == b[1..] {
        assert a == [a[0]] + a[1..] && b == [b[0]] + b[1..];
      }
    }
  }

  /** Between numbers, and between strings, `<` is a strict total order. */
  lemma LessOrder(u: Value, v: Value, w: Value)
    requires (u.Num? && v.Num? && w.Num?) || (u.Str? && v.Str? && w.Str?)
    ensures !Less(u, u)
    ensures u == v || Less(u, v) || Less(v, u)
    ensures Less(u, v) && Less(v, w) ==> Less(u, w)
  {
    if u.Str? {
      StrLessIrreflexive(u.s);
      StrLessTotal(u.s, v.s);
      if Less(u, v) && Less(v, w) {
        StrLessTransitive(u.s, v.s, w.s);
      }
    }
  }

  /** On indices whose values are of one kind, `Before` is transitive. */
  lemma BeforeTransitive(vals: seq<Value>, i: nat, j: nat, k: nat, num: bool)
    requires i < |vals| && j < |vals| && k < |vals|
    requires KindOf(vals[i], num) && KindOf(vals[j], num) && KindOf(vals[k], num)
    requires Before(vals, i, j) && Before(vals, j, k)
    ensures Before(vals, i, k)
  {
    LessOrder(vals[i], vals[j], vals[k]);
    LessOrder(vals[i], vals[k], vals[j]);
  }

  /** Inserting an index later than all others into a stably sorted run of
      one kind keeps it stably sorted. */
  lemma InsertSorted(vals: seq<Value>, x: nat, s: seq<nat>, num: bool)
    requires OfKind(vals, s, num) && x < |vals| && KindOf(vals[x], num)
    requires forall k :: 0 <= k < |s| ==> s[k] < x
    requires SortedStable(vals, s)
    ensures SortedStable(vals, Insert(vals, x, s))
  {
    var p := InsertPos(vals, x, s);
    var r := Insert(vals, x, s);
    InsertLayout(vals, x, s);
    if 0 < p {
      LessOrder(vals[x], vals[s[p - 1]], vals[x]);
      assert Before(vals, s[p - 1], x);
    }
    forall a, b | 0 <= a < b < |r|
      ensures Before(vals, r[a], r[b])
    {
      if b < p {
        assert r[a] == s[a] && r[b] == s[b];
      } else if a > p {
        assert r[a] == s[a - 1] && r[b] == s[b - 1];
      } else if a == p {
        assert r[a] == x && r[b] == s[b - 1];
      } else if b > p {
        assert r[a] == s[a] && r[b] == s[b - 1];
      } else if a < p - 1 {
        // s[a] is not after s[p - 1], which is not greater than x
        assert r[a] == s[a] && r[b] == x;
        BeforeTransitive(vals, s[a], s[p - 1], x, num);
      } else {
        assert r[a] == s[p - 1] && r[b] == x;
      }
    }
  }

  /** The insertion sort of ascending, sortable indices is stably sorted. */
  lemma {:induction false} SortStableSorted(vals: seq<Value>, g: seq<nat>)
    requires Sortable(vals, g) && (forall k :: 0 <= k < |g| ==> g[k] < |vals|)
    requires forall a, b :: 0 <= a < b < |g| ==> g[a] < g[b]
    ensures SortedStable(vals, SortStable(vals, g))
  {
    if |g| == 1 {
      assert SortStable(vals, g) == Insert(vals, g[0], []);
    } else if |g| > 1 {
      var n := |g| - 1;
      var init := g[..n];
      var num := OfKind(vals, g, true);
      assert OfKind(vals, g, num);
      PrefixOfKind(vals, g, init, num);
      SortStableSorted(vals, init);
      var s := SortStable(vals, init);
      SortedIndicesOfKind(vals, g, s, num);
      InsertSorted(vals, g[n], s, num);
      assert SortStable(vals, g) == Insert(vals, g[n], s);
    }
  }

  lemma PrefixOfKind(vals: seq<Value>, g: seq<nat>, init: seq<nat>, num: bool)
    requires |g| > 0 && init == g[..|g| - 1] && OfKind(vals, g, num)
    requires forall a, b :: 0 <= a < b < |g| ==> g[a] < g[b]
    ensures OfKind(vals, init, num) && Sortable(vals, init)
    ensures forall k :: 0 <= k < |init| ==> init[k] < |vals|
    ensures forall a, b :: 0 <= a < b < |init| ==> init[a] < init[b]
  {
  }

  lemma SortedIndicesOfKind(vals: seq<Value>, g: seq<nat>, s: seq<nat>, num: bool)
    requires |g| > 0 && OfKind(vals, g, num)
    requires forall a, b :: 0 <= a < b < |g| ==> g[a] < g[b]
    requires forall k :: 0 <= k < |s| ==> s[k] in g[..|g| - 1]
    ensures OfKind(vals, s, num)
    ensures forall k :: 0 <= k < |s| ==> s[k] < g[|g| - 1]
  {
    forall k | 0 <= k < |s|
      ensures s[k] < |vals| && KindOf(vals[s[k]], num) && s[k] < g[|g| - 1]
    {
      var m :| 0 <= m < |g| - 1 && g[..|g| - 1][m] == s[k];
      assert g[m] == s[k];
    }
  }

  /** Stable sorted order is unique: any arrangement of the same indices that
      is stably sorted by the same values is the same sequence. */
  lemma {:induction false} StableOrderUnique(vals: seq<Value>, a: seq<nat>, b: seq<nat>, num: bool)
    requires multiset(a) == multiset(b)
    requires OfKind(vals, a, num)
    requires SortedStable(vals, a) && SortedStable(vals, b)
    ensures a == b
  {
    assert |a| == |multiset(a)| == |b|;
    if |a| > 0 {
      HeadsAgree(vals, a, b, num);
      TailsAgree(vals, a, b, num);
      StableOrderUnique(vals, a[1..], b[1..], num);
      assert a == [a[0]] + a[1..] && b == [b[0]] + b[1..];
    }
  }

  /** Dropping a common head keeps both arrangements sorted and equal as multisets. */
  lemma TailsAgree(vals: seq<Value>, a: seq<nat>, b: seq<nat>, num: bool)
    requires |a| > 0 && |b| > 0 && a[0] == b[0] && multiset(a) == multiset(b)
    requires OfKind(vals, a, num)
    requires SortedStable(vals, a) && SortedStable(vals, b)
    ensures multiset(a[1..]) == multiset(b[1..])
    ensures OfKind(vals, a[1..], num)
    ensures SortedStable(vals, a[1..]) && SortedStable(vals, b[1..])
  {
    TailMultiset(a);
    TailMultiset(b);
  }

  lemma TailMultiset(a: seq<nat>)
    requires |a| > 0
    ensures multiset(a[1..]) == multiset(a) - multiset{a[0]}
  {
    assert a == [a[0]] + a[1..];
  }

  /** Two stably sorted arrangements of the same indices start alike. */
  lemma HeadsAgree(vals: seq<Value>, a: seq<nat>, b: seq<nat>, num: bool)
    requires |a| > 0 && |b| > 0 && multiset(a) == multiset(b)
    requires OfKind(vals, a, num)
    requires SortedStable(vals, a) && SortedStable(vals, b)
    ensures a[0] == b[0]
  {
    if a[0] != b[0] {
      assert b[0] in multiset(a) && a[0] in multiset(b);
      var k :| 0 <= k < |a| && a[k] == b[0];
      var m :| 0 <= m < |b| && b[m] == a[0];
      assert Before(vals, a[0], b[0]) && Before(vals, b[0], a[0]);
      LessOrder(vals[a[0]], vals[b[0]], vals[a[0]]);
      assert false;
    }
  }

  /** The selection on run configs: indices of the chosen runs in output
      order, or the TypeError the sort raises. */
  function SelectIndices(configs: seq<Config>, param: string): (r: Result<seq<nat>, PyError>)
    ensures |configs| == 0 ==> r == Ok([])
    ensures |configs| > 0 ==>
      var g := LargestGroup(StrippedKeys(configs, param));
      var vals := ParamValues(configs, param);
      && (r.Err? <==> !Sortable(vals, g))
      && (r.Err? ==> r.error == TypeError(UnorderableMessage))
      && (r.Ok? ==> multiset(r.value) == multiset(g) && SortedStable(vals, r.value))
    ensures r.Ok? ==> forall k :: 0 <= k < |r.value| ==> r.value[k] < |configs|
  {
    if |configs| == 0 then
      Ok([])
    else
      var keys := StrippedKeys(configs, param);
      var vals := ParamValues(configs, param);
      var g := LargestGroup(keys);
      if !Sortable(vals, g) then
        Err(TypeError(UnorderableMessage))
      else
        SortStableSorted(vals, g);
        Ok(SortStable(vals, g))
  }

  /** The configs of the runs, in order. */
  function ConfigsOf<R>(runs: seq<R>, configOf: R -> Config): (configs: seq<Config>)
    ensures |configs| == |runs|
    ensures forall i :: 0 <= i < |runs| ==> configs[i] == configOf(runs[i])
  {
    seq(|runs|, i requires 0 <= i < |runs| => configOf(runs[i]))
  }

  /** `[runs[i] for i in sorted_indices]`. */
  function Pick<R>(runs: seq<R>, idx: seq<nat>): (r: seq<R>)
    requires forall k :: 0 <= k < |idx| ==> idx[k] < |runs|
    ensures |r| == |idx|
    ensures forall k :: 0 <= k < |idx| ==> r[k] == runs[idx[k]]
  {
    seq(|idx|, k requires 0 <= k < |idx| => runs[idx[k]])
  }

  /** `filter_runs_by_single_param_difference` over the runs `list_runs`
      returned; `configOf` reads a run's `config`. */
  function FilterRunsBySingleParamDifference<R>(runs: seq<R>, configOf: R -> Config, param: string): (r: Result<seq<R>, PyError>)
    ensures |runs| == 0 ==> r == Ok([])
    ensures r.Err? <==> SelectIndices(ConfigsOf(runs, configOf), param).Err?
    ensures r.Err? ==> r.error == TypeError(UnorderableMessage)
    ensures r.Ok? ==>
      var idx := SelectIndices(ConfigsOf(runs, configOf), param).value;
      && |r.value| == |idx|
      && forall k :: 0 <= k < |idx| ==> idx[k] < |runs| && r.value[k] == runs[idx[k]]
  {
    var configs := ConfigsOf(runs, configOf);
    match SelectIndices(configs, param)
    case Err(e) => Err(e)
    case Ok(idx) => Ok(Pick(runs, idx))
  }

  /** A strictly increasing sequence holds each value at most once. */
  lemma {:induction false} IncreasingOnce(g: seq<nat>, x: nat)
    requires forall a, b :: 0 <= a < b < |g| ==> g[a] < g[b]
    ensures multiset(g)[x] <= 1
  {
    if |g| > 0 {
      var n := |g| - 1;
      assert g == g[..n] + [g[n]];
      IncreasingOnce(g[..n], x);
      if x == g[n] {
        assert x !in g[..n];
      }
    }
  }

  /** A rearrangement of a strictly increasing sequence holds the same
      values, each once. */
  lemma PermOfIncreasing(idx: seq<nat>, g: seq<nat>)
    requires multiset(idx) == multiset(g)
    requires forall a, b :: 0 <= a < b < |g| ==> g[a] < g[b]
    ensures |idx| == |g|
    ensures forall a :: 0 <= a < |idx| ==> idx[a] in g
    ensures forall i :: i in g ==> i in idx
    ensures forall a, b :: 0 <= a < b < |idx| ==> idx[a] != idx[b]
  {
    assert |idx| == |multiset(idx)| == |g|;
    forall a | 0 <= a < |idx|
      ensures idx[a] in g
    {
      assert idx[a] in multiset(idx);
    }
    forall i | i in g
      ensures i in idx
    {
      assert i in multiset(g);
    }
    forall a, b | 0 <= a < b < |idx|
      ensures idx[a] != idx[b]
    {
      var x := idx[b];
      IncreasingOnce(g, x);
      assert idx == idx[..b] + [x] + idx[b + 1..];
      assert multiset(idx)[x] == multiset(idx[..b])[x] + 1 + multiset(idx[b + 1..])[x];
      assert multiset(idx[..b])[x] == 0;
      assert idx[..b][a] == idx[a];
    }
  }

  /** The selected runs are distinct input runs. */
  lemma SelectedDistinct(configs: seq<Config>, param: string)
    requires |configs| > 0 && SelectIndices(configs, param).Ok?
    ensures var idx := SelectIndices(configs, param).value;
      && |idx| > 0
      && (forall a :: 0 <= a < |idx| ==> idx[a] < |configs|)
      && (forall a, b :: 0 <= a < b < |idx| ==> idx[a] != idx[b])
  {
    var idx := SelectIndices(configs, param).value;
    var keys := StrippedKeys(configs, param);
    var g := LargestGroup(keys);
    assert multiset(idx) == multiset(g);
    GroupArrangement(keys, g, idx);
  }

  /** `idx` is one complete group of equal keys: a non-empty set of indices
      whose keys agree, holding every index with that key. */
  predicate OneGroup(keys: seq<Config>, idx: seq<nat>)
  {
    && |idx| > 0
    && (forall a :: 0 <= a < |idx| ==> idx[a] < |keys|)
    && (forall a, b :: 0 <= a < |idx| && 0 <= b < |idx| ==> keys[idx[a]] == keys[idx[b]])
    && (forall i :: 0 <= i < |keys| && keys[i] == keys[idx[0]] ==> i in idx)
  }

  /** The selected runs form one complete group: their configs, and no
      other run's, are equal once `param` is removed. */
  lemma SelectedGroup(configs: seq<Config>, param: string)
    requires |configs| > 0 && SelectIndices(configs, param).Ok?
    ensures OneGroup(StrippedKeys(configs, param), SelectIndices(configs, param).value)
  {
    var keys := StrippedKeys(configs, param);
    SelectedPermutesGroup(configs, param);
    GroupArrangement(keys, LargestGroup(keys), SelectIndices(configs, param).value);
  }

  /** The selection is an arrangement of the largest group. */
  lemma SelectedPermutesGroup(configs: seq<Config>, param: string)
    requires |configs| > 0 && SelectIndices(configs, param).Ok?
    ensures multiset(SelectIndices(configs, param).value) == multiset(LargestGroup(StrippedKeys(configs, param)))
  {
  }

  /** `SelectedGroup` over abstract keys. */
  lemma GroupArrangement(keys: seq<Config>, g: seq<nat>, idx: seq<nat>)
    requires |g| > 0 && g[0] < |keys| && multiset(idx) == multiset(g)
    requires forall a, b :: 0 <= a < b < |g| ==> g[a] < g[b]
    requires forall i :: i in g ==> i < |keys| && keys[i] == keys[g[0]]
    requires forall i :: 0 <= i < |keys| && keys[i] == keys[g[0]] ==> i in g
    ensures OneGroup(keys, idx)
    ensures forall a, b :: 0 <= a < b < |idx| ==> idx[a] != idx[b]
  {
    PermOfIncreasing(idx, g);
    assert g[0] in g;
  }

  /** No group is larger than the selected one, and every equally large
      group starts after it: `max` kept the first largest group. */
  lemma SelectedLargest(configs: seq<Config>, param: string)
    requires |configs| > 0 && SelectIndices(configs, param).Ok?
    ensures var idx := SelectIndices(configs, param).value;
      var keys := StrippedKeys(configs, param);
      && (forall i :: 0 <= i < |configs| ==> Count(keys, keys[i]) <= |idx|)
      && (forall i :: 0 <= i < |configs| && i !in idx && Count(keys, keys[i]) == |idx| ==>
            exists j :: j in idx && j < i)
  {
    var keys := StrippedKeys(configs, param);
    GroupLargest(keys, LargestGroup(keys), SelectIndices(configs, param).value);
  }

  /** `SelectedLargest` over abstract keys. */
  lemma GroupLargest(keys: seq<Config>, g: seq<nat>, idx: seq<nat>)
    requires |g| > 0 && multiset(idx) == multiset(g)
    requires forall a, b :: 0 <= a < b < |g| ==> g[a] < g[b]
    requires forall i :: 0 <= i < |keys| ==> Count(keys, keys[i]) <= |g|
    requires g[0] <= |keys| && forall i :: 0 <= i < g[0] ==> Count(keys, keys[i]) < |g|
    ensures forall i :: 0 <= i < |keys| ==> Count(keys, keys[i]) <= |idx|
    ensures forall i :: 0 <= i < |keys| && i !in idx && Count(keys, keys[i]) == |idx| ==>
      exists j :: j in idx && j < i
  {
    PermOfIncreasing(idx, g);
    assert g[0] in g;
    forall i | 0 <= i < |keys| && i !in idx && Count(keys, keys[i]) == |idx|
      ensures g[0] in idx && g[0] < i
    {
    }
  }

  /** The selected runs come in ascending order of the parameter's value,
      runs with equal values in input order. */
  lemma SelectedOrder(configs: seq<Config>, param: string)
    requires |configs| > 0 && SelectIndices(configs, param).Ok?
    ensures var idx := SelectIndices(configs, param).value;
      var vals := ParamValues(configs, param);
      forall a, b :: 0 <= a < b < |idx| ==>
        Less(vals[idx[a]], vals[idx[b]]) || (vals[idx[a]] == vals[idx[b]] && idx[a] < idx[b])
  {
    var idx := SelectIndices(configs, param).value;
    var vals := ParamValues(configs, param);
    assert SortedStable(vals, idx);
    forall a, b | 0 <= a < b < |idx|
      ensures Less(vals[idx[a]], vals[idx[b]]) || (vals[idx[a]] == vals[idx[b]] && idx[a] < idx[b])
    {
      assert Before(vals, idx[a], idx[b]);
    }
  }

  /** A run missing `param` groups with the runs that had it: removing the
      key makes their configs equal. */
  lemma MissingParamGroupsTogether(c: Config, param: string, v: Value)
    requires param !in c
    ensures Strip(c[param := v], param) == Strip(c, param)
    ensures ParamValue(c, param) == NoneV
  {
  }

  /** Two stably sorted arrangements of one strictly increasing group are
      equal. */
  lemma SortedArrangementUnique(vals: seq<Value>, g: seq<nat>, a: seq<nat>, b: seq<nat>)
    requires forall x, y :: 0 <= x < y < |g| ==> g[x] < g[y]
    requires Sortable(vals, g) && (forall k :: 0 <= k < |g| ==> g[k] < |vals|)
    requires multiset(a) == multiset(g) && multiset(b) == multiset(g)
    requires SortedStable(vals, a) && SortedStable(vals, b)
    ensures a == b
  {
    PermOfIncreasing(a, g);
    PermOfIncreasing(b, g);
    if |g| == 1 {
      assert a[0] in g && b[0] in g;
    } else if |g| > 1 {
      var num := OfKind(vals, g, true);
      assert OfKind(vals, g, num);
      forall k | 0 <= k < |a|
        ensures a[k] < |vals| && KindOf(vals[a[k]], num)
      {
        var m :| 0 <= m < |g| && g[m] == a[k];
      }
      StableOrderUnique(vals, a, b, num);
    }
  }

  /** The output is THE stable ascending order of the group: any other
      arrangement of the group's indices that is stably sorted by the
      parameter values is the same sequence. */
  lemma SelectionIsStableSort(configs: seq<Config>, param: string, other: seq<nat>)
    requires |configs| > 0 && SelectIndices(configs, param).Ok?
    requires multiset(other) == multiset(LargestGroup(StrippedKeys(configs, param)))
    requires SortedStable(ParamValues(configs, param), other)
    ensures other == SelectIndices(configs, param).value
  {
    var g := LargestGroup(StrippedKeys(configs, param));
    SortedArrangementUnique(ParamValues(configs, param), g, SelectIndices(configs, param).value, other);
  }
}
