/** `convert_to_string_dict`: a nested dict becomes a nested dict with string
    keys, everything else becomes its `str()` form. `str()` itself is a
    parameter of the model. */
module StringDict {

  /** The Python values the conversion distinguishes. Atoms stand for every
      value that is neither a dict, a list nor a tuple. */
  datatype PyObject =
    | PyDict(items: seq<(PyObject, PyObject)>)
    | PyList(elems: seq<PyObject>)
    | PyTuple(elems: seq<PyObject>)
    | Atom(id: nat)

  /** The converted value: a dict of strings to converted values, or a string. */
  datatype StrTree = SDict(entries: seq<(string, StrTree)>) | SLeaf(text: string)

  /** The keys of an entry list, in order. */
  function KeysOf<V>(entries: seq<(string, V)>): (ks: seq<string>)
    ensures |ks| == |entries|
    ensures forall i :: 0 <= i < |entries| ==> ks[i] == entries[i].0
  {
    seq(|entries|, i requires 0 <= i < |entries| => entries[i].0)
  }

  /** `d[key] = value` on an insertion-ordered dict: an existing key keeps its
      position and takes the new value; a new key is appended. */
  function Put<V>(entries: seq<(string, V)>, key: string, value: V): (r: seq<(string, V)>)
    ensures key in KeysOf(entries) ==> |r| == |entries|
    ensures key !in KeysOf(entries) ==> r == entries + [(key, value)]
    ensures forall i :: 0 <= i < |entries| ==> r[i] == (if entries[i].0 == key then (key, value) else entries[i])
  {
    if key in KeysOf(entries) then
      seq(|entries|, i requires 0 <= i < |entries| => if entries[i].0 == key then (key, value) else entries[i])
    else
      entries + [(key, value)]
  }

  /** A dict built by assigning the pairs one after the other. */
  function Collect<V>(pairs: seq<(string, V)>): (r: seq<(string, V)>)
    ensures |r| <= |pairs|
    ensures |pairs| > 0 ==> |r| > 0
  {
    if |pairs| == 0 then [] else Put(Collect(pairs[..|pairs| - 1]), pairs[|pairs| - 1].0, pairs[|pairs| - 1].1)
  }

  /** `convert_to_string_dict(obj)`: the dict comprehension evaluates
      `str(k)` and the converted value for every item, then assigns them in
      order; lists, tuples and atoms become `str(obj)`. */
  function Convert(str: PyObject -> string, obj: PyObject): (r: StrTree)
    ensures r.SDict? <==> obj.PyDict?
    ensures r.SLeaf? ==> r.text == str(obj)
    ensures r.SDict? ==> |r.entries| <= |obj.items|
    decreases obj
  {
    match obj
    case PyDict(items) =>
      SDict(Collect(seq(|items|, i requires 0 <= i < |items| => (str(items[i].0), Convert(str, items[i].1)))))
    case _ => SLeaf(str(obj))
  }

  /** The distinct keys of `ks`, in order of first occurrence. */
  function FirstKeys(ks: seq<string>): seq<string>
  {
    if |ks| == 0 then []
    else
      var f := FirstKeys(ks[..|ks| - 1]);
      if ks[|ks| - 1] in f then f else f + [ks[|ks| - 1]]
  }

  /** The position of the last occurrence of `k` in `ks`. */
  function LastIndex(ks: seq<string>, k: string): (i: nat)
    requires k in ks
    ensures i < |ks| && ks[i] == k
    ensures forall j :: i < j < |ks| ==> ks[j] != k
  {
    if ks[|ks| - 1] == k then |ks| - 1
    else
      assert k in ks[..|ks| - 1];
      LastIndex(ks[..|ks| - 1], k)
  }

  /** The position of the first occurrence of `k` in `ks`. */
  function FirstIndex(ks: seq<string>, k: string): (i: nat)
    requires k in ks
    ensures i < |ks| && ks[i] == k
    ensures forall j :: 0 <= j < i ==> ks[j] != k
  {
    if k in ks[..|ks| - 1] then FirstIndex(ks[..|ks| - 1], k) else |ks| - 1
  }

  /** The first-occurrence list holds each key of `ks` exactly once, ordered
      by where the key first occurs. */
  lemma {:induction false} FirstKeysSpec(ks: seq<string>)
    ensures forall k :: k in FirstKeys(ks) <==> k in ks
    ensures forall p, q :: 0 <= p < q < |FirstKeys(ks)| ==> FirstKeys(ks)[p] != FirstKeys(ks)[q]
    ensures forall p, q :: 0 <= p < q < |FirstKeys(ks)| ==>
      FirstIndex(ks, FirstKeys(ks)[p]) < FirstIndex(ks, FirstKeys(ks)[q])
  {
    if |ks| > 0 {
      var n := |ks| - 1;
      var init := ks[..n];
      FirstKeysSpec(init);
      assert ks == init + [ks[n]];
      var f := FirstKeys(ks);
      forall k | k in init
        ensures FirstIndex(ks, k) == FirstIndex(init, k)
      {
      }
      if ks[n] !in FirstKeys(init) {
        assert FirstIndex(ks, ks[n]) == n;
      }
    }
  }

  /** Without repeated keys, the first-occurrence list is the list itself. */
  lemma {:induction false} FirstKeysOfDistinct(ks: seq<string>)
    requires forall a, b :: 0 <= a < b < |ks| ==> ks[a] != ks[b]
    ensures FirstKeys(ks) == ks
  {
    if |ks| > 0 {
      var n := |ks| - 1;
      FirstKeysOfDistinct(ks[..n]);
      assert ks[n] !in ks[..n];
      assert ks == ks[..n] + [ks[n]];
    }
  }

  /** Assigning the pairs in order yields one entry per distinct key, in order
      of first assignment, holding the value of the LAST assignment. */
  lemma CollectSpec<V>(pairs: seq<(string, V)>)
    ensures KeysOf(Collect(pairs)) == FirstKeys(KeysOf(pairs))
    ensures forall p :: 0 <= p < |Collect(pairs)| ==>
      Collect(pairs)[p].0 in KeysOf(pairs)
      && Collect(pairs)[p].1 == pairs[LastIndex(KeysOf(pairs), Collect(pairs)[p].0)].1
  {
    CollectKeys(pairs);
    CollectValues(pairs);
  }

  /** The keys of the dict are the distinct keys assigned, in order of first assignment. */
  lemma {:induction false} CollectKeys<V>(pairs: seq<(string, V)>)
    ensures KeysOf(Collect(pairs)) == FirstKeys(KeysOf(pairs))
  {
    if |pairs| > 0 {
      var n := |pairs| - 1;
      var init := pairs[..n];
      CollectKeys(init);
      var prev := Collect(init);
      var r := Collect(pairs);
      var key := pairs[n].0;
      assert KeysOf(init) == KeysOf(pairs)[..n];
      assert r == Put(prev, key, pairs[n].1);
      if key in KeysOf(prev) {
        assert |r| == |prev|;
        forall i | 0 <= i < |r| ensures KeysOf(r)[i] == KeysOf(prev)[i] { }
      }
    }
  }

  /** Every entry of the dict holds the value of the last assignment to its key. */
  lemma {:induction false} CollectValues<V>(pairs: seq<(string, V)>)
    ensures forall p :: 0 <= p < |Collect(pairs)| ==>
      Collect(pairs)[p].0 in KeysOf(pairs)
      && Collect(pairs)[p].1 == pairs[LastIndex(KeysOf(pairs), Collect(pairs)[p].0)].1
  {
    if |pairs| > 0 {
      var n := |pairs| - 1;
      var init := pairs[..n];
      CollectValues(init);
      var prev := Collect(init);
      var r := Collect(pairs);
      var key := pairs[n].0;
      var ks := KeysOf(pairs);
      assert KeysOf(init) == ks[..n];
      assert r == Put(prev, key, pairs[n].1);
      forall p | 0 <= p < |r|
        ensures r[p].0 in ks && r[p].1 == pairs[LastIndex(ks, r[p].0)].1
      {
        if r[p].0 == key {
          assert LastIndex(ks, key) == n;
        } else {
          assert p < |prev| && r[p] == prev[p];
          var k := r[p].0;
          assert k in ks[..n];
          assert LastIndex(ks, k) == LastIndex(ks[..n], k);
        }
      }
    }
  }

  /** The string forms of the keys of `items`, in order. */
  function StrKeys(str: PyObject -> string, items: seq<(PyObject, PyObject)>): (ks: seq<string>)
    ensures |ks| == |items|
    ensures forall i :: 0 <= i < |items| ==> ks[i] == str(items[i].0)
  {
    seq(|items|, i requires 0 <= i < |items| => str(items[i].0))
  }

  /** A converted dict has one key per distinct `str(k)`, ordered by first
      occurrence, each holding the converted value of the LAST item whose key
      has that string form. */
  lemma ConvertDict(str: PyObject -> string, items: seq<(PyObject, PyObject)>)
    ensures Convert(str, PyDict(items)).SDict?
    ensures var r := Convert(str, PyDict(items)).entries;
      && KeysOf(r) == FirstKeys(StrKeys(str, items))
      && forall p :: 0 <= p < |r| ==>
           r[p].0 in StrKeys(str, items)
           && r[p].1 == Convert(str, items[LastIndex(StrKeys(str, items), r[p].0)].1)
  {
    var pairs := seq(|items|, i requires 0 <= i < |items| => (str(items[i].0), Convert(str, items[i].1)));
    assert KeysOf(pairs) == StrKeys(str, items);
    CollectSpec(pairs);
  }

  /** Two distinct keys with the same string form collide: the converted dict
      has one entry for them, and the later value wins. */
  lemma CollidingKeys(str: PyObject -> string, k1: PyObject, k2: PyObject, v1: PyObject, v2: PyObject)
    requires str(k1) == str(k2)
    ensures Convert(str, PyDict([(k1, v1), (k2, v2)])) == SDict([(str(k1), Convert(str, v2))])
  {
    var items := [(k1, v1), (k2, v2)];
    ConvertDict(str, items);
    var ks := StrKeys(str, items);
    assert ks == [str(k1), str(k1)];
    assert ks[..1] == [str(k1)] && ks[..1][..0] == [];
    assert FirstKeys(ks[..1]) == [str(k1)];
    assert FirstKeys(ks) == [str(k1)];
    assert LastIndex(ks, str(k1)) == 1;
  }
}
