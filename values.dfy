/** Values shared by every component: optional values, results of calls that
    can raise, and the JSON-like values that scene files, style files and
    event payloads are made of. */
module Values {

  datatype Option<+T> = None | Some(value: T)

  /** The result of a step that either produces a value or raises (the
      error text is what Python's `str(e)` would give). */
  datatype Result<+T> = Ok(value: T) | Err(error: string)

  /** The outcome of an external call that returns nothing. */
  datatype Outcome = Pass | Fail(reason: string)

  /** A value as Python's `json` module produces it. An object keeps its keys
      in insertion order, as a Python `dict` does. */
  datatype Value =
    | VNull
    | VBool(b: bool)
    | VInt(i: int)
    | VReal(r: real)
    | VStr(s: string)
    | VList(items: seq<Value>)
    | VObj(fields: seq<(string, Value)>)

  /** The entries of a Python dict in insertion order. */
  type Fields = seq<(string, Value)>

  /** Keys of a dict. */
  function Keys(fs: Fields): set<string>
  {
    set e | e in fs :: e.0
  }

  /** No key occurs twice (every dict that `json.load` builds is like this). */
  ghost predicate DistinctKeys(fs: Fields)
    decreases |fs|
  {
    fs == [] || (fs[0].0 !in Keys(fs[1..]) && DistinctKeys(fs[1..]))
  }

  /** `d.get(k)`: the value under `k`, if any. */
  function Lookup(fs: Fields, k: string): (r: Option<Value>)
    ensures r.Some? <==> k in Keys(fs)
    ensures r.Some? ==> (k, r.value) in fs
  {
    if |fs| == 0 then None
    else if fs[0].0 == k then Some(fs[0].1)
    else Lookup(fs[1..], k)
  }

  /** `d[k] = v`: overwrite in place when present, append otherwise. */
  function Store(fs: Fields, k: string, v: Value): (r: Fields)
    ensures Keys(r) == Keys(fs) + {k}
    ensures Lookup(r, k) == Some(v)
    ensures k in Keys(fs) ==> |r| == |fs|
    ensures k !in Keys(fs) ==> r == fs + [(k, v)]
    ensures DistinctKeys(fs) ==> DistinctKeys(r)
    decreases |fs|
  {
    if |fs| == 0 then
      assert Keys([(k, v)][1..]) == {};
      [(k, v)]
    else if fs[0].0 == k then
      StoreHere(fs, k, v);
      [(k, v)] + fs[1..]
    else
      var rest := Store(fs[1..], k, v);
      StoreFurther(fs, k, v, rest);
      [fs[0]] + rest
  }

  /** `Store` when the first key is the one stored. */
  lemma StoreHere(fs: Fields, k: string, v: Value)
    requires |fs| > 0 && fs[0].0 == k
    ensures Keys([(k, v)] + fs[1..]) == Keys(fs) + {k}
    ensures Lookup([(k, v)] + fs[1..], k) == Some(v)
    ensures DistinctKeys(fs) ==> DistinctKeys([(k, v)] + fs[1..])
  {
    var r := [(k, v)] + fs[1..];
    assert fs == [fs[0]] + fs[1..];
    assert r[1..] == fs[1..];
    KeysCons(fs[0], fs[1..]);
    KeysCons((k, v), fs[1..]);
  }

  /** `Store` when the first key is another one, given what it does to the rest. */
  lemma StoreFurther(fs: Fields, k: string, v: Value, rest: Fields)
    requires |fs| > 0 && fs[0].0 != k
    requires Keys(rest) == Keys(fs[1..]) + {k}
    requires Lookup(rest, k) == Some(v)
    requires k in Keys(fs[1..]) ==> |rest| == |fs[1..]|
    requires k !in Keys(fs[1..]) ==> rest == fs[1..] + [(k, v)]
    requires DistinctKeys(fs[1..]) ==> DistinctKeys(rest)
    ensures Keys([fs[0]] + rest) == Keys(fs) + {k}
    ensures Lookup([fs[0]] + rest, k) == Some(v)
    ensures k in Keys(fs) ==> |[fs[0]] + rest| == |fs|
    ensures k !in Keys(fs) ==> [fs[0]] + rest == fs + [(k, v)]
    ensures DistinctKeys(fs) ==> DistinctKeys([fs[0]] + rest)
  {
    var r := [fs[0]] + rest;
    assert r[1..] == rest;
    assert fs == [fs[0]] + fs[1..];
    KeysCons(fs[0], fs[1..]);
    KeysCons(fs[0], rest);
    if k !in Keys(fs) {
      assert [fs[0]] + (fs[1..] + [(k, v)]) == fs + [(k, v)];
    }
    if DistinctKeys(fs) {
      DistinctCons(fs[0], rest);
    }
  }

  /** A first key that the rest does not have keeps the keys distinct. */
  lemma DistinctCons(e: (string, Value), t: Fields)
    requires e.0 !in Keys(t) && DistinctKeys(t)
    ensures DistinctKeys([e] + t)
  {
    assert ([e] + t)[1..] == t;
  }

  /** Distinct keys means no two entries, at any two positions, share a key. */
  lemma {:induction false} DistinctKeysPairwise(fs: Fields)
    ensures DistinctKeys(fs) ==> forall i, j :: 0 <= i < j < |fs| ==> fs[i].0 != fs[j].0
    decreases |fs|
  {
    if fs != [] && DistinctKeys(fs) {
      DistinctKeysPairwise(fs[1..]);
      forall j | 0 < j < |fs|
        ensures fs[0].0 != fs[j].0
      {
        assert fs[j] == fs[1..][j - 1];
        assert fs[j] in fs[1..];
      }
      forall i, j | 0 < i < j < |fs|
        ensures fs[i].0 != fs[j].0
      {
        assert fs[i] == fs[1..][i - 1] && fs[j] == fs[1..][j - 1];
      }
    }
  }

  /** `d.pop(k)`: the first entry under `k` goes, the order of the others stays. */
  function Remove(fs: Fields, k: string): (r: Fields)
    ensures k in Keys(fs) ==> |r| == |fs| - 1
    ensures k !in Keys(fs) ==> r == fs
    ensures Keys(r) <= Keys(fs)
    ensures DistinctKeys(fs) ==> DistinctKeys(r) && Keys(r) == Keys(fs) - {k}
  {
    if |fs| == 0 then fs
    else if fs[0].0 == k then
      assert fs == [fs[0]] + fs[1..];
      KeysCons(fs[0], fs[1..]);
      fs[1..]
    else
      var r := [fs[0]] + Remove(fs[1..], k);
      assert r[1..] == Remove(fs[1..], k);
      assert fs == [fs[0]] + fs[1..];
      KeysCons(fs[0], fs[1..]);
      KeysCons(fs[0], Remove(fs[1..], k));
      r
  }

  lemma KeysCons(e: (string, Value), t: Fields)
    ensures Keys([e] + t) == {e.0} + Keys(t)
  {
    assert forall x :: x in [e] + t <==> x == e || x in t;
  }

  /** Removing one key leaves the value under every other key as it was. */
  lemma {:induction false} RemoveOther(fs: Fields, k: string, other: string)
    requires other != k
    ensures Lookup(Remove(fs, k), other) == Lookup(fs, other)
  {
    if |fs| > 0 && fs[0].0 != k {
      RemoveOther(fs[1..], k, other);
      assert ([fs[0]] + Remove(fs[1..], k))[1..] == Remove(fs[1..], k);
    }
  }

  /** Storing under one key leaves the value under every other key as it was. */
  lemma {:induction false} StoreOther(fs: Fields, k: string, v: Value, other: string)
    requires other != k
    ensures Lookup(Store(fs, k, v), other) == Lookup(fs, other)
  {
    if |fs| > 0 && fs[0].0 != k {
      StoreOther(fs[1..], k, v, other);
      assert ([fs[0]] + Store(fs[1..], k, v))[1..] == Store(fs[1..], k, v);
    }
  }
}
