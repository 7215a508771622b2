/** Dictionaries that keep their insertion order, as the program's dictionaries do. */
module Dict {
  import opened Options

  type Dict<V> = seq<(string, V)>

  function Get<V>(d: Dict<V>, k: string): Option<V>
    decreases |d|
  {
    if d == [] then None
    else if d[0].0 == k then Some(d[0].1)
    else Get(d[1..], k)
  }

  /** Replaces the value of a key in its place, or adds the key at the end. */
  function Put<V>(d: Dict<V>, k: string, v: V): Dict<V>
    decreases |d|
  {
    if d == [] then [(k, v)]
    else if d[0].0 == k then [(k, v)] + d[1..]
    else [d[0]] + Put(d[1..], k, v)
  }

  function Pop<V>(d: Dict<V>, k: string): (r: Dict<V>)
    ensures |r| <= |d|
    decreases |d|
  {
    if d == [] then []
    else if d[0].0 == k then Pop(d[1..], k)
    else [d[0]] + Pop(d[1..], k)
  }

  predicate Unique<V>(d: Dict<V>) {
    forall i, j :: 0 <= i < j < |d| ==> d[i].0 != d[j].0
  }

  function Keys<V>(d: Dict<V>): set<string> {
    set i | 0 <= i < |d| :: d[i].0
  }

  lemma {:induction false} KeysCons<V>(d: Dict<V>)
    requires d != []
    ensures Keys(d) == {d[0].0} + Keys(d[1..])
    ensures Unique(d) ==> Unique(d[1..]) && d[0].0 !in Keys(d[1..])
    ensures d[0].0 !in Keys(d[1..]) && Unique(d[1..]) ==> Unique(d)
  {
    forall k | k in Keys(d)
      ensures k in {d[0].0} + Keys(d[1..])
    {
      var i :| 0 <= i < |d| && d[i].0 == k;
      if i > 0 {
        assert d[1..][i - 1].0 == k;
      }
    }
    forall k | k in Keys(d[1..])
      ensures k in Keys(d)
    {
      var i :| 0 <= i < |d[1..]| && d[1..][i].0 == k;
      assert d[i + 1].0 == k;
    }
    if d[0].0 !in Keys(d[1..]) && Unique(d[1..]) {
      forall i, j | 0 <= i < j < |d|
        ensures d[i].0 != d[j].0
      {
        assert d[j].0 == d[1..][j - 1].0;
        if i > 0 {
          assert d[i].0 == d[1..][i - 1].0;
        }
      }
    }
  }

  lemma {:induction false} GetHas<V>(d: Dict<V>, k: string)
    ensures Get(d, k).Some? <==> k in Keys(d)
    ensures Get(d, k).Some? ==> (k, Get(d, k).value) in d
    decreases |d|
  {
    if d != [] {
      KeysCons(d);
      GetHas(d[1..], k);
    }
  }

  lemma {:induction false} GetIn<V>(d: Dict<V>, i: nat)
    requires Unique(d) && i < |d|
    ensures Get(d, d[i].0) == Some(d[i].1)
    decreases |d|
  {
    KeysCons(d);
    if i > 0 {
      assert d[1..][i - 1] == d[i];
      GetIn(d[1..], i - 1);
    }
  }

  lemma {:induction false} PutGet<V>(d: Dict<V>, k: string, v: V, x: string)
    ensures Get(Put(d, k, v), x) == if x == k then Some(v) else Get(d, x)
    decreases |d|
  {
    if d != [] {
      PutGet(d[1..], k, v, x);
    }
  }

  lemma {:induction false} PutKeys<V>(d: Dict<V>, k: string, v: V)
    ensures Keys(Put(d, k, v)) == Keys(d) + {k}
    ensures Unique(d) ==> Unique(Put(d, k, v))
    decreases |d|
  {
    if d == [] {
      assert Put(d, k, v)[0].0 == k;
    } else {
      KeysCons(d);
      var p := Put(d, k, v);
      KeysCons(p);
      if d[0].0 != k {
        PutKeys(d[1..], k, v);
        assert p[1..] == Put(d[1..], k, v);
      } else {
        assert p[1..] == d[1..];
      }
    }
  }

  /** The entries after an update: those of other keys as before, and the new one. */
  lemma {:induction false} PutEntries<V>(d: Dict<V>, k: string, v: V)
    requires Unique(d)
    ensures forall e :: e in Put(d, k, v) ==> (e.0 == k && e.1 == v) || (e.0 != k && e in d)
    ensures (k, v) in Put(d, k, v)
    decreases |d|
  {
    if d != [] {
      KeysCons(d);
      if d[0].0 == k {
        assert forall e :: e in d[1..] ==> e.0 in Keys(d[1..]);
        assert Put(d, k, v)[0] == (k, v);
      } else {
        PutEntries(d[1..], k, v);
        assert Put(d, k, v)[1..] == Put(d[1..], k, v);
      }
    } else {
      assert Put(d, k, v) == [(k, v)];
    }
  }

  lemma {:induction false} PopGet<V>(d: Dict<V>, k: string, x: string)
    ensures Get(Pop(d, k), x) == if x == k then None else Get(d, x)
    decreases |d|
  {
    if d != [] {
      PopGet(d[1..], k, x);
    }
  }

  lemma {:induction false} PopKeys<V>(d: Dict<V>, k: string)
    ensures Keys(Pop(d, k)) == Keys(d) - {k}
    ensures Unique(d) ==> Unique(Pop(d, k))
    decreases |d|
  {
    if d != [] {
      KeysCons(d);
      PopKeys(d[1..], k);
      if d[0].0 != k {
        var p := Pop(d, k);
        KeysCons(p);
        assert p[1..] == Pop(d[1..], k);
      }
    }
  }

  /** Same keys in the same order, with each value changed by a function. */
  function MapValues<V, W>(f: V -> W, d: Dict<V>): (r: Dict<W>)
    ensures |r| == |d| && forall i :: 0 <= i < |d| ==> r[i] == (d[i].0, f(d[i].1))
    decreases |d|
  {
    if d == [] then [] else [(d[0].0, f(d[0].1))] + MapValues(f, d[1..])
  }

  lemma {:induction false} MapValuesGet<V, W>(f: V -> W, d: Dict<V>, k: string)
    ensures Get(MapValues(f, d), k) == match Get(d, k) case None => None case Some(v) => Some(f(v))
    decreases |d|
  {
    if d != [] {
      MapValuesGet(f, d[1..], k);
    }
  }
}
