/**
 JSON-like values as the Python scripts see them after `json.load` or
 `MessageToDict`: None, booleans, integers, floats, strings, lists and dicts.

 A Python dict keeps insertion order, and several of the modelled functions
 iterate over dicts to build batches, so a dict is an association list
 (`Fields`) and not a `map`. `Put` is `d[k] = v` (replace in place, or append a
 new key) and `Pop` is `d.pop(k, None)`.
 */
module Json {

  datatype Option<+T> = None | Some(value: T)

  /** A Python call that either returns a value or raises (the message names the exception). */
  datatype Result<+T> = Ok(value: T) | Err(msg: string) {
    predicate IsFailure() { Err? }

    function PropagateFailure<U>(): Result<U>
      requires Err?
    {
      Err(msg)
    }

    function Extract(): T
      requires Ok?
    {
      value
    }
  }

  type Fields = seq<(string, Json)>

  datatype Json =
    | Null
    | Bool(b: bool)
    | Int(i: int)
    | Float(r: real)
    | Str(s: string)
    | Arr(items: seq<Json>)
    | Obj(fields: Fields)

  /** Python truthiness: None, False, 0, 0.0, "", [] and {} are falsy. */
  predicate Truthy(j: Json) {
    match j
    case Null => false
    case Bool(b) => b
    case Int(i) => i != 0
    case Float(r) => r != 0.0
    case Str(s) => s != ""
    case Arr(items) => items != []
    case Obj(fields) => fields != []
  }

  /** `a or b` on values. */
  function Or(a: Json, b: Json): (r: Json)
    ensures Truthy(a) ==> r == a
    ensures !Truthy(a) ==> r == b
  {
    if Truthy(a) then a else b
  }

  // ---------------------------------------------------------------------------
  // Dicts as association lists
  // ---------------------------------------------------------------------------

  /** An association list: a Python dict with keys of type `K`, in insertion order. */
  type Table<K, V> = seq<(K, V)>

  function Keys<K(==), V>(fs: Table<K, V>): set<K> {
    set i | 0 <= i < |fs| :: fs[i].0
  }

  lemma KeysCons<K, V>(p: (K, V), fs: Table<K, V>)
    ensures Keys([p] + fs) == {p.0} + Keys(fs)
  {
    var r := [p] + fs;
    forall k | k in Keys(r) ensures k in {p.0} + Keys(fs) {
      var i :| 0 <= i < |r| && r[i].0 == k;
      if i > 0 { assert fs[i - 1].0 == k; }
    }
    forall k | k in Keys(fs) ensures k in Keys(r) {
      var i :| 0 <= i < |fs| && fs[i].0 == k;
      assert r[i + 1].0 == k;
    }
    assert r[0].0 == p.0;
  }

  lemma KeysTail<K, V>(fs: Table<K, V>)
    requires fs != []
    ensures Keys(fs) == {fs[0].0} + Keys(fs[1..])
  {
    assert fs == [fs[0]] + fs[1..];
    KeysCons(fs[0], fs[1..]);
  }

  /** Python dicts never repeat a key. */
  predicate Wf<K(==), V>(fs: Table<K, V>) {
    forall i, j :: 0 <= i < j < |fs| ==> fs[i].0 != fs[j].0
  }

  /** The value stored under `k` (the first one, which is the only one in a well-formed dict). */
  function Get<K(==), V>(fs: Table<K, V>, k: K): (r: Option<V>)
    ensures r.Some? <==> k in Keys(fs)
    ensures r.Some? ==> (k, r.value) in fs
  {
    if fs == [] then None
    else if fs[0].0 == k then Some(fs[0].1)
    else
      KeysTail(fs);
      Get(fs[1..], k)
  }

  lemma GetCons<K, V>(p: (K, V), fs: Table<K, V>, k: K)
    ensures Get([p] + fs, k) == if p.0 == k then Some(p.1) else Get(fs, k)
  {
    assert ([p] + fs)[1..] == fs;
  }

  /** In a well-formed dict every entry is what `Get` finds under its key. */
  lemma {:induction false} GetAt<K, V>(fs: Table<K, V>, i: int)
    requires Wf(fs) && 0 <= i < |fs|
    ensures Get(fs, fs[i].0) == Some(fs[i].1)
  {
    if i > 0 {
      assert fs[0].0 != fs[i].0;
      assert fs[1..][i - 1] == fs[i];
      GetAt(fs[1..], i - 1);
    }
  }

  /** `Get` finds the entry at `i` when no earlier entry has its key. */
  lemma {:induction false} GetFirst<K, V>(fs: Table<K, V>, i: int)
    requires 0 <= i < |fs| && forall j | 0 <= j < i :: fs[j].0 != fs[i].0
    ensures Get(fs, fs[i].0) == Some(fs[i].1)
  {
    if i > 0 {
      assert fs[1..][i - 1] == fs[i];
      GetFirst(fs[1..], i - 1);
    }
  }

  /** `d.get(k, default)` on a dict. */
  function GetOr<K(==), V>(fs: Table<K, V>, k: K, default: V): (r: V)
    ensures k !in Keys(fs) ==> r == default
    ensures k in Keys(fs) ==> Some(r) == Get(fs, k)
  {
    match Get(fs, k)
    case Some(v) => v
    case None => default
  }

  /** `d[k] = v`: an existing key keeps its position, a new key is appended. */
  function Put<K(==,!new), V>(fs: Table<K, V>, k: K, v: V): (r: Table<K, V>)
    ensures Keys(r) == Keys(fs) + {k}
    ensures Get(r, k) == Some(v)
    ensures forall k' :: k' != k ==> Get(r, k') == Get(fs, k')
    ensures Wf(fs) ==> Wf(r)
    ensures k in Keys(fs) ==> |r| == |fs|
    ensures k !in Keys(fs) ==> r == fs + [(k, v)]
  {
    if fs == [] then
      PutEmpty(k, v);
      [(k, v)]
    else if fs[0].0 == k then
      var r := [(k, v)] + fs[1..];
      PutHead(fs, k, v);
      r
    else
      var rest := Put(fs[1..], k, v);
      var r := [fs[0]] + rest;
      PutCons(fs, k, v, rest);
      r
  }

  /** Storing the value a key already holds changes nothing. */
  lemma {:induction false} PutSame<K(!new), V>(fs: Table<K, V>, k: K, v: V)
    requires Get(fs, k) == Some(v)
    ensures Put(fs, k, v) == fs
  {
    if fs[0].0 != k {
      PutSame(fs[1..], k, v);
    }
  }

  /** Every pair of `d` after `d[k] = v` is either the new pair or the pair that was there. */
  lemma {:induction false} PutFrom<K(!new), V>(fs: Table<K, V>, k: K, v: V, i: nat)
    requires i < |Put(fs, k, v)|
    ensures Put(fs, k, v)[i] == (k, v) || (i < |fs| && Put(fs, k, v)[i] == fs[i])
  {
    if fs != [] && fs[0].0 != k && i > 0 {
      PutFrom(fs[1..], k, v, i - 1);
    }
  }

  lemma PutHead<K, V>(fs: Table<K, V>, k: K, v: V)
    requires fs != [] && fs[0].0 == k
    ensures Keys([(k, v)] + fs[1..]) == Keys(fs) + {k}
    ensures Get([(k, v)] + fs[1..], k) == Some(v)
    ensures forall k' :: k' != k ==> Get([(k, v)] + fs[1..], k') == Get(fs, k')
    ensures Wf(fs) ==> Wf([(k, v)] + fs[1..])
  {
    KeysTail(fs);
    KeysCons((k, v), fs[1..]);
    assert fs == [fs[0]] + fs[1..];
    WfCons(fs[0], fs[1..]);
    WfCons((k, v), fs[1..]);
    forall k' | k' != k ensures Get([(k, v)] + fs[1..], k') == Get(fs, k') {
      GetCons((k, v), fs[1..], k');
      GetCons(fs[0], fs[1..], k');
    }
    GetCons((k, v), fs[1..], k);
  }

  lemma PutCons<K, V>(fs: Table<K, V>, k: K, v: V, rest: Table<K, V>)
    requires fs != [] && fs[0].0 != k
    requires Keys(rest) == Keys(fs[1..]) + {k}
    requires Get(rest, k) == Some(v)
    requires forall k' :: k' != k ==> Get(rest, k') == Get(fs[1..], k')
    requires Wf(fs[1..]) ==> Wf(rest)
    requires k !in Keys(fs[1..]) ==> rest == fs[1..] + [(k, v)]
    requires k in Keys(fs[1..]) ==> |rest| == |fs[1..]|
    ensures Keys([fs[0]] + rest) == Keys(fs) + {k}
    ensures Get([fs[0]] + rest, k) == Some(v)
    ensures forall k' :: k' != k ==> Get([fs[0]] + rest, k') == Get(fs, k')
    ensures Wf(fs) ==> Wf([fs[0]] + rest)
    ensures k !in Keys(fs) ==> [fs[0]] + rest == fs + [(k, v)]
    ensures k in Keys(fs) ==> |[fs[0]] + rest| == |fs|
  {
    KeysTail(fs);
    PutConsKeys(fs, k, rest);
    PutConsGet(fs, k, v, rest);
    PutConsWf(fs, k, rest);
    PutConsAppend(fs, k, v, rest);
  }

  lemma PutEmpty<K, V>(k: K, v: V)
    ensures Keys([(k, v)]) == {k}
    ensures Get([(k, v)], k) == Some(v)
    ensures forall k' :: k' != k ==> Get([(k, v)], k') == None
    ensures Wf([(k, v)])
  {
    KeysCons((k, v), []);
  }

  lemma PutConsKeys<K, V>(fs: Table<K, V>, k: K, rest: Table<K, V>)
    requires fs != []
    requires Keys(rest) == Keys(fs[1..]) + {k}
    ensures Keys([fs[0]] + rest) == Keys(fs) + {k}
  {
    KeysTail(fs);
    KeysCons(fs[0], rest);
  }

  lemma PutConsGet<K, V>(fs: Table<K, V>, k: K, v: V, rest: Table<K, V>)
    requires fs != [] && fs[0].0 != k
    requires Get(rest, k) == Some(v)
    requires forall k' :: k' != k ==> Get(rest, k') == Get(fs[1..], k')
    ensures Get([fs[0]] + rest, k) == Some(v)
    ensures forall k' :: k' != k ==> Get([fs[0]] + rest, k') == Get(fs, k')
  {
    GetCons(fs[0], rest, k);
    forall k' | k' != k
      ensures Get([fs[0]] + rest, k') == Get(fs, k')
    {
      GetCons(fs[0], rest, k');
      GetUncons(fs, k');
    }
  }

  lemma GetUncons<K, V>(fs: Table<K, V>, k: K)
    requires fs != []
    ensures Get(fs, k) == if fs[0].0 == k then Some(fs[0].1) else Get(fs[1..], k)
  {
  }

  lemma PutConsWf<K, V>(fs: Table<K, V>, k: K, rest: Table<K, V>)
    requires fs != [] && fs[0].0 != k
    requires Keys(rest) == Keys(fs[1..]) + {k}
    requires Wf(fs[1..]) ==> Wf(rest)
    ensures Wf(fs) ==> Wf([fs[0]] + rest)
  {
    assert fs == [fs[0]] + fs[1..];
    WfCons(fs[0], fs[1..]);
    WfCons(fs[0], rest);
  }

  lemma PutConsAppend<K, V>(fs: Table<K, V>, k: K, v: V, rest: Table<K, V>)
    requires fs != []
    requires k !in Keys(fs[1..]) ==> rest == fs[1..] + [(k, v)]
    ensures k !in Keys(fs) ==> [fs[0]] + rest == fs + [(k, v)]
  {
    KeysTail(fs);
    if k !in Keys(fs) {
      assert fs == [fs[0]] + fs[1..];
      assert [fs[0]] + rest == [fs[0]] + (fs[1..] + [(k, v)]);
    }
  }

  lemma WfCons<K, V>(p: (K, V), fs: Table<K, V>)
    ensures Wf([p] + fs) <==> p.0 !in Keys(fs) && Wf(fs)
  {
    var r := [p] + fs;
    if Wf(r) {
      forall i | 0 <= i < |fs| ensures fs[i].0 != p.0 {
        assert r[0] == p && r[i + 1] == fs[i];
        assert r[0].0 != r[i + 1].0;
      }
      forall i, j | 0 <= i < j < |fs| ensures fs[i].0 != fs[j].0 {
        assert r[i + 1] == fs[i] && r[j + 1] == fs[j];
      }
    }
    if p.0 !in Keys(fs) && Wf(fs) {
      forall i, j | 0 <= i < j < |r| ensures r[i].0 != r[j].0 {
        assert r[j] == fs[j - 1];
        if i > 0 {
          assert r[i] == fs[i - 1];
        }
      }
    }
  }

  /** `d.pop(k, None)` keeping the rest of the dict in order. */
  function Pop<K(==,!new), V>(fs: Table<K, V>, k: K): (r: Table<K, V>)
    ensures Keys(r) == Keys(fs) - {k}
    ensures forall k' :: k' != k ==> Get(r, k') == Get(fs, k')
    ensures Wf(fs) ==> Wf(r)
    ensures k !in Keys(fs) ==> r == fs
  {
    if fs == [] then []
    else
      var rest := Pop(fs[1..], k);
      if fs[0].0 == k then
        PopHead(fs, k, rest);
        rest
      else
        PopCons(fs, k, rest);
        [fs[0]] + rest
  }

  lemma PopHead<K, V>(fs: Table<K, V>, k: K, rest: Table<K, V>)
    requires fs != [] && fs[0].0 == k
    requires Keys(rest) == Keys(fs[1..]) - {k}
    requires forall k' :: k' != k ==> Get(rest, k') == Get(fs[1..], k')
    requires Wf(fs[1..]) ==> Wf(rest)
    ensures Keys(rest) == Keys(fs) - {k}
    ensures forall k' :: k' != k ==> Get(rest, k') == Get(fs, k')
    ensures Wf(fs) ==> Wf(rest)
  {
    KeysTail(fs);
    forall k' | k' != k
      ensures Get(rest, k') == Get(fs, k')
    {
      GetUncons(fs, k');
    }
    assert fs == [fs[0]] + fs[1..];
    WfCons(fs[0], fs[1..]);
  }

  lemma PopCons<K, V>(fs: Table<K, V>, k: K, rest: Table<K, V>)
    requires fs != [] && fs[0].0 != k
    requires Keys(rest) == Keys(fs[1..]) - {k}
    requires forall k' :: k' != k ==> Get(rest, k') == Get(fs[1..], k')
    requires Wf(fs[1..]) ==> Wf(rest)
    requires k !in Keys(fs[1..]) ==> rest == fs[1..]
    ensures Keys([fs[0]] + rest) == Keys(fs) - {k}
    ensures forall k' :: k' != k ==> Get([fs[0]] + rest, k') == Get(fs, k')
    ensures Wf(fs) ==> Wf([fs[0]] + rest)
    ensures k !in Keys(fs) ==> [fs[0]] + rest == fs
  {
    KeysTail(fs);
    KeysCons(fs[0], rest);
    forall k' | k' != k
      ensures Get([fs[0]] + rest, k') == Get(fs, k')
    {
      GetCons(fs[0], rest, k');
      GetUncons(fs, k');
    }
    assert fs == [fs[0]] + fs[1..];
    WfCons(fs[0], fs[1..]);
    WfCons(fs[0], rest);
  }

  /** `d.update(e)`: every pair of `e` is put in turn. */
  function Update<K(==,!new), V>(fs: Table<K, V>, e: Table<K, V>): (r: Table<K, V>)
    ensures Keys(r) == Keys(fs) + Keys(e)
    ensures Wf(fs) ==> Wf(r)
    ensures forall k :: k !in Keys(e) ==> Get(r, k) == Get(fs, k)
    decreases |e|
  {
    if e == [] then fs
    else
      KeysTail(e);
      Update(Put(fs, e[0].0, e[0].1), e[1..])
  }

  /** After `d.update(e)` with a well-formed `e`, every key of `e` holds `e`'s value. */
  lemma {:induction false} UpdateGet<K(!new), V>(fs: Table<K, V>, e: Table<K, V>, k: K)
    requires Wf(e) && k in Keys(e)
    ensures Get(Update(fs, e), k) == Get(e, k)
    decreases |e|
  {
    KeysTail(e);
    GetUncons(e, k);
    var p := Put(fs, e[0].0, e[0].1);
    if e[0].0 == k {
      assert k !in Keys(e[1..]) by {
        forall j | 0 <= j < |e[1..]| ensures e[1..][j].0 != k {
          assert e[1..][j] == e[j + 1];
        }
      }
      assert Get(Update(p, e[1..]), k) == Get(p, k);
    } else {
      assert Wf(e[1..]) by {
        forall i, j | 0 <= i < j < |e[1..]| ensures e[1..][i].0 != e[1..][j].0 {
          assert e[1..][i] == e[i + 1] && e[1..][j] == e[j + 1];
        }
      }
      UpdateGet(p, e[1..], k);
    }
  }

  /** A dict built from a list of pairs, later pairs overwriting earlier ones (`dict(...)`, or a comprehension). */
  function FromPairs(ps: Fields): (r: Fields)
    ensures Wf(r)
    ensures Keys(r) == Keys(ps)
  {
    Update([], ps)
  }

  /** Position `j` holds the last occurrence of its key: the one whose value a dict built in order keeps. */
  predicate LastOf<K(==)>(ks: seq<K>, j: nat)
    requires j < |ks|
  {
    forall i | j < i < |ks| :: ks[i] != ks[j]
  }

  /** The keys a list names. */
  function KeySet<K(==)>(ks: seq<K>): set<K> {
    set i | 0 <= i < |ks| :: ks[i]
  }

  lemma KeySetSnoc<K>(ks: seq<K>)
    requires ks != []
    ensures KeySet(ks) == KeySet(ks[..|ks| - 1]) + {ks[|ks| - 1]}
  {
    var n := |ks| - 1;
    forall k | k in KeySet(ks)
      ensures k in KeySet(ks[..n]) + {ks[n]}
    {
      var i :| 0 <= i < |ks| && ks[i] == k;
      if i < n { assert ks[..n][i] == k; }
    }
    forall k | k in KeySet(ks[..n])
      ensures k in KeySet(ks)
    {
      var i :| 0 <= i < n && ks[..n][i] == k;
      assert ks[i] == k;
    }
  }

  /** `d[ks[i]] = vs[i]` for each `i` in turn, starting from `{}`. */
  function Assign<K(==,!new), V>(ks: seq<K>, vs: seq<V>): (r: Table<K, V>)
    requires |ks| == |vs|
    ensures Wf(r)
    ensures Keys(r) == KeySet(ks)
  {
    if ks == [] then []
    else
      var n := |ks| - 1;
      KeySetSnoc(ks);
      Put(Assign(ks[..n], vs[..n]), ks[n], vs[n])
  }

  /** Each key ends up holding the value of its last occurrence. */
  lemma {:induction false} AssignLast<K(!new), V>(ks: seq<K>, vs: seq<V>, j: nat)
    requires |ks| == |vs| && j < |ks| && LastOf(ks, j)
    ensures Get(Assign(ks, vs), ks[j]) == Some(vs[j])
  {
    var n := |ks| - 1;
    AssignStep(ks, vs, j);
    if j < n {
      AssignPrefix(ks, vs, j);
      AssignLast(ks[..n], vs[..n], j);
      var prev := Get(Assign(ks[..n], vs[..n]), ks[j]);
      assert prev == Some(vs[j]);
      assert Get(Assign(ks, vs), ks[j]) == prev;
    } else {
      assert ks[j] == ks[n] && vs[j] == vs[n];
    }
  }

  /** The last assignment changes only its own key. */
  lemma AssignStep<K(!new), V>(ks: seq<K>, vs: seq<V>, j: nat)
    requires |ks| == |vs| && j < |ks|
    ensures ks[j] == ks[|ks| - 1] ==> Get(Assign(ks, vs), ks[j]) == Some(vs[|ks| - 1])
    ensures ks[j] != ks[|ks| - 1] ==> Get(Assign(ks, vs), ks[j]) == Get(Assign(ks[..|ks| - 1], vs[..|ks| - 1]), ks[j])
  {
    var n := |ks| - 1;
    assert Assign(ks, vs) == Put(Assign(ks[..n], vs[..n]), ks[n], vs[n]);
  }

  lemma AssignPrefix<K(!new), V>(ks: seq<K>, vs: seq<V>, j: nat)
    requires |ks| == |vs| && j < |ks| - 1 && LastOf(ks, j)
    ensures ks[|ks| - 1] != ks[j]
    ensures ks[..|ks| - 1][j] == ks[j] && vs[..|ks| - 1][j] == vs[j]
    ensures LastOf(ks[..|ks| - 1], j)
  {
  }

  /** Every pair of a dict built by `Assign` comes from one of its inputs. */
  lemma {:induction false} AssignFrom<K(!new), V>(ks: seq<K>, vs: seq<V>, i: nat)
    requires |ks| == |vs| && i < |Assign(ks, vs)|
    ensures exists j | 0 <= j < |vs| :: Assign(ks, vs)[i].1 == vs[j]
  {
    var n := |ks| - 1;
    var prev := Assign(ks[..n], vs[..n]);
    var r := Assign(ks, vs);
    assert r == Put(prev, ks[n], vs[n]);
    PutFrom(prev, ks[n], vs[n], i);
    if r[i] == (ks[n], vs[n]) {
      assert r[i].1 == vs[n];
    } else {
      AssignFrom(ks[..n], vs[..n], i);
      var j :| 0 <= j < n && prev[i].1 == vs[..n][j];
      assert r[i].1 == vs[j];
    }
  }

  /** The position of the last occurrence of a key the list names. */
  function LastIndex<K(==)>(ks: seq<K>, k: K): (j: nat)
    requires k in KeySet(ks)
    ensures j < |ks| && ks[j] == k && LastOf(ks, j)
  {
    var n := |ks| - 1;
    if ks[n] == k then n
    else
      KeySetSnoc(ks);
      var j := LastIndex(ks[..n], k);
      assert forall i | j < i < n :: ks[i] == ks[..n][i];
      j
  }

  /** Every pair of a dict built by `Assign` is the last assignment made to its key. */
  lemma AssignLastFrom<K(!new), V>(ks: seq<K>, vs: seq<V>, i: nat)
    requires |ks| == |vs| && i < |Assign(ks, vs)|
    ensures exists j | 0 <= j < |ks| :: LastOf(ks, j) && Assign(ks, vs)[i] == (ks[j], vs[j])
  {
    var r := Assign(ks, vs);
    assert r[i].0 in Keys(r);
    var j := LastIndex(ks, r[i].0);
    AssignLast(ks, vs, j);
    GetAt(r, i);
  }

  /** A list built as `[f(xs[0])] + rest`, with `rest` mapped from `xs[1..]`, is mapped from `xs` position by position. */
  lemma MappedCons<A, B>(f: A -> Result<B>, xs: seq<A>, h: B, t: seq<B>)
    requires xs != [] && f(xs[0]) == Ok(h) && |t| == |xs| - 1
    requires forall i | 0 <= i < |t| :: f(xs[1..][i]) == Ok(t[i])
    ensures forall i | 0 <= i < |xs| :: f(xs[i]) == Ok(([h] + t)[i])
  {
    var r := [h] + t;
    forall i | 0 <= i < |xs| ensures f(xs[i]) == Ok(r[i]) {
      if i > 0 {
        assert r[i] == t[i - 1];
        assert xs[i] == xs[1..][i - 1];
      }
    }
  }

  /** Every dict inside `j`, at any depth, is well formed. */
  predicate DeepWf(j: Json)
    decreases j
  {
    match j
    case Arr(items) => forall i | 0 <= i < |items| :: DeepWf(items[i])
    case Obj(fields) => Wf(fields) && forall i | 0 <= i < |fields| :: DeepWf(fields[i].1)
    case _ => true
  }

  // ---------------------------------------------------------------------------
  // Python-level accessors that raise on the wrong type
  // ---------------------------------------------------------------------------

  /** `x.get(k, default)`: only a dict has `.get`; anything else raises AttributeError. */
  function DictGet(x: Json, k: string, default: Json): (r: Result<Json>)
    ensures r.Ok? <==> x.Obj?
    ensures x.Obj? && k in Keys(x.fields) ==> Some(r.value) == Get(x.fields, k)
    ensures x.Obj? && k !in Keys(x.fields) ==> r.value == default
  {
    if x.Obj? then Ok(GetOr(x.fields, k, default)) else Err("AttributeError")
  }

  /** A value used as a dict key: only string keys are represented. */
  function KeyStr(j: Json): (r: Result<string>)
    ensures r.Ok? <==> j.Str?
    ensures r.Ok? ==> r.value == j.s
  {
    if j.Str? then Ok(j.s) else Err("TypeError")
  }

  /**
   A hashable value used as a Python dict key. `True == 1 == 1.0` and
   `False == 0 == 0.0` are one key in Python, so booleans and numbers meet on
   their numeric value; lists and dicts are unhashable.
   */
  datatype Key = NoneKey | NumKey(n: real) | StrKey(s: string)

  function HashKey(j: Json): (r: Result<Key>)
    ensures r.Ok? <==> !(j.Arr? || j.Obj?)
    ensures r.Ok? ==> (r.value == NoneKey <==> j.Null?)
    ensures r.Ok? ==> (r.value.StrKey? <==> j.Str?)
  {
    match j
    case Null => Ok(NoneKey)
    case Bool(b) => Ok(NumKey(if b then 1.0 else 0.0))
    case Int(i) => Ok(NumKey(i as real))
    case Float(x) => Ok(NumKey(x))
    case Str(s) => Ok(StrKey(s))
    case _ => Err("TypeError")
  }

  /** Two hashable values are the same key exactly when Python's `==` holds between them. */
  lemma HashKeyIsEquality(a: Json, b: Json)
    requires HashKey(a).Ok? && HashKey(b).Ok?
    ensures HashKey(a) == HashKey(b) <==> PyEq(a, b)
  {
  }

  /** Python's `==` on hashable scalars: numbers and booleans compare by value, strings by content. */
  predicate PyEq(a: Json, b: Json) {
    match (a, b)
    case (Null, Null) => true
    case (Str(x), Str(y)) => x == y
    case (Str(_), _) => false
    case (_, Str(_)) => false
    case (Null, _) => false
    case (_, Null) => false
    case _ => Numeric(a) && Numeric(b) && NumValue(a) == NumValue(b)
  }

  predicate Numeric(j: Json) {
    j.Bool? || j.Int? || j.Float?
  }

  function NumValue(j: Json): real
    requires Numeric(j)
  {
    match j
    case Bool(b) => if b then 1.0 else 0.0
    case Int(i) => i as real
    case Float(x) => x
  }

  /** `x[k]` on a dict: a missing key raises KeyError, a non-dict raises TypeError. */
  function Index(x: Json, k: string): (r: Result<Json>)
    ensures r.Ok? <==> x.Obj? && k in Keys(x.fields)
    ensures r.Ok? ==> Some(r.value) == Get(x.fields, k)
  {
    if !x.Obj? then Err("TypeError")
    else match Get(x.fields, k)
      case Some(v) => Ok(v)
      case None => Err("KeyError")
  }

  /** `for x in j`: a list yields its items, a dict its keys, a string its characters; anything else raises. */
  function Iter(j: Json): (r: Result<seq<Json>>)
    ensures r.Ok? <==> (j.Arr? || j.Obj? || j.Str?)
    ensures j.Arr? ==> r == Ok(j.items)
    ensures j.Obj? ==> r.Ok? && |r.value| == |j.fields|
    ensures j.Obj? ==> forall i | 0 <= i < |j.fields| :: r.value[i] == Str(j.fields[i].0)
    ensures j.Str? ==> r.Ok? && |r.value| == |j.s|
    ensures j.Str? ==> forall i | 0 <= i < |j.s| :: r.value[i] == Str([j.s[i]])
  {
    match j
    case Arr(items) => Ok(items)
    case Obj(fields) => Ok(seq(|fields|, i requires 0 <= i < |fields| => Str(fields[i].0)))
    case Str(s) => Ok(seq(|s|, i requires 0 <= i < |s| => Str([s[i]])))
    case _ => Err("TypeError")
  }
}
