/**
 The NSO CDB collector's pure half: flattening the RESTCONF query rows,
 classifying them into LOGICAL / LAG / PORT / ISIS entries per device, the
 AS plain-to-dot conversion, the per-request result table and the recursive
 merge that folds the three analyses into one document.
 */
module Cdb {
  import opened Json
  import opened Text

  // ===========================================================================
  // DataMerger.merge
  // ===========================================================================

  /**
   What the merge stores under a key of the incoming dict, given what the
   accumulated dict holds there: two dicts are merged recursively, an absent
   key or a truthy incoming value is taken, and otherwise the old value stays.
   `parent` only bounds the recursion.
   */
  function MergeValue(prev: Option<Json>, v: Json, ghost parent: Json): Json
    requires v < parent
    decreases parent, 0, 0
  {
    if prev.Some? && prev.value.Obj? && v.Obj? then Obj(MergeInto(prev.value.fields, v.fields, v))
    else if prev.None? || Truthy(v) then v
    else prev.value
  }

  /** The loop of `merge`: the pairs of `rest` are folded into `acc` in order. */
  function MergeInto(acc: Fields, rest: Fields, ghost parent: Json): (r: Fields)
    requires forall i | 0 <= i < |rest| :: rest[i].1 < parent
    ensures Keys(r) == Keys(acc) + Keys(rest)
    ensures Wf(acc) ==> Wf(r)
    decreases parent, |rest|, 1
  {
    if rest == [] then acc
    else
      KeysTail(rest);
      var k := rest[0].0;
      MergeInto(Put(acc, k, MergeValue(Get(acc, k), rest[0].1, parent)), rest[1..], parent)
  }

  /** `DataMerger.merge(d1, d2)`: a new dict; neither argument changes (values are immutable). */
  function Merge(d1: Fields, d2: Fields): (r: Fields)
    ensures Keys(r) == Keys(d1) + Keys(d2)
    ensures Wf(d1) ==> Wf(r)
    ensures d2 == [] ==> r == d1
  {
    MergeInto(d1, d2, Obj(d2))
  }

  /** The ghost bound does not influence the result. */
  lemma {:induction false} MergeIntoAnyParent(acc: Fields, rest: Fields, p1: Json, p2: Json)
    requires forall i | 0 <= i < |rest| :: rest[i].1 < p1
    requires forall i | 0 <= i < |rest| :: rest[i].1 < p2
    ensures MergeInto(acc, rest, p1) == MergeInto(acc, rest, p2)
    decreases |rest|
  {
    if rest != [] {
      var k := rest[0].0;
      var acc' := Put(acc, k, MergeValue(Get(acc, k), rest[0].1, p1));
      assert acc' == Put(acc, k, MergeValue(Get(acc, k), rest[0].1, p2));
      MergeIntoAnyParent(acc', rest[1..], p1, p2);
    }
  }

  /** Key by key, the loop stores `MergeValue` of what was there and what comes in. */
  lemma {:induction false} MergeIntoGet(acc: Fields, rest: Fields, parent: Json, k: string)
    requires forall i | 0 <= i < |rest| :: rest[i].1 < parent
    requires Wf(rest)
    ensures k !in Keys(rest) ==> Get(MergeInto(acc, rest, parent), k) == Get(acc, k)
    ensures k in Keys(rest) ==>
      Get(rest, k).value < parent &&
      Get(MergeInto(acc, rest, parent), k) == Some(MergeValue(Get(acc, k), Get(rest, k).value, parent))
    decreases |rest|
  {
    if rest != [] {
      KeysTail(rest);
      GetCons(rest[0], rest[1..], k);
      assert [rest[0]] + rest[1..] == rest;
      WfCons(rest[0], rest[1..]);
      var k0 := rest[0].0;
      var acc' := Put(acc, k0, MergeValue(Get(acc, k0), rest[0].1, parent));
      MergeIntoGet(acc', rest[1..], parent, k);
    }
  }

  /**
   The merge key by key, for a well-formed incoming dict (a Python dict never
   repeats a key): keys only in `d1` keep their value; two dicts under one key
   are merged recursively, never replaced; otherwise a new key or a truthy
   value is taken and a falsy value leaves the old one.
   */
  lemma MergeGet(d1: Fields, d2: Fields, k: string)
    requires Wf(d2)
    ensures k !in Keys(d2) ==> Get(Merge(d1, d2), k) == Get(d1, k)
    ensures forall a, b :: Get(d1, k) == Some(Obj(a)) && Get(d2, k) == Some(Obj(b)) ==>
      Get(Merge(d1, d2), k) == Some(Obj(Merge(a, b)))
    ensures forall v :: Get(d2, k) == Some(v) && !(v.Obj? && Get(d1, k).Some? && Get(d1, k).value.Obj?) ==>
      Get(Merge(d1, d2), k) == (if Get(d1, k).None? || Truthy(v) then Some(v) else Get(d1, k))
  {
    MergeIntoGet(d1, d2, Obj(d2), k);
    if k in Keys(d2) {
      var v := Get(d2, k).value;
      if Get(d1, k).Some? && Get(d1, k).value.Obj? && v.Obj? {
        assert Obj(v.fields) == v;
      }
    }
  }

  /**
   The merge never lets a falsy value displace a truthy one: when exactly one
   of two non-dict values under a key is truthy, both merge orders keep it.
   */
  lemma MergeKeepsTruthy(d1: Fields, d2: Fields, k: string, a: Json, b: Json)
    requires Wf(d1) && Wf(d2)
    requires Get(d1, k) == Some(a) && Get(d2, k) == Some(b)
    requires !(a.Obj? && b.Obj?) && Truthy(a) != Truthy(b)
    ensures Get(Merge(d1, d2), k) == Get(Merge(d2, d1), k) == Some(if Truthy(a) then a else b)
  {
    MergeGet(d1, d2, k);
    MergeGet(d2, d1, k);
  }

  /** One step of the loop on a key `acc` does not hold appends the pair. */
  lemma MergeIntoFreshStep(acc: Fields, rest: Fields, parent: Json)
    requires forall i | 0 <= i < |rest| :: rest[i].1 < parent
    requires rest != [] && rest[0].0 !in Keys(acc)
    ensures MergeInto(acc, rest, parent) == MergeInto(acc + [rest[0]], rest[1..], parent)
  {
    assert MergeValue(Get(acc, rest[0].0), rest[0].1, parent) == rest[0].1;
  }

  lemma AppendHead(acc: Fields, rest: Fields)
    requires rest != []
    ensures (acc + [rest[0]]) + rest[1..] == acc + rest
  {
    assert rest == [rest[0]] + rest[1..];
  }

  /** Folding pairs with fresh keys into `acc` appends them. */
  lemma {:induction false} MergeIntoFresh(acc: Fields, rest: Fields, parent: Json)
    requires forall i | 0 <= i < |rest| :: rest[i].1 < parent
    requires Wf(rest) && Keys(acc) !! Keys(rest)
    ensures MergeInto(acc, rest, parent) == acc + rest
    decreases |rest|
  {
    if rest != [] {
      KeysTail(rest);
      WfCons(rest[0], rest[1..]);
      assert [rest[0]] + rest[1..] == rest;
      MergeIntoFreshStep(acc, rest, parent);
      var acc' := acc + [rest[0]];
      assert Keys(acc') == Keys(acc) + {rest[0].0} by {
        assert acc' == Put(acc, rest[0].0, rest[0].1);
      }
      MergeIntoFresh(acc', rest[1..], parent);
      AppendHead(acc, rest);
    }
  }

  /** `merge({}, d) == d`. */
  lemma MergeLeftIdentity(d: Fields)
    requires Wf(d)
    ensures Merge([], d) == d
  {
    MergeIntoFresh([], d, Obj(d));
  }

  /** Folding pairs that `acc` already holds changes nothing. */
  lemma {:induction false} MergeIntoHeld(acc: Fields, rest: Fields, parent: Json)
    requires forall i | 0 <= i < |rest| :: rest[i].1 < parent
    requires Wf(acc)
    requires forall i | 0 <= i < |rest| :: Get(acc, rest[i].0) == Some(rest[i].1) && DeepWf(rest[i].1)
    ensures MergeInto(acc, rest, parent) == acc
    decreases parent, |rest|, 1
  {
    if rest != [] {
      var k0 := rest[0].0;
      var v0 := rest[0].1;
      assert Get(acc, k0) == Some(v0) && DeepWf(v0);
      MergeValueHeld(v0, parent);
      PutSame(acc, k0, v0);
      MergeIntoHeld(acc, rest[1..], parent);
    }
  }

  /** Merging a well-formed value into itself gives it back. */
  lemma {:induction false} MergeValueHeld(v: Json, parent: Json)
    requires v < parent && DeepWf(v)
    ensures MergeValue(Some(v), v, parent) == v
    decreases parent, 0
  {
    if v.Obj? {
      forall i | 0 <= i < |v.fields|
        ensures Get(v.fields, v.fields[i].0) == Some(v.fields[i].1) && DeepWf(v.fields[i].1)
      {
        GetAt(v.fields, i);
      }
      MergeIntoHeld(v.fields, v.fields, v);
    }
  }

  /** `merge(d, d) == d` for a dict whose nested dicts are all well formed. */
  lemma MergeIdempotent(d: Fields)
    requires DeepWf(Obj(d))
    ensures Merge(d, d) == d
  {
    forall i | 0 <= i < |d| ensures Get(d, d[i].0) == Some(d[i].1) && DeepWf(d[i].1) {
      GetAt(d, i);
    }
    MergeIntoHeld(d, d, Obj(d));
  }

  // ===========================================================================
  // ResultParser.extract_items
  // ===========================================================================

  /** The `label` of a select field, when the field is a dict with a string label. */
  function Label(f: Json): Option<string> {
    if !f.Obj? then None
    else
      match Get<string, Json>(f.fields, "label")
      case Some(Str(s)) => Some(s)
      case _ => None
  }

  /** `field.get('value') or field.get('path') or field.get('data', '')`. */
  function FieldValue(f: Fields): (v: Json)
    ensures Truthy(GetOr(f, "value", Null)) ==> v == GetOr(f, "value", Null)
    ensures !Truthy(GetOr(f, "value", Null)) && Truthy(GetOr(f, "path", Null)) ==> v == GetOr(f, "path", Null)
    ensures !Truthy(GetOr(f, "value", Null)) && !Truthy(GetOr(f, "path", Null)) ==> v == GetOr(f, "data", Str(""))
  {
    Or(Or(GetOr(f, "value", Null), GetOr(f, "path", Null)), GetOr(f, "data", Str("")))
  }

  /** One field of the comprehension: `row[field['label']] = <value>`. */
  function SelectStep(row: Fields, f: Json): (r: Result<Fields>)
    ensures r.Ok? <==> Label(f).Some?
    ensures r.Ok? ==> r.value == Put(row, Label(f).value, FieldValue(f.fields))
  {
    var lbl :- Index(f, "label");
    var key :- KeyStr(lbl);
    Ok(Put(row, key, FieldValue(f.fields)))
  }

  predicate AllLabelled(fs: seq<Json>) {
    forall j | 0 <= j < |fs| :: Label(fs[j]).Some?
  }

  /** The labels of a list of select fields. */
  function Labels(fs: seq<Json>): set<string>
    requires AllLabelled(fs)
  {
    set j | 0 <= j < |fs| :: Label(fs[j]).value
  }

  /** No later field carries the label of field `j`. */
  predicate LastOfLabel(fs: seq<Json>, j: int)
    requires 0 <= j < |fs|
  {
    forall j' | j < j' < |fs| :: Label(fs[j']) != Label(fs[j])
  }

  /** Under each label the row holds the value of the last field with that label. */
  predicate LastWins(row: Fields, fs: seq<Json>)
    requires AllLabelled(fs)
  {
    forall j | 0 <= j < |fs| && LastOfLabel(fs, j) :: Get(row, Label(fs[j]).value) == Some(FieldValue(fs[j].fields))
  }

  lemma LabelsSnoc(fs: seq<Json>)
    requires fs != [] && AllLabelled(fs)
    ensures AllLabelled(fs[..|fs| - 1])
    ensures Labels(fs) == Labels(fs[..|fs| - 1]) + {Label(fs[|fs| - 1]).value}
  {
    var init := fs[..|fs| - 1];
    assert forall j | 0 <= j < |init| :: init[j] == fs[j];
    forall k | k in Labels(fs) ensures k in Labels(init) + {Label(fs[|fs| - 1]).value} {
      var j :| 0 <= j < |fs| && Label(fs[j]).value == k;
      if j < |init| {
        assert fs[j] == init[j];
      }
    }
    forall k | k in Labels(init) ensures k in Labels(fs) {
      var j :| 0 <= j < |init| && Label(init[j]).value == k;
      assert fs[j] == init[j];
    }
  }

  /** The last-wins property for one field after the last field is put. */
  lemma SelectRowSnocAt(fs: seq<Json>, row: Fields, j: int)
    requires fs != [] && AllLabelled(fs)
    requires AllLabelled(fs[..|fs| - 1]) && LastWins(row, fs[..|fs| - 1])
    requires 0 <= j < |fs| && LastOfLabel(fs, j)
    ensures Get(Put(row, Label(fs[|fs| - 1]).value, FieldValue(fs[|fs| - 1].fields)), Label(fs[j]).value)
      == Some(FieldValue(fs[j].fields))
  {
    if j < |fs| - 1 {
      SelectRowSnocEarlier(fs, row, j);
    }
  }

  /** A field before the last keeps the value it had, since its label is not the last one's. */
  lemma SelectRowSnocEarlier(fs: seq<Json>, row: Fields, j: int)
    requires fs != [] && AllLabelled(fs)
    requires AllLabelled(fs[..|fs| - 1]) && LastWins(row, fs[..|fs| - 1])
    requires 0 <= j < |fs| - 1 && LastOfLabel(fs, j)
    ensures Label(fs[|fs| - 1]).value != Label(fs[j]).value
    ensures Get(row, Label(fs[j]).value) == Some(FieldValue(fs[j].fields))
  {
    var init := fs[..|fs| - 1];
    assert init[j] == fs[j];
    assert LastOfLabel(init, j) by {
      forall j' | j < j' < |init| ensures Label(init[j']) != Label(init[j]) {
        assert init[j'] == fs[j'];
      }
    }
  }

  /** Putting the last field on top of the row built from the others keeps every property of the row. */
  lemma SelectRowSnoc(fs: seq<Json>, row: Fields)
    requires fs != [] && AllLabelled(fs)
    requires AllLabelled(fs[..|fs| - 1])
    requires Wf(row) && Keys(row) == Labels(fs[..|fs| - 1]) && LastWins(row, fs[..|fs| - 1])
    ensures var r := Put(row, Label(fs[|fs| - 1]).value, FieldValue(fs[|fs| - 1].fields));
      Wf(r) && Keys(r) == Labels(fs) && LastWins(r, fs)
  {
    LabelsSnoc(fs);
    forall j | 0 <= j < |fs| && LastOfLabel(fs, j)
      ensures Get(Put(row, Label(fs[|fs| - 1]).value, FieldValue(fs[|fs| - 1].fields)), Label(fs[j]).value)
        == Some(FieldValue(fs[j].fields))
    {
      SelectRowSnocAt(fs, row, j);
    }
  }

  /**
   The dict comprehension over one row's select fields: label -> value, a
   repeated label keeping its first position and its last value. A field that
   is not a dict, or has no string `label`, raises.
   */
  function SelectRow(fs: seq<Json>): (r: Result<Fields>)
    ensures r.Ok? <==> AllLabelled(fs)
    ensures r.Ok? ==> Wf(r.value) && Keys(r.value) == Labels(fs) && LastWins(r.value, fs)
  {
    if fs == [] then Ok([])
    else
      var f := fs[|fs| - 1];
      AllLabelledSnoc(fs);
      match SelectRow(fs[..|fs| - 1])
      case Err(m) => Err(m)
      case Ok(row) =>
        var r := SelectStep(row, f);
        if r.Ok? then
          SelectRowSnoc(fs, row);
          r
        else
          r
  }

  lemma AllLabelledSnoc(fs: seq<Json>)
    requires fs != []
    ensures AllLabelled(fs) <==> AllLabelled(fs[..|fs| - 1]) && Label(fs[|fs| - 1]).Some?
  {
    var init := fs[..|fs| - 1];
    assert forall j | 0 <= j < |init| :: init[j] == fs[j];
  }

  /**
   What `for item in …` walks in a query response's `result` (a list's items,
   a dict's keys, a string's characters), a missing `query-result` or `result`
   reading as empty; `None` when the response or its `query-result` is not a
   dict, or `result` cannot be iterated.
   */
  function ResultItems(data: Json): Option<seq<Json>> {
    if !data.Obj? then None
    else match GetOr(data.fields, "tailf-rest-query:query-result", Obj([]))
      case Obj(q) =>
        var res := GetOr(q, "result", Arr([]));
        if Iter(res).Ok? then Some(Iter(res).value) else None
      case _ => None
  }

  /** `extract_items`: one label -> value dict per query result row. */
  function ExtractItems(data: Json): (r: Result<seq<Fields>>)
    ensures r.Ok? ==> forall i | 0 <= i < |r.value| :: Wf(r.value[i])
    ensures !data.Obj? ==> r.Err?
    ensures data.Obj? && !GetOr(data.fields, "tailf-rest-query:query-result", Obj([])).Obj? ==> r.Err?
    ensures ResultItems(data).Some? ==> r == Rows(ResultItems(data).value)
    ensures ResultItems(data).None? ==> r.Err?
  {
    var qr :- DictGet(data, "tailf-rest-query:query-result", Obj([]));
    var items :- DictGet(qr, "result", Arr([]));
    var xs :- Iter(items);
    Rows(xs)
  }

  /** The row loop of `extract_items`. */
  function Rows(xs: seq<Json>): (r: Result<seq<Fields>>)
    ensures r.Ok? ==> |r.value| == |xs|
    ensures r.Ok? ==> forall i | 0 <= i < |xs| :: RowOf(xs[i]) == Ok(r.value[i])
    ensures r.Ok? ==> forall i | 0 <= i < |r.value| :: Wf(r.value[i])
    ensures r.Err? <==> exists i | 0 <= i < |xs| :: RowOf(xs[i]).Err?
  {
    if xs == [] then Ok([])
    else
      var head := RowOf(xs[0]);
      if head.Err? then Err(head.msg)
      else
        var tail := Rows(xs[1..]);
        if tail.Err? then
          RowsConsErr(xs);
          Err(tail.msg)
        else
          RowsConsOk(xs, head.value, tail.value);
          Ok([head.value] + tail.value)
  }

  lemma RowsConsErr(xs: seq<Json>)
    requires xs != [] && exists i | 0 <= i < |xs[1..]| :: RowOf(xs[1..][i]).Err?
    ensures exists i | 0 <= i < |xs| :: RowOf(xs[i]).Err?
  {
    var i :| 0 <= i < |xs[1..]| && RowOf(xs[1..][i]).Err?;
    assert RowOf(xs[i + 1]).Err?;
  }

  lemma RowsConsOk(xs: seq<Json>, h: Fields, t: seq<Fields>)
    requires xs != [] && RowOf(xs[0]) == Ok(h) && |t| == |xs| - 1
    requires forall i | 0 <= i < |t| :: RowOf(xs[1..][i]) == Ok(t[i])
    ensures forall i | 0 <= i < |xs| :: RowOf(xs[i]) == Ok(([h] + t)[i])
    ensures forall i | 0 <= i < |xs| :: Wf(([h] + t)[i])
    ensures !exists i | 0 <= i < |xs| :: RowOf(xs[i]).Err?
  {
    var r := [h] + t;
    MappedCons(RowOf, xs, h, t);
    forall i | 0 <= i < |xs| ensures Wf(r[i]) && !RowOf(xs[i]).Err? {
      assert RowOf(xs[i]) == Ok(r[i]);
    }
  }

  /** One item: `item.get('select', [])` flattened. */
  function RowOf(item: Json): (r: Result<Fields>)
    ensures r.Ok? ==> Wf(r.value)
    ensures !item.Obj? ==> r.Err?
  {
    var sel :- DictGet(item, "select", Arr([]));
    var fs :- Iter(sel);
    SelectRow(fs)
  }

  // ===========================================================================
  // ASConverter.plain_to_dot
  // ===========================================================================

  /** The argument of `plain_to_dot`, typed `str | int`. */
  datatype AsNumber = AsInt(n: int) | AsText(t: string)

  /** `f"{n // 65536}.{n % 65536}"` (floor division and modulo, which for a positive divisor agree with Dafny's). */
  function Dot(n: int): string {
    DotPair(n / 65536, n % 65536)
  }

  /** `plain_to_dot`: a value `int()` accepts is converted, anything else comes back as its string. */
  function PlainToDot(x: AsNumber): (r: string)
    ensures x.AsInt? ==> r == Dot(x.n)
    ensures x.AsText? && ParseInt(x.t).Some? ==> r == Dot(ParseInt(x.t).value)
    ensures x.AsText? && ParseInt(x.t).None? ==> r == x.t
  {
    match x
    case AsInt(n) => Dot(n)
    case AsText(t) =>
      match ParseInt(t)
      case Some(n) => Dot(n)
      case None => t
  }

  /** Reading an AS-dot string back: `a.b` means `a * 65536 + b`. */
  function DotToPlain(s: string): Option<int> {
    DotParts(Split(s, "."))
  }

  function DotParts(parts: seq<string>): Option<int> {
    if |parts| != 2 then None
    else
      var a, b := ParseInt(parts[0]), ParseInt(parts[1]);
      if a.Some? && b.Some? then Some(a.value * 65536 + b.value) else None
  }

  /** `f"{q}.{m}"`. */
  function DotPair(q: int, m: int): string {
    IntToString(q) + "." + IntToString(m)
  }

  lemma DotPairSplit(q: int, m: int)
    ensures Split(DotPair(q, m), ".") == [IntToString(q), IntToString(m)]
  {
    var a := IntToString(q);
    var b := IntToString(m);
    IntToStringChars(q);
    IntToStringChars(m);
    assert '.' !in a;
    assert '.' !in b;
    SplitAtChar(a, '.', b);
    SplitNoChar(b, '.');
  }

  lemma DotPartsParsed(parts: seq<string>, q: int, m: int, n: int)
    requires |parts| == 2 && ParseInt(parts[0]) == Some(q) && ParseInt(parts[1]) == Some(m)
    requires q * 65536 + m == n
    ensures DotParts(parts) == Some(n)
  {
  }

  lemma DotPartsOf(q: int, m: int, n: int)
    requires q * 65536 + m == n
    ensures DotParts([IntToString(q), IntToString(m)]) == Some(n)
  {
    ParseIntOfString(q);
    ParseIntOfString(m);
    DotPartsParsed([IntToString(q), IntToString(m)], q, m, n);
  }

  lemma DotPairRoundTrip(q: int, m: int, n: int)
    requires q * 65536 + m == n
    ensures DotToPlain(DotPair(q, m)) == Some(n)
  {
    DotPairSplit(q, m);
    DotPartsOf(q, m, n);
  }

  lemma DivMod65536(n: int)
    ensures (n / 65536) * 65536 + n % 65536 == n && 0 <= n % 65536 < 65536
  {
  }

  /**
   The dot form of an integer is exactly two integers `a.b` with
   `a * 65536 + b == n` and `0 <= b < 65536`, so it reads back as `n`.
   */
  lemma DotRoundTrip(n: int)
    ensures Split(Dot(n), ".") == [IntToString(n / 65536), IntToString(n % 65536)]
    ensures (n / 65536) * 65536 + n % 65536 == n && 0 <= n % 65536 < 65536
    ensures DotToPlain(Dot(n)) == Some(n)
  {
    var q, m := n / 65536, n % 65536;
    DivMod65536(n);
    assert Dot(n) == DotPair(q, m);
    DotPairSplit(q, m);
    DotPairRoundTrip(q, m, n);
  }
}
