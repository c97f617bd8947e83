/**
 The schema conversion of the network agent: the JSON Schema that an MCP
 server publishes for a tool is cleaned of the keywords Vertex AI refuses,
 an `anyOf` is collapsed to its first object option that is not the `null`
 type, and the result becomes the parameters of a function declaration.

 Python mutates a deep copy in place; here every step is a pure function, so
 the caller's schema is never touched. An exception in the cleaner is an
 `Err`, which the conversion loop catches by skipping that tool.
 */
module Agent {
  import opened Json

  /** The keywords popped from every dict the cleaner visits. */
  const Unsupported: seq<string> := ["prefixItems", "$ref", "$defs", "const", "allOf", "oneOf", "not", "$schema", "$id"]

  /** The schema a tool without one is given: an object with no properties. */
  const DefaultSchema: Json := Obj([("type", Str("object")), ("properties", Obj([]))])

  // ---------------------------------------------------------------------------
  // Size of a value, which the cleaner's recursion decreases
  // ---------------------------------------------------------------------------

  function Size(j: Json): (n: nat)
    ensures n >= 1
    decreases j, 1
  {
    match j
    case Arr(items) => 1 + ItemsSize(items)
    case Obj(fs) => 1 + FieldsSize(fs)
    case _ => 1
  }

  function ItemsSize(items: seq<Json>): nat
    decreases items, 0
  {
    if items == [] then 0 else Size(items[0]) + ItemsSize(items[1..])
  }

  function FieldsSize(fs: Fields): nat
    decreases fs, 0
  {
    if fs == [] then 0 else FieldSize(fs[0]) + FieldsSize(fs[1..])
  }

  function FieldSize(p: (string, Json)): nat
    decreases p, 0
  {
    Size(p.1)
  }

  lemma {:induction false} ItemWithin(items: seq<Json>, i: nat)
    requires i < |items|
    ensures Size(items[i]) <= ItemsSize(items)
    decreases i
  {
    if i > 0 {
      ItemWithin(items[1..], i - 1);
    }
  }

  lemma {:induction false} PopWithin(fs: Fields, k: string)
    ensures FieldsSize(Pop(fs, k)) <= FieldsSize(fs)
    ensures Get(fs, k).Some? ==> FieldsSize(Pop(fs, k)) + Size(Get(fs, k).value) <= FieldsSize(fs)
    decreases |fs|
  {
    if fs != [] {
      PopWithin(fs[1..], k);
    }
  }

  lemma {:induction false} PutWithin(fs: Fields, k: string, v: Json)
    ensures FieldsSize(Put(fs, k, v)) <= FieldsSize(fs) + Size(v)
    decreases |fs|
  {
    if fs != [] && fs[0].0 == k {
      assert Put(fs, k, v)[1..] == fs[1..];
    } else if fs != [] {
      PutWithin(fs[1..], k, v);
      assert Put(fs, k, v)[1..] == Put(fs[1..], k, v);
    }
  }

  lemma {:induction false} UpdateWithin(fs: Fields, e: Fields)
    ensures FieldsSize(Update(fs, e)) <= FieldsSize(fs) + FieldsSize(e)
    decreases |e|
  {
    if e != [] {
      PutWithin(fs, e[0].0, e[0].1);
      UpdateWithin(Put(fs, e[0].0, e[0].1), e[1..]);
    }
  }

  // ---------------------------------------------------------------------------
  // One dict, at its own level
  // ---------------------------------------------------------------------------

  /** `for key in unsupported: obj.pop(key, None)`. */
  function DropKeys(fs: Fields, ks: seq<string>): (r: Fields)
    ensures forall k :: k in Keys(r) <==> k in Keys(fs) && k !in ks
    ensures forall k :: k !in ks ==> Get(r, k) == Get(fs, k)
    ensures Wf(fs) ==> Wf(r)
    ensures FieldsSize(r) <= FieldsSize(fs)
    ensures (forall k | k in ks :: k !in Keys(fs)) ==> r == fs
    decreases |ks|
  {
    if ks == [] then fs
    else
      PopWithin(fs, ks[0]);
      DropKeys(Pop(fs, ks[0]), ks[1..])
  }

  /** The options the `anyOf` merge accepts: a dict whose `type` is not `"null"` (a missing `type` qualifies). */
  predicate Eligible(o: Json) {
    o.Obj? && Get(o.fields, "type") != Some(Str("null"))
  }

  /** The loop over the options that stops at the first eligible one. */
  function FirstOption(items: seq<Json>): (r: Option<nat>)
    ensures r.None? <==> forall i | 0 <= i < |items| :: !Eligible(items[i])
    ensures r.Some? ==> r.value < |items| && Eligible(items[r.value])
    ensures r.Some? ==> forall i | 0 <= i < r.value :: !Eligible(items[i])
  {
    if items == [] then None
    else if Eligible(items[0]) then Some(0)
    else
      match FirstOption(items[1..])
      case None => None
      case Some(i) => Some(i + 1)
  }

  /** The values Python cannot iterate over. */
  predicate Scalar(j: Json) {
    j.Null? || j.Bool? || j.Int? || j.Float?
  }

  /**
   `anyOf` is popped and the first eligible option is merged in with
   `obj.update(option)`. The loop iterates the popped value: a list yields its
   items, a dict its keys and a string its characters (neither of which is a
   dict, so nothing is merged), and any other value raises TypeError.
   */
  function Merge(kept: Fields): (r: Result<Fields>)
    ensures "anyOf" !in Keys(kept) ==> r == Ok(kept)
    ensures r.Err? <==> Get(kept, "anyOf").Some? && Scalar(Get(kept, "anyOf").value)
    ensures r.Ok? && "anyOf" in Keys(kept) ==> FieldsSize(r.value) < FieldsSize(kept)
  {
    match Get(kept, "anyOf")
    case None => Ok(kept)
    case Some(a) =>
      PopWithin(kept, "anyOf");
      MergeOption(Pop(kept, "anyOf"), a)
  }

  /** What the loop over the popped `anyOf` value `a` leaves of the other fields `rest`. */
  function MergeOption(rest: Fields, a: Json): (r: Result<Fields>)
    ensures r.Err? <==> Scalar(a)
    ensures r.Ok? ==> FieldsSize(r.value) < FieldsSize(rest) + Size(a)
    ensures r.Ok? && !a.Arr? ==> r.value == rest
  {
    match a
    case Arr(items) =>
      (match FirstOption(items)
       case None => Ok(rest)
       case Some(i) =>
         ItemWithin(items, i);
         UpdateWithin(rest, items[i].fields);
         Ok(Update(rest, items[i].fields)))
    case Obj(_) => Ok(rest)
    case Str(_) => Ok(rest)
    case _ => Err("TypeError")
  }

  /** The dict-level step, before the values are visited: no unsupported keyword and no `anyOf` remain. */
  predicate NoBadKeys(fs: Fields) {
    Settled(fs, Unsupported)
  }

  /** No `anyOf` and none of the keys `ks`. */
  predicate Settled(fs: Fields, ks: seq<string>) {
    "anyOf" !in Keys(fs) && forall k | k in ks :: k !in Keys(fs)
  }

  /**
   Dropping and merging repeated until no `anyOf` is left: a merged option
   can itself carry unsupported keywords or an `anyOf`, which one pass keeps.
   */
  function Resolve(fs: Fields, ks: seq<string>): (r: Result<Fields>)
    ensures r.Ok? ==> Settled(r.value, ks) && FieldsSize(r.value) <= FieldsSize(fs)
    ensures Settled(fs, ks) ==> r == Ok(fs)
    decreases FieldsSize(fs)
  {
    var kept := DropKeys(fs, ks);
    if "anyOf" !in Keys(kept) then Ok(kept)
    else
      var merged :- Merge(kept);
      Resolve(merged, ks)
  }

  // ---------------------------------------------------------------------------
  // The recursive cleaner
  // ---------------------------------------------------------------------------

  /** The cleaner as written (one drop, one merge per dict) and the corrected one (repeated until settled). */
  datatype Cleaner = AsWritten | Repeated

  function Step(c: Cleaner, fs: Fields): (r: Result<Fields>)
    ensures r.Ok? ==> FieldsSize(r.value) <= FieldsSize(fs)
    ensures c == Repeated && r.Ok? ==> NoBadKeys(r.value)
    ensures NoBadKeys(fs) ==> r == Ok(fs)
    ensures "anyOf" !in Keys(fs) ==> r == Ok(DropKeys(fs, Unsupported))
  {
    match c
    case AsWritten => Merge(DropKeys(fs, Unsupported))
    case Repeated => Resolve(fs, Unsupported)
  }

  /**
   Every dict the cleaner reaches has no unsupported keyword and no `anyOf`.
   The cleaner reaches the values of a dict and the dicts that are items of a
   list value; a list nested directly in a list is not entered.
   */
  predicate Tidy(j: Json)
    decreases j, 1
  {
    j.Obj? ==> NoBadKeys(j.fields) && forall p | p in j.fields :: TidyValue(p.1)
  }

  predicate TidyValue(v: Json)
    decreases v, 2
  {
    match v
    case Obj(_) => Tidy(v)
    case Arr(items) => forall x | x in items :: Tidy(x)
    case _ => true
  }

  /** `clean_schema_for_vertexai` on a deep copy: a value that is not a dict is returned as it is. */
  function Clean(c: Cleaner, j: Json): (r: Result<Json>)
    ensures !j.Obj? ==> r == Ok(j)
    ensures r.Ok? ==> r.value.Obj? == j.Obj?
    ensures r.Ok? && c == Repeated ==> Tidy(r.value)
    decreases Size(j), 0
  {
    if !j.Obj? then Ok(j) else CleanDict(c, j.fields)
  }

  /** `clean_recursive` on a dict: the dict-level step, then every value. */
  function CleanDict(c: Cleaner, fs: Fields): (r: Result<Json>)
    ensures r.Ok? ==> r.value.Obj? && Step(c, fs).Ok? && Keys(r.value.fields) == Keys(Step(c, fs).value)
    ensures r.Ok? && c == Repeated ==> Tidy(r.value)
    decreases FieldsSize(fs), 3
  {
    var kept :- Step(c, fs);
    var vs :- CleanValues(c, kept);
    SameKeys(vs, kept);
    Ok(Obj(vs))
  }

  lemma SameKeys(a: Fields, b: Fields)
    requires |a| == |b| && forall i | 0 <= i < |b| :: a[i].0 == b[i].0
    ensures Keys(a) == Keys(b)
  {
    forall k | k in Keys(b) ensures k in Keys(a) {
      var i :| 0 <= i < |b| && b[i].0 == k;
      assert a[i].0 == k;
    }
  }

  /** `for value in obj.values()`: each value cleaned in place, the keys and their order kept. */
  function CleanValues(c: Cleaner, fs: Fields): (r: Result<Fields>)
    ensures r.Ok? ==> |r.value| == |fs| && forall i | 0 <= i < |fs| :: r.value[i].0 == fs[i].0
    ensures r.Ok? && c == Repeated ==> forall p | p in r.value :: TidyValue(p.1)
    decreases FieldsSize(fs), 2
  {
    if fs == [] then Ok([])
    else
      assert FieldSize(fs[0]) == Size(fs[0].1);
      var v :- CleanValue(c, fs[0].1);
      var rest :- CleanValues(c, fs[1..]);
      Ok([(fs[0].0, v)] + rest)
  }

  /** A dict value is cleaned, a list value has its dict items cleaned, anything else stays. */
  function CleanValue(c: Cleaner, v: Json): (r: Result<Json>)
    ensures !v.Obj? && !v.Arr? ==> r == Ok(v)
    ensures r.Ok? && c == Repeated ==> TidyValue(r.value)
    decreases Size(v), 1
  {
    match v
    case Obj(_) => Clean(c, v)
    case Arr(items) =>
      var xs :- CleanItems(c, items);
      Ok(Arr(xs))
    case _ => Ok(v)
  }

  function CleanItems(c: Cleaner, items: seq<Json>): (r: Result<seq<Json>>)
    ensures r.Ok? ==> |r.value| == |items|
    ensures r.Ok? && c == Repeated ==> forall x | x in r.value :: Tidy(x)
    decreases ItemsSize(items), 2
  {
    if items == [] then Ok([])
    else
      assert ItemsSize(items) == Size(items[0]) + ItemsSize(items[1..]);
      match Clean(c, items[0])
      case Err(e) => Err(e)
      case Ok(x) =>
        match CleanItems(c, items[1..])
        case Err(e) => Err(e)
        case Ok(rest) => Ok([x] + rest)
  }

  // ---------------------------------------------------------------------------
  // Properties of the cleaner
  // ---------------------------------------------------------------------------

  /** A dict with no unsupported keyword and no `anyOf` anywhere the cleaner reaches is left exactly as it is. */
  lemma {:induction false} TidyKept(c: Cleaner, j: Json)
    requires Tidy(j)
    ensures Clean(c, j) == Ok(j)
    decreases Size(j), 0
  {
    if j.Obj? {
      TidyValuesKept(c, j.fields);
    }
  }

  lemma {:induction false} TidyValuesKept(c: Cleaner, fs: Fields)
    requires forall p | p in fs :: TidyValue(p.1)
    ensures CleanValues(c, fs) == Ok(fs)
    decreases FieldsSize(fs), 2
  {
    if fs != [] {
      assert fs[0] in fs;
      assert FieldSize(fs[0]) == Size(fs[0].1);
      TidyValueKept(c, fs[0].1);
      TidyValuesKept(c, fs[1..]);
      ValuesKeptCons(c, fs);
    }
  }

  lemma ValuesKeptCons(c: Cleaner, fs: Fields)
    requires fs != [] && CleanValue(c, fs[0].1) == Ok(fs[0].1) && CleanValues(c, fs[1..]) == Ok(fs[1..])
    ensures CleanValues(c, fs) == Ok(fs)
  {
    ValuesCons(c, fs, fs[0].1, fs[1..]);
    FieldsCons(fs);
  }

  lemma ItemsHeadTail(items: seq<Json>)
    requires items != []
    ensures [items[0]] + items[1..] == items
  {
  }

  lemma FieldsCons(fs: Fields)
    requires fs != []
    ensures [(fs[0].0, fs[0].1)] + fs[1..] == fs
  {
  }

  lemma ValuesCons(c: Cleaner, fs: Fields, v: Json, rest: Fields)
    requires fs != [] && CleanValue(c, fs[0].1) == Ok(v) && CleanValues(c, fs[1..]) == Ok(rest)
    ensures CleanValues(c, fs) == Ok([(fs[0].0, v)] + rest)
  {
  }

  lemma ItemsCons(c: Cleaner, items: seq<Json>, x: Json, rest: seq<Json>)
    requires items != [] && Clean(c, items[0]) == Ok(x) && CleanItems(c, items[1..]) == Ok(rest)
    ensures CleanItems(c, items) == Ok([x] + rest)
  {
  }

  lemma {:induction false} TidyValueKept(c: Cleaner, v: Json)
    requires TidyValue(v)
    ensures CleanValue(c, v) == Ok(v)
    decreases Size(v), 1
  {
    match v
    case Obj(_) => TidyKept(c, v);
    case Arr(items) => TidyItemsKept(c, items);
    case _ =>
  }

  lemma {:induction false} TidyItemsKept(c: Cleaner, items: seq<Json>)
    requires forall x | x in items :: Tidy(x)
    ensures CleanItems(c, items) == Ok(items)
    decreases ItemsSize(items), 2
  {
    if items != [] {
      var x, rest := items[0], items[1..];
      assert x in items;
      TidyKept(c, x);
      assert forall y | y in rest :: y in items;
      TidyItemsKept(c, rest);
      ItemsCons(c, items, x, rest);
      ItemsHeadTail(items);
    }
  }

  /** Each value of a cleaned dict is its old value cleaned, under the same key and at the same position. */
  lemma CleanValuesAt(c: Cleaner, fs: Fields, i: nat)
    requires CleanValues(c, fs).Ok? && i < |fs|
    ensures CleanValue(c, fs[i].1) == Ok(CleanValues(c, fs).value[i].1)
  {
    ValuesAt(c, fs, CleanValues(c, fs).value, i);
  }

  lemma {:induction false} ValuesAt(c: Cleaner, fs: Fields, vs: Fields, i: nat)
    requires CleanValues(c, fs) == Ok(vs) && i < |fs|
    ensures CleanValue(c, fs[i].1) == Ok(vs[i].1)
    decreases i
  {
    ValuesSplit(c, fs, vs);
    if i > 0 {
      ValuesAt(c, fs[1..], vs[1..], i - 1);
      assert fs[1..][i - 1] == fs[i] && vs[1..][i - 1] == vs[i];
    }
  }

  /** A cleaned list of values is its cleaned head followed by its cleaned tail. */
  lemma ValuesSplit(c: Cleaner, fs: Fields, vs: Fields)
    requires CleanValues(c, fs) == Ok(vs) && fs != []
    ensures CleanValue(c, fs[0].1) == Ok(vs[0].1) && CleanValues(c, fs[1..]) == Ok(vs[1..])
  {
  }

  /** Each item of a cleaned list is its old item cleaned, at the same position. */
  lemma CleanItemsAt(c: Cleaner, items: seq<Json>, i: nat)
    requires CleanItems(c, items).Ok? && i < |items|
    ensures Clean(c, items[i]) == Ok(CleanItems(c, items).value[i])
  {
    CleanItemAt(c, items, CleanItems(c, items).value, i);
  }

  lemma {:induction false} CleanItemAt(c: Cleaner, items: seq<Json>, ys: seq<Json>, i: nat)
    requires CleanItems(c, items) == Ok(ys) && i < |items|
    ensures Clean(c, items[i]) == Ok(ys[i])
    decreases i
  {
    ItemsTail(c, items, ys);
    if i > 0 {
      CleanItemAt(c, items[1..], ys[1..], i - 1);
      DropIndex(items, i);
      DropIndex(ys, i);
    }
  }

  lemma DropIndex(s: seq<Json>, i: nat)
    requires 0 < i < |s|
    ensures s[1..][i - 1] == s[i]
  {
  }

  /** A list cleaned without error is its first item cleaned, followed by the rest cleaned. */
  lemma ItemsTail(c: Cleaner, items: seq<Json>, ys: seq<Json>)
    requires CleanItems(c, items) == Ok(ys) && items != []
    ensures |ys| == |items| && Clean(c, items[0]) == Ok(ys[0]) && CleanItems(c, items[1..]) == Ok(ys[1..])
  {
  }

  /**
   The cleaner does not enter a list nested directly in a list: under either
   cleaner `{"items": [xs]}` comes back unchanged, whatever dicts `xs` holds,
   so `{"items": [[{"$ref": "x"}]]}` keeps its `$ref`.
   */
  lemma ListInListKept(c: Cleaner, xs: seq<Json>)
    ensures Clean(c, Obj([("items", Arr([Arr(xs)]))])) == Ok(Obj([("items", Arr([Arr(xs)]))]))
  {
    var fs := [("items", Arr([Arr(xs)]))];
    assert Keys(fs) == {"items"} by {
      KeysTail(fs);
    }
    assert NoBadKeys(fs);
    var items := [Arr(xs)];
    assert items[1..] == [] && [Arr(xs)] + [] == items;
    ItemsCons(c, items, Arr(xs), []);
    assert fs[1..] == [] && [("items", Arr(items))] + [] == fs;
    ValuesCons(c, fs, Arr(items), []);
  }

  /** The corrected cleaner is idempotent: cleaning its output again changes nothing. */
  lemma CleanIdempotent(j: Json)
    requires Clean(Repeated, j).Ok?
    ensures Clean(Repeated, Clean(Repeated, j).value) == Clean(Repeated, j)
  {
    if j.Obj? {
      TidyKept(Repeated, Clean(Repeated, j).value);
    }
  }

  /** No `anyOf` in any dict the cleaner reaches. */
  predicate NoAnyOf(j: Json)
    decreases j, 1
  {
    j.Obj? ==> "anyOf" !in Keys(j.fields) && forall p | p in j.fields :: NoAnyOfValue(p.1)
  }

  predicate NoAnyOfValue(v: Json)
    decreases v, 2
  {
    match v
    case Obj(_) => NoAnyOf(v)
    case Arr(items) => forall x | x in items :: NoAnyOf(x)
    case _ => true
  }

  lemma {:induction false} PopKeepsPairs(fs: Fields, k: string)
    ensures forall p | p in Pop(fs, k) :: p in fs
    decreases |fs|
  {
    if fs != [] {
      PopKeepsPairs(fs[1..], k);
    }
  }

  lemma {:induction false} DropKeepsPairs(fs: Fields, ks: seq<string>)
    ensures forall p | p in DropKeys(fs, ks) :: p in fs
    decreases |ks|
  {
    if ks != [] {
      PopKeepsPairs(fs, ks[0]);
      DropKeepsPairs(Pop(fs, ks[0]), ks[1..]);
    }
  }

  /**
   Without any `anyOf`, one pass and the repeated pass agree: the source's
   cleaner is exact on such schemas.
   */
  lemma {:induction false} OnePassSuffices(j: Json)
    requires NoAnyOf(j)
    ensures Clean(AsWritten, j) == Clean(Repeated, j)
    decreases Size(j), 0
  {
    if j.Obj? {
      OnePassDict(j.fields);
    }
  }

  lemma {:induction false} OnePassDict(fs: Fields)
    requires "anyOf" !in Keys(fs) && forall p | p in fs :: NoAnyOfValue(p.1)
    ensures Clean(AsWritten, Obj(fs)) == Clean(Repeated, Obj(fs))
    decreases FieldsSize(fs), 3
  {
    var kept := DropKeys(fs, Unsupported);
    DropKeepsPairs(fs, Unsupported);
    OnePassValues(kept);
    DictFrom(AsWritten, fs, kept);
    DictFrom(Repeated, fs, kept);
  }

  lemma {:induction false} OnePassValues(fs: Fields)
    requires forall p | p in fs :: NoAnyOfValue(p.1)
    ensures CleanValues(AsWritten, fs) == CleanValues(Repeated, fs)
    decreases FieldsSize(fs), 2
  {
    if fs != [] {
      assert fs[0] in fs;
      assert FieldSize(fs[0]) == Size(fs[0].1);
      OnePassValue(fs[0].1);
      OnePassValues(fs[1..]);
    }
  }

  lemma {:induction false} OnePassValue(v: Json)
    requires NoAnyOfValue(v)
    ensures CleanValue(AsWritten, v) == CleanValue(Repeated, v)
    decreases Size(v), 1
  {
    match v
    case Obj(_) => OnePassSuffices(v);
    case Arr(items) => OnePassItems(items);
    case _ =>
  }

  lemma {:induction false} OnePassItems(items: seq<Json>)
    requires forall x | x in items :: NoAnyOf(x)
    ensures CleanItems(AsWritten, items) == CleanItems(Repeated, items)
    decreases ItemsSize(items), 2
  {
    if items != [] {
      assert items[0] in items;
      OnePassSuffices(items[0]);
      OnePassItems(items[1..]);
    }
  }

  /** A dict whose step gives `kept` is cleaned to `kept` with its values cleaned. */
  lemma DictFrom(c: Cleaner, fs: Fields, kept: Fields)
    requires Step(c, fs) == Ok(kept)
    ensures Clean(c, Obj(fs)) == (if CleanValues(c, kept).Ok? then Ok(Obj(CleanValues(c, kept).value)) else Err(CleanValues(c, kept).msg))
  {
  }

  /** Without `anyOf`, the source's cleaner never raises and leaves no unsupported keyword in a dict it reaches. */
  lemma OnePassTidy(j: Json)
    requires j.Obj? && NoAnyOf(j)
    ensures Clean(AsWritten, j).Ok? <==> Clean(Repeated, j).Ok?
    ensures Clean(AsWritten, j).Ok? ==> Tidy(Clean(AsWritten, j).value)
  {
    OnePassSuffices(j);
  }

  /** The top-level keys the source's cleaner keeps when there is no `anyOf`: every key but the unsupported ones. */
  lemma CleanKeys(fs: Fields)
    requires "anyOf" !in Keys(fs)
    requires Clean(AsWritten, Obj(fs)).Ok?
    ensures forall k :: k in Keys(Clean(AsWritten, Obj(fs)).value.fields) <==> k in Keys(fs) && k !in Unsupported
  {
  }

  /**
   With an `anyOf` list, the first eligible option's keys join the dict's own
   (minus the unsupported ones and `anyOf`), and the other keys keep their values.
   */
  lemma MergedKeys(fs: Fields, items: seq<Json>, i: nat)
    requires Get(fs, "anyOf") == Some(Arr(items)) && FirstOption(items) == Some(i)
    ensures var merged := Step(AsWritten, fs);
      && merged.Ok?
      && (forall k :: k in Keys(merged.value) <==> (k in Keys(fs) && k !in Unsupported && k != "anyOf") || k in Keys(items[i].fields))
      && (forall k | k !in Unsupported && k != "anyOf" && k !in Keys(items[i].fields) :: Get(merged.value, k) == Get(fs, k))
      && (Wf(items[i].fields) ==> forall k | k in Keys(items[i].fields) :: Get(merged.value, k) == Get(items[i].fields, k))
  {
    var option := items[i].fields;
    StepMerges(fs, items, i);
    MergedFields(fs, Unsupported, option, Update(Pop(DropKeys(fs, Unsupported), "anyOf"), option));
  }

  lemma StepMerges(fs: Fields, items: seq<Json>, i: nat)
    requires Get(fs, "anyOf") == Some(Arr(items)) && FirstOption(items) == Some(i)
    ensures Step(AsWritten, fs) == Ok(Update(Pop(DropKeys(fs, Unsupported), "anyOf"), items[i].fields))
  {
    var kept := DropKeys(fs, Unsupported);
    KeptAnyOf(fs);
    MergeAt(kept, items, i);
  }

  lemma MergeAt(kept: Fields, items: seq<Json>, i: nat)
    requires Get(kept, "anyOf") == Some(Arr(items)) && FirstOption(items) == Some(i)
    ensures Merge(kept) == Ok(Update(Pop(kept, "anyOf"), items[i].fields))
  {
    OptionMerged(Pop(kept, "anyOf"), items, i);
  }

  /** `anyOf` is not among the dropped keywords, so dropping them leaves it alone. */
  lemma KeptAnyOf(fs: Fields)
    ensures Get(DropKeys(fs, Unsupported), "anyOf") == Get(fs, "anyOf")
  {
    assert "anyOf" !in Unsupported;
  }

  /** A list of options whose first eligible option is at `i` merges that option into the other fields. */
  lemma OptionMerged(rest: Fields, items: seq<Json>, i: nat)
    requires FirstOption(items) == Some(i)
    ensures MergeOption(rest, Arr(items)) == Ok(Update(rest, items[i].fields))
  {
  }

  /** A list of options none of which is an eligible dict is simply dropped. */
  lemma OptionDropped(rest: Fields, items: seq<Json>)
    requires forall i | 0 <= i < |items| :: !Eligible(items[i])
    ensures MergeOption(rest, Arr(items)) == Ok(rest)
  {
  }

  lemma MergedFields(fs: Fields, ks: seq<string>, option: Fields, merged: Fields)
    requires merged == Update(Pop(DropKeys(fs, ks), "anyOf"), option)
    ensures forall k :: k in Keys(merged) <==> (k in Keys(fs) && k !in ks && k != "anyOf") || k in Keys(option)
    ensures forall k | k !in ks && k != "anyOf" && k !in Keys(option) :: Get(merged, k) == Get(fs, k)
    ensures Wf(option) ==> forall k | k in Keys(option) :: Get(merged, k) == Get(option, k)
  {
    var kept := DropKeys(fs, ks);
    var rest := Pop(kept, "anyOf");
    assert Keys(merged) == Keys(rest) + Keys(option);
    assert Keys(rest) == Keys(kept) - {"anyOf"};
    forall k | k !in ks && k != "anyOf" && k !in Keys(option) ensures Get(merged, k) == Get(fs, k) {
      assert Get(merged, k) == Get(rest, k);
      assert Get(rest, k) == Get(kept, k);
    }
    if Wf(option) {
      forall k | k in Keys(option) ensures Get(merged, k) == Get(option, k) {
        UpdateGet(rest, option, k);
      }
    }
  }

  /** An `anyOf` holding a number, a boolean or null cannot be iterated: both cleaners raise. */
  lemma ScalarAnyOfRaises(c: Cleaner, fs: Fields, a: Json)
    requires Get(fs, "anyOf") == Some(a) && Scalar(a)
    ensures Clean(c, Obj(fs)).Err?
  {
    KeptAnyOf(fs);
  }

  /**
   The source's cleaner keeps an unsupported keyword that arrives with the
   merged option: for `{"anyOf": [{"type": "string", "$ref": "#/x"}]}` the
   result still holds `$ref`, so it is not tidy. The repeated cleaner's result
   always is (see `Clean`).
   */
  lemma MergedKeywordSurvives(option: Fields, k: string)
    requires k in Unsupported && k in Keys(option) && Eligible(Obj(option))
    requires Clean(AsWritten, Obj([("anyOf", Arr([Obj(option)]))])).Ok?
    ensures k in Keys(Clean(AsWritten, Obj([("anyOf", Arr([Obj(option)]))])).value.fields)
    ensures !Tidy(Clean(AsWritten, Obj([("anyOf", Arr([Obj(option)]))])).value)
  {
    var fs := [("anyOf", Arr([Obj(option)]))];
    assert Get(fs, "anyOf") == Some(Arr([Obj(option)]));
    MergedKeys(fs, [Obj(option)], 0);
  }

  // ---------------------------------------------------------------------------
  // MCP tools to function declarations
  // ---------------------------------------------------------------------------

  /** An MCP tool as the server lists it; a missing description or schema is `Null`. */
  datatype Tool = Tool(name: string, description: Json, inputSchema: Json)

  datatype Declaration = Declaration(name: string, description: Json, parameters: Json)

  /** The default schema is already clean. */
  lemma DefaultKept(c: Cleaner)
    ensures Clean(c, DefaultSchema) == Ok(DefaultSchema)
  {
    var fs := DefaultSchema.fields;
    assert Keys(fs) == {"type", "properties"} by {
      KeysTail(fs);
      KeysTail(fs[1..]);
    }
    assert Tidy(DefaultSchema) by {
      forall p | p in fs ensures TidyValue(p.1) {
        assert p == fs[0] || p == fs[1];
      }
    }
    TidyKept(c, DefaultSchema);
  }

  /** One tool: an empty or missing schema becomes the default, an empty or missing description `Tool: <name>`. */
  function Declare(c: Cleaner, t: Tool): (r: Result<Declaration>)
    ensures r.Ok? ==> r.value.name == t.name
    ensures r.Ok? && Truthy(t.description) ==> r.value.description == t.description
    ensures r.Ok? && !Truthy(t.description) ==> r.value.description == Str("Tool: " + t.name)
    ensures !Truthy(t.inputSchema) ==> r.Ok? && r.value.parameters == DefaultSchema
    ensures Truthy(t.inputSchema) && !t.inputSchema.Obj? ==> r.Ok? && r.value.parameters == t.inputSchema
  {
    DefaultKept(c);
    var schema :- Clean(c, Or(t.inputSchema, DefaultSchema));
    Ok(Declaration(t.name, Or(t.description, Str("Tool: " + t.name)), schema))
  }

  /** The values of the calls that returned, in order: what a loop that catches and skips failures collects. */
  function Successes<T>(rs: seq<Result<T>>): (r: seq<T>)
    ensures |r| <= |rs|
    ensures (forall i | 0 <= i < |rs| :: rs[i].Ok?) ==> |r| == |rs|
  {
    if rs == [] then []
    else if rs[0].Ok? then [rs[0].value] + Successes(rs[1..])
    else Successes(rs[1..])
  }

  /** The positions, from `n` on, of the calls that returned: increasing, and every such position. */
  function OkFrom<T>(rs: seq<Result<T>>, n: nat): (r: seq<nat>)
    requires n <= |rs|
    ensures forall j | 0 <= j < |r| :: n <= r[j] < |rs| && rs[r[j]].Ok?
    ensures forall j, l | 0 <= j < l < |r| :: r[j] < r[l]
    ensures forall m | n <= m < |rs| && rs[m].Ok? :: m in r
    decreases |rs| - n
  {
    if n == |rs| then []
    else if rs[n].Ok? then [n] + OkFrom(rs, n + 1)
    else OkFrom(rs, n + 1)
  }

  /** The collected values are exactly the values of the calls that returned, in order. */
  lemma {:induction false} SuccessesAt<T>(rs: seq<Result<T>>, n: nat)
    requires n <= |rs|
    ensures |Successes(rs[n..])| == |OkFrom(rs, n)|
    ensures forall j | 0 <= j < |OkFrom(rs, n)| :: rs[OkFrom(rs, n)[j]] == Ok(Successes(rs[n..])[j])
    decreases |rs| - n
  {
    if n < |rs| {
      SuccessesAt(rs, n + 1);
      SuccessesUnfold(rs, n);
      if rs[n].Ok? {
        PairedCons(rs, n, OkFrom(rs, n + 1), Successes(rs[n + 1..]));
      }
    }
  }

  lemma SuccessesUnfold<T>(rs: seq<Result<T>>, n: nat)
    requires n < |rs|
    ensures Successes(rs[n..]) == if rs[n].Ok? then [rs[n].value] + Successes(rs[n + 1..]) else Successes(rs[n + 1..])
  {
    assert rs[n..][1..] == rs[n + 1..];
  }

  /** Positions `at` paired with values `vs`, extended by one returned call in front. */
  lemma PairedCons<T>(rs: seq<Result<T>>, n: nat, at: seq<nat>, vs: seq<T>)
    requires n < |rs| && rs[n].Ok? && |at| == |vs|
    requires forall j | 0 <= j < |at| :: at[j] < |rs| && rs[at[j]] == Ok(vs[j])
    ensures forall j | 0 <= j < |at| + 1 :: ([n] + at)[j] < |rs| && rs[([n] + at)[j]] == Ok(([rs[n].value] + vs)[j])
  {
  }

  /** Every collected value is the value of a call at or after its own position. */
  lemma {:induction false} SuccessFrom<T>(rs: seq<Result<T>>, i: nat)
    requires i < |Successes(rs)|
    ensures exists m | i <= m < |rs| :: rs[m] == Ok(Successes(rs)[i])
    decreases |rs|
  {
    if !(rs[0].Ok? && i == 0) {
      var j := if rs[0].Ok? then i - 1 else i;
      assert Successes(rs)[i] == Successes(rs[1..])[j];
      SuccessFrom(rs[1..], j);
      var m :| j <= m < |rs[1..]| && rs[1..][m] == Ok(Successes(rs[1..])[j]);
      assert rs[m + 1] == Ok(Successes(rs)[i]);
    }
  }

  /** When every call returns, the collected values are all of them, in order. */
  lemma {:induction false} SuccessAll<T>(rs: seq<Result<T>>)
    requires forall i | 0 <= i < |rs| :: rs[i].Ok?
    ensures forall i | 0 <= i < |rs| :: rs[i] == Ok(Successes(rs)[i])
    decreases |rs|
  {
    if rs != [] {
      SuccessAll(rs[1..]);
      forall i | 0 <= i < |rs| ensures rs[i] == Ok(Successes(rs)[i]) {
        if i > 0 {
          assert rs[i] == rs[1..][i - 1];
        }
      }
    }
  }

  /** The conversion of every tool, in order. */
  function Conversions(c: Cleaner, tools: seq<Tool>): (r: seq<Result<Declaration>>)
    ensures |r| == |tools|
    ensures forall i | 0 <= i < |tools| :: r[i] == Declare(c, tools[i])
  {
    seq(|tools|, i requires 0 <= i < |tools| => Declare(c, tools[i]))
  }

  /**
   `mcp_tools_to_vertexai`: a tool whose conversion raises is skipped, the
   others keep their order. Declaration `j` is the conversion of the `j`-th
   tool that converts (`OkFrom` lists those tools' positions, increasing, all
   of them).
   */
  function Declarations(c: Cleaner, tools: seq<Tool>): (r: seq<Declaration>)
    ensures |r| <= |tools|
    ensures (forall i | 0 <= i < |tools| :: Declare(c, tools[i]).Ok?) ==> |r| == |tools|
    ensures |r| == |OkFrom(Conversions(c, tools), 0)|
    ensures forall j | 0 <= j < |r| :: Declare(c, tools[OkFrom(Conversions(c, tools), 0)[j]]) == Ok(r[j])
  {
    var rs := Conversions(c, tools);
    SuccessesAt(rs, 0);
    assert rs[0..] == rs;
    Successes(rs)
  }

  /** Declaration `i` is the conversion of a tool at or after position `i`. */
  lemma DeclarationsFrom(c: Cleaner, tools: seq<Tool>, i: nat)
    requires i < |Declarations(c, tools)|
    ensures exists m | i <= m < |tools| :: Declare(c, tools[m]) == Ok(Declarations(c, tools)[i])
  {
    var rs := Conversions(c, tools);
    SuccessFrom(rs, i);
    var m :| i <= m < |rs| && rs[m] == Ok(Successes(rs)[i]);
    assert Declare(c, tools[m]) == Ok(Declarations(c, tools)[i]);
  }

  /** When no conversion raises, there is exactly one declaration per tool, in order. */
  lemma DeclarationsAll(c: Cleaner, tools: seq<Tool>)
    requires forall i | 0 <= i < |tools| :: Declare(c, tools[i]).Ok?
    ensures |Declarations(c, tools)| == |tools|
    ensures forall i | 0 <= i < |tools| :: Declare(c, tools[i]) == Ok(Declarations(c, tools)[i])
  {
    var rs := Conversions(c, tools);
    SuccessAll(rs);
  }
}
