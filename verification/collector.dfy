/**
 The NSO collector's pipeline after the queries have returned: each response
 is analysed by the function its request names (`NSOClient._process_results`),
 and the analyses that succeeded are merged into one document (`main`).
 */
module Collector {
  import opened Json
  import Cdb
  import A = CdbAnalyzers

  /** The analysis function a request configuration carries. */
  datatype Analysis = Logical | Lags | Isis

  datatype RequestConfig = RequestConfig(name: string, analysis: Option<Analysis>)

  /** What one query returned: its name, its data (Null when it failed) and its status text. */
  datatype Response = Response(name: string, data: Json, status: Json)

  /** `config.analysis_func(data)`: flatten the rows, then classify them. */
  function RunAnalysis(a: Analysis, data: Json, ipv4: A.Ipv4Interface): (r: Result<Json>)
    ensures r.Ok? ==> r.value.Obj? && Keys(r.value.fields) <= {"DEVICE", "ISIS"}
    ensures !data.Obj? ==> r.Err?
  {
    var items :- Cdb.ExtractItems(data);
    match a
    case Logical => A.AnalyzeLogical(items, ipv4)
    case Lags => A.AnalyzeLags(items)
    case Isis => A.AnalyzeIsis(items)
  }

  /** The entry stored for one response. */
  function Entry(res: Response, cfg: RequestConfig, ipv4: A.Ipv4Interface): (r: Result<Json>)
    ensures r.Ok? ==> r.value.Obj? && ("error" in Keys(r.value.fields) <==> !Truthy(res.data))
    ensures !Truthy(res.data) ==> r == Ok(Obj([("error", res.status)]))
    ensures Truthy(res.data) && cfg.analysis.None? ==> r == Ok(Obj([("status", res.status), ("data", res.data)]))
  {
    if Truthy(res.data) && cfg.analysis.Some? then
      RunAnalysis(cfg.analysis.value, res.data, ipv4)
    else if Truthy(res.data) then
      KeysCons(("data", res.data), []);
      KeysCons(("status", res.status), [("data", res.data)]);
      Ok(Obj([("status", res.status), ("data", res.data)]))
    else
      KeysCons(("error", res.status), []);
      Ok(Obj([("error", res.status)]))
  }

  /** The number of pairs `zip(results, configs)` yields. */
  function ZipLen<S, T>(xs: seq<S>, ys: seq<T>): (n: nat)
    ensures n <= |xs| && n <= |ys| && (n == |xs| || n == |ys|)
  {
    if |xs| <= |ys| then |xs| else |ys|
  }

  /** The names of the first `n` responses. */
  function NamesOf(results: seq<Response>, n: nat): (r: seq<string>)
    requires n <= |results|
    ensures |r| == n && forall i | 0 <= i < n :: r[i] == results[i].name
  {
    seq(n, i requires 0 <= i < n => results[i].name)
  }

  /** The entries of the first `n` responses, in order; the first analysis that raises ends the loop. */
  function Entries(results: seq<Response>, configs: seq<RequestConfig>, n: nat, ipv4: A.Ipv4Interface): (r: Result<seq<Json>>)
    requires n <= |results| && n <= |configs|
    ensures r.Ok? ==> |r.value| == n && forall j | 0 <= j < n :: Entry(results[j], configs[j], ipv4) == Ok(r.value[j])
    ensures r.Err? <==> exists j | 0 <= j < n :: Entry(results[j], configs[j], ipv4).Err?
  {
    if n == 0 then Ok([])
    else
      var prev :- Entries(results, configs, n - 1, ipv4);
      var e :- Entry(results[n - 1], configs[n - 1], ipv4);
      EntriesSnoc(results, configs, n, ipv4, prev, e);
      Ok(prev + [e])
  }

  /** The step of `Entries`: one more entry appended after the earlier ones. */
  lemma EntriesSnoc(results: seq<Response>, configs: seq<RequestConfig>, n: nat, ipv4: A.Ipv4Interface, prev: seq<Json>, e: Json)
    requires 0 < n <= |results| && n <= |configs|
    requires |prev| == n - 1 && forall j | 0 <= j < n - 1 :: Entry(results[j], configs[j], ipv4) == Ok(prev[j])
    requires Entry(results[n - 1], configs[n - 1], ipv4) == Ok(e)
    ensures |prev + [e]| == n && forall j | 0 <= j < n :: Entry(results[j], configs[j], ipv4) == Ok((prev + [e])[j])
  {
    forall j | 0 <= j < n ensures Entry(results[j], configs[j], ipv4) == Ok((prev + [e])[j]) {
      if j < n - 1 {
        assert (prev + [e])[j] == prev[j];
      }
    }
  }

  /**
   `_process_results`: the pairs of `zip(results, configs)` in order, each
   response's entry stored under its name.
   */
  function ProcessResults(results: seq<Response>, configs: seq<RequestConfig>, ipv4: A.Ipv4Interface): (r: Result<Fields>)
    ensures r.Ok? ==> Wf(r.value)
    ensures r.Err? <==> exists j | 0 <= j < ZipLen(results, configs) :: Entry(results[j], configs[j], ipv4).Err?
  {
    var n := ZipLen(results, configs);
    var es :- Entries(results, configs, n, ipv4);
    Ok(Assign(NamesOf(results, n), es))
  }

  /**
   One entry per response name, holding the entry of the last response of
   that name; an entry is `{"error": status}` exactly when its data is falsy.
   */
  lemma ProcessResultsEntries(results: seq<Response>, configs: seq<RequestConfig>, ipv4: A.Ipv4Interface, j: nat)
    requires ProcessResults(results, configs, ipv4).Ok?
    requires j < ZipLen(results, configs) && LastOf(NamesOf(results, ZipLen(results, configs)), j)
    ensures var processed := ProcessResults(results, configs, ipv4).value;
      && Keys(processed) == KeySet(NamesOf(results, ZipLen(results, configs)))
      && Entry(results[j], configs[j], ipv4).Ok?
      && Get(processed, results[j].name) == Some(Entry(results[j], configs[j], ipv4).value)
      && Get(processed, results[j].name).value.Obj?
      && ("error" in Keys(Get(processed, results[j].name).value.fields) <==> !Truthy(results[j].data))
  {
    var n := ZipLen(results, configs);
    var ks := NamesOf(results, n);
    var es := Entries(results, configs, n, ipv4).value;
    AssignLast(ks, es, j);
  }

  /** An entry main merges: a dict without an `error` key. */
  predicate Mergeable(v: Json) {
    v.Obj? && "error" !in Keys(v.fields)
  }

  /** The keys all mergeable entries contribute. */
  function MergedKeys(vs: seq<Json>): set<string> {
    set i, k | 0 <= i < |vs| && Mergeable(vs[i]) && k in Keys(vs[i].fields) :: k
  }

  /** The merge loop of `main`, over the entries in order. */
  function MergeAll(vs: seq<Json>): (r: Fields)
    ensures Wf(r)
  {
    if vs == [] then []
    else
      var acc := MergeAll(vs[..|vs| - 1]);
      var v := vs[|vs| - 1];
      if Mergeable(v) then Cdb.Merge(acc, v.fields) else acc
  }

  /** The merged document has exactly the keys of the non-error dict entries. */
  lemma {:induction false} MergeAllKeys(vs: seq<Json>)
    ensures Keys(MergeAll(vs)) == MergedKeys(vs)
  {
    if vs != [] {
      var init, v := vs[..|vs| - 1], vs[|vs| - 1];
      MergeAllKeys(init);
      assert forall i | 0 <= i < |init| :: init[i] == vs[i];
      forall k | k in MergedKeys(vs)
        ensures k in MergedKeys(init) || (Mergeable(v) && k in Keys(v.fields))
      {
        var i :| 0 <= i < |vs| && Mergeable(vs[i]) && k in Keys(vs[i].fields);
        if i < |vs| - 1 {
          assert k in MergedKeys(init);
        }
      }
      forall k | k in MergedKeys(init)
        ensures k in MergedKeys(vs)
      {
        var i :| 0 <= i < |init| && Mergeable(init[i]) && k in Keys(init[i].fields);
        assert vs[i] == init[i];
      }
      if Mergeable(v) {
        forall k | k in Keys(v.fields)
          ensures k in MergedKeys(vs)
        {
          assert Mergeable(vs[|vs| - 1]) && k in Keys(vs[|vs| - 1].fields);
        }
      }
    }
  }

  /** The values of a dict, in insertion order (`d.values()`). */
  function Values(fs: Fields): (r: seq<Json>)
    ensures |r| == |fs|
    ensures forall i | 0 <= i < |fs| :: r[i] == fs[i].1
  {
    seq(|fs|, i requires 0 <= i < |fs| => fs[i].1)
  }

  /** The collector after the queries: process the responses, then merge the successful analyses. */
  function Collect(results: seq<Response>, configs: seq<RequestConfig>, ipv4: A.Ipv4Interface): (r: Result<Fields>)
    ensures r.Ok? ==> Wf(r.value)
    ensures r.Ok? <==> ProcessResults(results, configs, ipv4).Ok?
  {
    var processed :- ProcessResults(results, configs, ipv4);
    Ok(MergeAll(Values(processed)))
  }

  /** Every stored entry is the entry of some response. */
  lemma ProcessedEntry(results: seq<Response>, configs: seq<RequestConfig>, ipv4: A.Ipv4Interface, i: nat)
    requires ProcessResults(results, configs, ipv4).Ok?
    requires i < |ProcessResults(results, configs, ipv4).value|
    ensures var processed := ProcessResults(results, configs, ipv4).value;
      exists j | 0 <= j < ZipLen(results, configs) ::
        Entry(results[j], configs[j], ipv4) == Ok(processed[i].1)
  {
    var n := ZipLen(results, configs);
    AssignFrom(NamesOf(results, n), Entries(results, configs, n, ipv4).value, i);
  }

  /** A mergeable entry of a request with an analysis is that analysis' result. */
  lemma MergeableEntryKeys(res: Response, cfg: RequestConfig, ipv4: A.Ipv4Interface, v: Json)
    requires cfg.analysis.Some?
    requires Entry(res, cfg, ipv4) == Ok(v) && Mergeable(v)
    ensures Keys(v.fields) <= {"DEVICE", "ISIS"}
  {
  }

  /** A key a stored, mergeable entry holds is one an analysis produces. */
  lemma ProcessedKeys(results: seq<Response>, configs: seq<RequestConfig>, ipv4: A.Ipv4Interface, i: nat)
    requires forall j | 0 <= j < |configs| :: configs[j].analysis.Some?
    requires ProcessResults(results, configs, ipv4).Ok?
    requires i < |ProcessResults(results, configs, ipv4).value|
    requires Mergeable(ProcessResults(results, configs, ipv4).value[i].1)
    ensures Keys(ProcessResults(results, configs, ipv4).value[i].1.fields) <= {"DEVICE", "ISIS"}
  {
    var v := ProcessResults(results, configs, ipv4).value[i].1;
    ProcessedEntry(results, configs, ipv4, i);
    var j :| 0 <= j < ZipLen(results, configs) && Entry(results[j], configs[j], ipv4) == Ok(v);
    MergeableEntryKeys(results[j], configs[j], ipv4, v);
  }

  lemma MergedKeysBounded(results: seq<Response>, configs: seq<RequestConfig>, ipv4: A.Ipv4Interface)
    requires forall j | 0 <= j < |configs| :: configs[j].analysis.Some?
    requires ProcessResults(results, configs, ipv4).Ok?
    ensures MergedKeys(Values(ProcessResults(results, configs, ipv4).value)) <= {"DEVICE", "ISIS"}
  {
    var processed := ProcessResults(results, configs, ipv4).value;
    forall i | 0 <= i < |processed| && Mergeable(processed[i].1)
      ensures Keys(processed[i].1.fields) <= {"DEVICE", "ISIS"}
    {
      ProcessedKeys(results, configs, ipv4, i);
    }
    KeysWithin(processed, {"DEVICE", "ISIS"});
  }

  /** When every mergeable value of a dict has its keys in `ks`, so do all the merged keys. */
  lemma KeysWithin(fs: Fields, ks: set<string>)
    requires forall i | 0 <= i < |fs| && Mergeable(fs[i].1) :: Keys(fs[i].1.fields) <= ks
    ensures MergedKeys(Values(fs)) <= ks
  {
    var vs := Values(fs);
    forall k | k in MergedKeys(vs)
      ensures k in ks
    {
      var i :| 0 <= i < |vs| && Mergeable(vs[i]) && k in Keys(vs[i].fields);
      assert vs[i] == fs[i].1;
    }
  }

  /**
   When every request names one of the three analyses, the collected
   document holds at most DEVICE and ISIS.
   */
  lemma CollectKeys(results: seq<Response>, configs: seq<RequestConfig>, ipv4: A.Ipv4Interface)
    requires forall j | 0 <= j < |configs| :: configs[j].analysis.Some?
    requires Collect(results, configs, ipv4).Ok?
    ensures Keys(Collect(results, configs, ipv4).value) <= {"DEVICE", "ISIS"}
  {
    var vs := Values(ProcessResults(results, configs, ipv4).value);
    assert Collect(results, configs, ipv4).value == MergeAll(vs);
    MergeAllKeys(vs);
    MergedKeysBounded(results, configs, ipv4);
  }
}
