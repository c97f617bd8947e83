/**
 What the BGP-LS collector does with the decoded destinations
 (`scripts/1.get_gobgp_ls_info.py`): `parse_routes` sorts them into a node
 table keyed by router id, a link list and a prefix list; `generate_output`
 wraps them with their counts; and `reorganize_by_igp_router_id` regroups the
 saved output per IGP router id.

 The output is written to a JSON file and read back before it is regrouped;
 that file round trip is taken as the identity.
 */
module BgplsOutput {
  import opened Json
  import opened Text
  import opened Bgpls

  // ===========================================================================
  // parse_routes
  // ===========================================================================

  /** The collector's state: nodes keyed by router id (insertion order kept), links and prefixes in arrival order. */
  datatype Parsed = Parsed(nodes: Table<Key, Fields>, links: seq<Fields>, prefixes: seq<Fields>)

  /** The key a node is stored under: its IGP router id, or failing that the string form of its AS number. */
  function NodeId(node: Fields, repr: Json -> string): (r: Json)
    ensures Truthy(GetOr(node, "igp_router_id", Null)) ==> r == GetOr(node, "igp_router_id", Null)
    ensures !Truthy(GetOr(node, "igp_router_id", Null)) ==> r.Str?
  {
    Or(GetOr(node, "igp_router_id", Null), Str(PyStr(GetOr(node, "asn", Str("unknown")), repr)))
  }

  /**
   The three decoders in the order `parse_routes` tries them. The fold is
   stated for any such triple, and instantiated with the BGP-LS decoders.
   */
  datatype Decoders = Decoders(node: Json -> Option<Fields>, link: Json -> Option<Fields>, prefix: Json -> Option<Fields>)

  function Gobgp(): Decoders {
    Decoders(DecodeNode, DecodeLink, DecodePrefix)
  }

  /** No destination is accepted by two decoders. */
  ghost predicate Exclusive(dec: Decoders) {
    forall d :: !(dec.node(d).Some? && dec.link(d).Some?) && !(dec.node(d).Some? && dec.prefix(d).Some?) &&
                !(dec.link(d).Some? && dec.prefix(d).Some?)
  }

  lemma GobgpExclusive()
    ensures Exclusive(Gobgp())
  {
    forall d { DecodersExclusive(d); }
  }

  /** The table key of a decoded node, when its id is usable. */
  function KeyOf(node: Option<Fields>, repr: Json -> string): (r: Option<Key>)
    ensures r.Some? ==> node.Some? && Truthy(NodeId(node.value, repr))
  {
    match node
    case None => None
    case Some(n) =>
      var id := NodeId(n, repr);
      if Truthy(id) && HashKey(id).Ok? then Some(HashKey(id).value) else None
  }

  /** A node whose id cannot be a dict key: storing it raises TypeError. */
  predicate Unhashable(node: Option<Fields>, repr: Json -> string) {
    node.Some? && var id := NodeId(node.value, repr);
    Truthy(id) && HashKey(id).Err?
  }

  /** The decoded records of one kind, in order, skipping the destinations that do not decode as that kind. */
  function Decoded(ds: seq<Json>, decode: Json -> Option<Fields>): (r: seq<Fields>)
    ensures |r| <= |ds|
  {
    if ds == [] then []
    else
      Decoded(ds[..|ds| - 1], decode) +
      match decode(ds[|ds| - 1])
      case Some(x) => [x]
      case None => []
  }

  /** One destination: tried as a node, then as a link, then as a prefix. */
  function ParseStep(dec: Decoders, st: Parsed, dest: Json, repr: Json -> string): (r: Result<Parsed>)
    ensures r.Err? <==> Unhashable(dec.node(dest), repr)
    ensures r.Ok? ==> (r.value.nodes ==
      match KeyOf(dec.node(dest), repr)
      case Some(k) => Put(st.nodes, k, dec.node(dest).value)
      case None => st.nodes)
    ensures r.Ok? ==> (r.value.links ==
      st.links + if dec.node(dest).None? && dec.link(dest).Some? then [dec.link(dest).value] else [])
    ensures r.Ok? ==> (r.value.prefixes ==
      st.prefixes + if dec.node(dest).None? && dec.link(dest).None? && dec.prefix(dest).Some? then [dec.prefix(dest).value] else [])
  {
    match dec.node(dest)
    case Some(node) =>
      var id := NodeId(node, repr);
      if !Truthy(id) then Ok(st)
      else
        var k :- HashKey(id);
        Ok(st.(nodes := Put(st.nodes, k, node)))
    case None =>
      match dec.link(dest)
      case Some(link) => Ok(st.(links := st.links + [link]))
      case None =>
        match dec.prefix(dest)
        case Some(prefix) => Ok(st.(prefixes := st.prefixes + [prefix]))
        case None => Ok(st)
  }

  /** The fold of `parse_routes` from an empty collector. */
  function ParseWith(dec: Decoders, ds: seq<Json>, repr: Json -> string): (r: Result<Parsed>)
    ensures r.Ok? ==> Wf(r.value.nodes)
    decreases |ds|
  {
    if ds == [] then Ok(Parsed([], [], []))
    else
      var st :- ParseWith(dec, ds[..|ds| - 1], repr);
      ParseStep(dec, st, ds[|ds| - 1], repr)
  }

  /** `parse_routes` with the BGP-LS decoders. */
  function ParseRoutes(ds: seq<Json>, repr: Json -> string): (r: Result<Parsed>)
    ensures r.Ok? ==> Wf(r.value.nodes)
    ensures r.Ok? ==> r.value.links == Decoded(ds, DecodeLink)
    ensures r.Ok? ==> r.value.prefixes == Decoded(ds, DecodePrefix)
  {
    GobgpExclusive();
    ParseLists(Gobgp(), ds, repr);
    ParseWith(Gobgp(), ds, repr)
  }

  /** With exclusive decoders, the links and prefixes are exactly the destinations each decoder accepts, in order. */
  lemma {:induction false} ParseLists(dec: Decoders, ds: seq<Json>, repr: Json -> string)
    requires Exclusive(dec)
    ensures ParseWith(dec, ds, repr).Ok? ==>
      ParseWith(dec, ds, repr).value.links == Decoded(ds, dec.link) &&
      ParseWith(dec, ds, repr).value.prefixes == Decoded(ds, dec.prefix)
    decreases |ds|
  {
    if ds != [] {
      var d := ds[|ds| - 1];
      ParseLists(dec, ds[..|ds| - 1], repr);
      assert !(dec.node(d).Some? && dec.link(d).Some?) && !(dec.node(d).Some? && dec.prefix(d).Some?) &&
             !(dec.link(d).Some? && dec.prefix(d).Some?);
    }
  }

  /** Parsing fails exactly when some node has an id that is truthy but unhashable. */
  lemma {:induction false} ParseFails(dec: Decoders, ds: seq<Json>, repr: Json -> string)
    ensures ParseWith(dec, ds, repr).Err? <==> exists i | 0 <= i < |ds| :: Unhashable(dec.node(ds[i]), repr)
    decreases |ds|
  {
    if ds != [] {
      var n := |ds| - 1;
      var init := ds[..n];
      ParseFails(dec, init, repr);
      ParseFailsStep(dec, ds, repr);
      PrefixExists(ds, n, x => Unhashable(dec.node(x), repr));
    }
  }

  lemma ParseFailsStep(dec: Decoders, ds: seq<Json>, repr: Json -> string)
    requires ds != []
    ensures ParseWith(dec, ds, repr).Err? <==>
      ParseWith(dec, ds[..|ds| - 1], repr).Err? || Unhashable(dec.node(ds[|ds| - 1]), repr)
  {
  }

  /** Something holds at an index of `ds[..n]` or at `n` exactly when it holds at an index of `ds[..n+1]`. */
  lemma PrefixExists<T>(ds: seq<T>, n: int, p: T -> bool)
    requires 0 <= n < |ds|
    ensures (exists i | 0 <= i < n + 1 :: p(ds[i])) <==> (exists i | 0 <= i < n :: p(ds[..n][i])) || p(ds[n])
  {
    if exists i | 0 <= i < n :: p(ds[..n][i]) {
      var i :| 0 <= i < n && p(ds[..n][i]);
      assert ds[..n][i] == ds[i];
    }
    if exists i | 0 <= i < n + 1 :: p(ds[i]) {
      var i :| 0 <= i < n + 1 && p(ds[i]);
      if i < n { assert ds[..n][i] == ds[i]; }
    }
  }

  /** The node table holds exactly the keys of the nodes with a usable id. */
  lemma {:induction false} ParseKeys(dec: Decoders, ds: seq<Json>, repr: Json -> string, k: Key)
    requires ParseWith(dec, ds, repr).Ok?
    ensures k in Keys(ParseWith(dec, ds, repr).value.nodes) <==>
      exists i | 0 <= i < |ds| :: KeyOf(dec.node(ds[i]), repr) == Some(k)
    decreases |ds|
  {
    if ds != [] {
      var n := |ds| - 1;
      ParseUnfold(dec, ds, repr);
      StepKeys(dec, ParseWith(dec, ds[..n], repr).value, ds[n], repr, k);
      ParseKeys(dec, ds[..n], repr, k);
      PrefixExists(ds, n, x => KeyOf(dec.node(x), repr) == Some(k));
    }
  }

  /** Under each key the table holds the node of the last destination with that key. */
  lemma {:induction false} ParseLastWins(dec: Decoders, ds: seq<Json>, repr: Json -> string, i: int)
    requires ParseWith(dec, ds, repr).Ok?
    requires 0 <= i < |ds| && KeyOf(dec.node(ds[i]), repr).Some?
    requires forall j | i < j < |ds| :: KeyOf(dec.node(ds[j]), repr) != KeyOf(dec.node(ds[i]), repr)
    ensures Get(ParseWith(dec, ds, repr).value.nodes, KeyOf(dec.node(ds[i]), repr).value) == dec.node(ds[i])
    decreases |ds|
  {
    var n := |ds| - 1;
    var init := ds[..n];
    var k := KeyOf(dec.node(ds[i]), repr).value;
    ParseNodeStep(dec, ds, repr, k);
    if i < n {
      assert forall j | i < j < |init| :: init[j] == ds[j];
      assert init[i] == ds[i];
      ParseLastWins(dec, init, repr, i);
    }
  }

  /** The last destination decides a key's node if it has that key, and leaves it alone otherwise. */
  lemma ParseNodeStep(dec: Decoders, ds: seq<Json>, repr: Json -> string, k: Key)
    requires ds != [] && ParseWith(dec, ds, repr).Ok?
    ensures ParseWith(dec, ds[..|ds| - 1], repr).Ok?
    ensures KeyOf(dec.node(ds[|ds| - 1]), repr) == Some(k) ==>
      Get(ParseWith(dec, ds, repr).value.nodes, k) == dec.node(ds[|ds| - 1])
    ensures KeyOf(dec.node(ds[|ds| - 1]), repr) != Some(k) ==>
      Get(ParseWith(dec, ds, repr).value.nodes, k) == Get(ParseWith(dec, ds[..|ds| - 1], repr).value.nodes, k)
  {
    ParseUnfold(dec, ds, repr);
    StepNodes(dec, ParseWith(dec, ds[..|ds| - 1], repr).value, ds[|ds| - 1], repr, k);
  }

  /** A successful fold over a non-empty list is a successful fold over all but the last, then one step. */
  lemma ParseUnfold(dec: Decoders, ds: seq<Json>, repr: Json -> string)
    requires ds != [] && ParseWith(dec, ds, repr).Ok?
    ensures ParseWith(dec, ds[..|ds| - 1], repr).Ok?
    ensures ParseWith(dec, ds, repr) == ParseStep(dec, ParseWith(dec, ds[..|ds| - 1], repr).value, ds[|ds| - 1], repr)
  {
  }

  /** One step stores the destination's node under its key, and leaves every other key alone. */
  lemma StepNodes(dec: Decoders, st: Parsed, d: Json, repr: Json -> string, k: Key)
    requires ParseStep(dec, st, d, repr).Ok?
    ensures KeyOf(dec.node(d), repr) == Some(k) ==> Get(ParseStep(dec, st, d, repr).value.nodes, k) == dec.node(d)
    ensures KeyOf(dec.node(d), repr) != Some(k) ==>
      Get(ParseStep(dec, st, d, repr).value.nodes, k) == Get(st.nodes, k)
  {
    var r := ParseStep(dec, st, d, repr).value;
    match KeyOf(dec.node(d), repr)
    case None =>
      assert r.nodes == st.nodes;
    case Some(k') =>
      assert r.nodes == Put(st.nodes, k', dec.node(d).value);
  }

  lemma StepKeys(dec: Decoders, st: Parsed, d: Json, repr: Json -> string, k: Key)
    requires ParseStep(dec, st, d, repr).Ok?
    ensures k in Keys(ParseStep(dec, st, d, repr).value.nodes) <==> k in Keys(st.nodes) || KeyOf(dec.node(d), repr) == Some(k)
  {
    var r := ParseStep(dec, st, d, repr).value;
    match KeyOf(dec.node(d), repr)
    case None =>
      assert r.nodes == st.nodes;
    case Some(k') =>
      assert r.nodes == Put(st.nodes, k', dec.node(d).value);
  }

  // ===========================================================================
  // generate_output
  // ===========================================================================

  /** The node table's values in insertion order (`list(self.nodes.values())`). */
  function Values(t: Table<Key, Fields>): (r: seq<Json>)
    ensures |r| == |t|
    ensures forall i | 0 <= i < |t| :: r[i] == Obj(t[i].1)
  {
    seq(|t|, i requires 0 <= i < |t| => Obj(t[i].1))
  }

  function Objs(xs: seq<Fields>): (r: seq<Json>)
    ensures |r| == |xs|
    ensures forall i | 0 <= i < |xs| :: r[i] == Obj(xs[i])
  {
    seq(|xs|, i requires 0 <= i < |xs| => Obj(xs[i]))
  }

  /** `generate_output`: the topology lists and their counts. */
  function GenerateOutput(st: Parsed): (r: Json)
    ensures r.Obj?
  {
    Obj([("topology", Obj([("nodes", Arr(Values(st.nodes))), ("links", Arr(Objs(st.links))),
                           ("prefixes", Arr(Objs(st.prefixes)))])),
         ("statistics", Obj([("node_count", Int(|st.nodes|)), ("link_count", Int(|st.links|)),
                             ("prefix_count", Int(|st.prefixes|))]))])
  }

  /** Each count in the statistics is the length of the list it counts. */
  lemma OutputCounts(st: Parsed)
    ensures var out := GenerateOutput(st).fields;
      var topo := GetOr(out, "topology", Null);
      var stats := GetOr(out, "statistics", Null);
      topo.Obj? && stats.Obj? &&
      GetOr(topo.fields, "nodes", Null) == Arr(Values(st.nodes)) &&
      GetOr(topo.fields, "links", Null).Arr? && GetOr(topo.fields, "prefixes", Null).Arr? &&
      GetOr(stats.fields, "node_count", Null) == Int(|GetOr(topo.fields, "nodes", Null).items|) &&
      GetOr(stats.fields, "link_count", Null) == Int(|GetOr(topo.fields, "links", Null).items|) &&
      GetOr(stats.fields, "prefix_count", Null) == Int(|GetOr(topo.fields, "prefixes", Null).items|)
  {
    var out := GenerateOutput(st).fields;
    GetFirst(out, 1);
    var topo := out[0].1.fields;
    var stats := out[1].1.fields;
    GetFirst(topo, 1);
    GetFirst(topo, 2);
    GetFirst(stats, 1);
    GetFirst(stats, 2);
  }

  // ===========================================================================
  // reorganize_by_igp_router_id
  // ===========================================================================

  /** One router of the regrouped output: its node dict, its outgoing links and its prefixes. */
  datatype Router = Router(info: Json, links: seq<Json>, prefixes: seq<Json>)

  datatype Reorganized = Reorganized(routers: Table<Key, Router>, routerCount: int, totalLinks: Json, totalPrefixes: Json)

  /** `node["igp_router_id"]` as a dict key. */
  function RouterKey(node: Json): (r: Result<Key>)
    ensures r.Ok? ==> node.Obj? && "igp_router_id" in Keys(node.fields)
  {
    var id :- Index(node, "igp_router_id");
    HashKey(id)
  }

  /** The router entries, one per node id, each with empty link and prefix lists; a repeated id starts over. */
  function Routers(nodes: seq<Json>): (r: Result<Table<Key, Router>>)
    ensures r.Ok? ==> Wf(r.value)
    decreases |nodes|
  {
    if nodes == [] then Ok([])
    else
      var n := |nodes| - 1;
      var t :- Routers(nodes[..n]);
      var k :- RouterKey(nodes[n]);
      Ok(Put(t, k, Router(nodes[n], [], [])))
  }

  /** The regrouped form of one link: where it goes, and its addresses, metric and adjacency SID. */
  function LinkSummary(link: Json): (r: Result<(Json, Json)>)
    ensures r.Ok? ==> link.Obj?
  {
    var localNode :- Index(link, "local_node");
    var local :- Index(localNode, "igp_router_id");
    var remoteNode :- Index(link, "remote_node");
    var remote :- Index(remoteNode, "igp_router_id");
    var localIp :- Index(link, "local_ip");
    var remoteIp :- Index(link, "remote_ip");
    var metric :- Index(link, "igp_metric");
    var sid :- Index(link, "sr_adjacency_sid");
    Ok((local, Obj([("remote_node_igp_router_id", remote), ("local_ip", localIp), ("remote_ip", remoteIp),
                    ("igp_metric", metric), ("sr_adjacency_sid", sid)])))
  }

  /** The regrouped form of one prefix: the prefix, and its SID list or None when that is empty. */
  function PrefixSummary(prefix: Json): (r: Result<(Json, Json)>)
    ensures r.Ok? ==> prefix.Obj?
  {
    var localNode :- Index(prefix, "local_node");
    var local :- Index(localNode, "igp_router_id");
    var p :- Index(prefix, "prefix");
    var sid := GetOr(prefix.fields, "sr_prefix_sid", Null);
    Ok((local, Obj([("prefix", p), ("sr_prefix_sid", if Truthy(sid) then sid else Null)])))
  }

  /** Appends a summary to the router it starts from; a summary for an unknown router is dropped. */
  function Attach(t: Table<Key, Router>, local: Json, obj: Json, isLink: bool): (r: Result<Table<Key, Router>>)
    ensures r.Ok? <==> HashKey(local).Ok?
    ensures r.Ok? ==> Keys(r.value) == Keys(t) && (Wf(t) ==> Wf(r.value))
    ensures r.Ok? ==> forall k :: k != HashKey(local).value ==> Get(r.value, k) == Get(t, k)
    ensures r.Ok? ==> match Get(t, HashKey(local).value)
      case None => r.value == t
      case Some(rt) => (Get(r.value, HashKey(local).value) ==
        Some(if isLink then rt.(links := rt.links + [obj]) else rt.(prefixes := rt.prefixes + [obj])))
  {
    var k :- HashKey(local);
    match Get(t, k)
    case None => Ok(t)
    case Some(rt) =>
      Ok(Put(t, k, if isLink then rt.(links := rt.links + [obj]) else rt.(prefixes := rt.prefixes + [obj])))
  }

  /** The loop over links or over prefixes: each item is summarised, then attached to its router. */
  function AttachAll(t: Table<Key, Router>, items: seq<Json>, summarize: Json -> Result<(Json, Json)>, isLink: bool)
    : (r: Result<Table<Key, Router>>)
    ensures r.Ok? ==> Keys(r.value) == Keys(t) && (Wf(t) ==> Wf(r.value))
    decreases |items|
  {
    if items == [] then Ok(t)
    else
      var n := |items| - 1;
      var t' :- AttachAll(t, items[..n], summarize, isLink);
      var s :- summarize(items[n]);
      Attach(t', s.0, s.1, isLink)
  }

  /** `input_data["topology"][key]`, iterated. */
  function TopoItems(input: Json, key: string): (r: Result<seq<Json>>)
  {
    var topo :- Index(input, "topology");
    var j :- Index(topo, key);
    Iter(j)
  }

  /** The routers once nodes, links and prefixes have gone in, in the order the three loops run. */
  function Regroup(nodes: seq<Json>, links: seq<Json>, prefixes: seq<Json>): (r: Result<Table<Key, Router>>)
    ensures r.Ok? ==> Wf(r.value)
  {
    var t0 :- Routers(nodes);
    var t1 :- AttachAll(t0, links, LinkSummary, true);
    AttachAll(t1, prefixes, PrefixSummary, false)
  }

  /** `reorganize_by_igp_router_id` on the loaded output file. */
  function Reorganize(input: Json): (r: Result<Reorganized>)
    ensures r.Ok? ==> r.value.routerCount == |r.value.routers|
    ensures r.Ok? ==> (TopoItems(input, "nodes").Ok? && TopoItems(input, "links").Ok? && TopoItems(input, "prefixes").Ok? &&
      Regroup(TopoItems(input, "nodes").value, TopoItems(input, "links").value, TopoItems(input, "prefixes").value)
        == Ok(r.value.routers))
    ensures r.Ok? ==> Totals(input) == Ok((r.value.totalLinks, r.value.totalPrefixes))
  {
    var nodes :- TopoItems(input, "nodes");
    var t0 :- Routers(nodes);
    var links :- TopoItems(input, "links");
    var t1 :- AttachAll(t0, links, LinkSummary, true);
    var prefixes :- TopoItems(input, "prefixes");
    var t2 :- AttachAll(t1, prefixes, PrefixSummary, false);
    var totals :- Totals(input);
    Ok(Reorganized(t2, |t2|, totals.0, totals.1))
  }

  /** `input['statistics']['link_count']` and `['prefix_count']`. */
  function Totals(input: Json): (r: Result<(Json, Json)>)
    ensures r.Ok? ==> input.Obj? && "statistics" in Keys(input.fields)
  {
    var stats :- Index(input, "statistics");
    var linkCount :- Index(stats, "link_count");
    var prefixCount :- Index(stats, "prefix_count");
    Ok((linkCount, prefixCount))
  }

  // ---------------------------------------------------------------------------
  // What the regrouping promises
  // ---------------------------------------------------------------------------

  /** The summaries of the items that start at router `k`, in order. */
  function At(items: seq<Json>, summarize: Json -> Result<(Json, Json)>, k: Key): (r: seq<Json>)
    ensures |r| <= |items|
    decreases |items|
  {
    if items == [] then []
    else
      var n := |items| - 1;
      var s := summarize(items[n]);
      At(items[..n], summarize, k) + if s.Ok? && HashKey(s.value.0) == Ok(k) then [s.value.1] else []
  }

  function Append(rt: Router, xs: seq<Json>, isLink: bool): Router {
    if isLink then rt.(links := rt.links + xs) else rt.(prefixes := rt.prefixes + xs)
  }

  /** Each router existing beforehand receives exactly the summaries of the items that start at it, in order. */
  lemma {:induction false} AttachAllAt(t: Table<Key, Router>, items: seq<Json>, summarize: Json -> Result<(Json, Json)>,
                                       isLink: bool, k: Key)
    requires AttachAll(t, items, summarize, isLink).Ok? && Get(t, k).Some?
    ensures Get(AttachAll(t, items, summarize, isLink).value, k) == Some(Append(Get(t, k).value, At(items, summarize, k), isLink))
    decreases |items|
  {
    if items == [] {
      AppendNothing(Get(t, k).value, isLink);
    } else {
      var n := |items| - 1;
      AttachAllAt(t, items[..n], summarize, isLink, k);
      var t' := AttachAll(t, items[..n], summarize, isLink).value;
      var s := summarize(items[n]).value;
      var rt := Get(t, k).value;
      AttachOne(t', s.0, s.1, isLink, k, Append(rt, At(items[..n], summarize, k), isLink));
      AppendTwice(rt, At(items[..n], summarize, k), if HashKey(s.0) == Ok(k) then [s.1] else [], isLink);
    }
  }

  lemma AttachOne(t: Table<Key, Router>, local: Json, obj: Json, isLink: bool, k: Key, rt: Router)
    requires Attach(t, local, obj, isLink).Ok? && Get(t, k) == Some(rt)
    ensures Get(Attach(t, local, obj, isLink).value, k) ==
      Some(Append(rt, if HashKey(local) == Ok(k) then [obj] else [], isLink))
  {
    if HashKey(local) != Ok(k) {
      AppendNothing(rt, isLink);
    }
  }

  lemma AppendNothing(rt: Router, isLink: bool)
    ensures Append(rt, [], isLink) == rt
  {
    assert rt.links + [] == rt.links;
    assert rt.prefixes + [] == rt.prefixes;
  }

  lemma AppendTwice(rt: Router, xs: seq<Json>, ys: seq<Json>, isLink: bool)
    ensures Append(Append(rt, xs, isLink), ys, isLink) == Append(rt, xs + ys, isLink)
  {
  }

  /** Attaching fails exactly when some item cannot be summarised or starts at an unhashable router id. */
  lemma {:induction false} AttachAllFails(t: Table<Key, Router>, items: seq<Json>, summarize: Json -> Result<(Json, Json)>,
                                          isLink: bool)
    ensures AttachAll(t, items, summarize, isLink).Err? <==>
      exists i | 0 <= i < |items| :: Unattachable(summarize(items[i]))
    decreases |items|
  {
    if items != [] {
      var n := |items| - 1;
      AttachAllFails(t, items[..n], summarize, isLink);
      PrefixExists(items, n, x => Unattachable(summarize(x)));
    }
  }

  predicate Unattachable(s: Result<(Json, Json)>) {
    s.Err? || HashKey(s.value.0).Err?
  }

  /** Building the router entries fails exactly when some node has no hashable `igp_router_id`. */
  lemma {:induction false} RoutersFail(nodes: seq<Json>)
    ensures Routers(nodes).Err? <==> exists i | 0 <= i < |nodes| :: RouterKey(nodes[i]).Err?
    decreases |nodes|
  {
    if nodes != [] {
      var n := |nodes| - 1;
      RoutersFail(nodes[..n]);
      PrefixExists(nodes, n, x => RouterKey(x).Err?);
    }
  }

  /** There is one router per distinct node id. */
  lemma {:induction false} RoutersKeys(nodes: seq<Json>, k: Key)
    requires Routers(nodes).Ok?
    ensures k in Keys(Routers(nodes).value) <==> exists i | 0 <= i < |nodes| :: RouterKey(nodes[i]) == Ok(k)
    decreases |nodes|
  {
    if nodes != [] {
      var n := |nodes| - 1;
      var init := nodes[..n];
      RoutersKeys(init, k);
      var key := RouterKey(nodes[n]).value;
      assert Keys(Routers(nodes).value) == Keys(Routers(init).value) + {key};
      PrefixExists(nodes, n, x => RouterKey(x) == Ok(k));
    }
  }

  /** A router's entry is built from the last node with its id, with no links or prefixes yet. */
  lemma {:induction false} RoutersLastWins(nodes: seq<Json>, i: int)
    requires Routers(nodes).Ok? && 0 <= i < |nodes| && RouterKey(nodes[i]).Ok?
    requires forall j | i < j < |nodes| :: RouterKey(nodes[j]) != RouterKey(nodes[i])
    ensures Get(Routers(nodes).value, RouterKey(nodes[i]).value) == Some(Router(nodes[i], [], []))
    decreases |nodes|
  {
    var n := |nodes| - 1;
    var init := nodes[..n];
    if i < n {
      assert forall j | i < j < |init| :: init[j] == nodes[j];
      assert init[i] == nodes[i];
      RoutersLastWins(init, i);
    }
  }

  /** The regrouped routers are exactly the node ids. */
  lemma RegroupKeys(nodes: seq<Json>, links: seq<Json>, prefixes: seq<Json>, k: Key)
    requires Regroup(nodes, links, prefixes).Ok?
    ensures k in Keys(Regroup(nodes, links, prefixes).value) <==> exists i | 0 <= i < |nodes| :: RouterKey(nodes[i]) == Ok(k)
  {
    RoutersKeys(nodes, k);
  }

  /**
   A regrouped router holds the last node with its id, the summaries of the
   links that start at it and the summaries of its prefixes, each in input order.
   */
  lemma RegroupEntry(nodes: seq<Json>, links: seq<Json>, prefixes: seq<Json>, i: int)
    requires Regroup(nodes, links, prefixes).Ok? && 0 <= i < |nodes| && RouterKey(nodes[i]).Ok?
    requires forall j | i < j < |nodes| :: RouterKey(nodes[j]) != RouterKey(nodes[i])
    ensures var k := RouterKey(nodes[i]).value;
      Get(Regroup(nodes, links, prefixes).value, k) ==
        Some(Router(nodes[i], At(links, LinkSummary, k), At(prefixes, PrefixSummary, k)))
  {
    var k := RouterKey(nodes[i]).value;
    RegroupSteps(nodes, links, prefixes);
    RoutersLastWins(nodes, i);
    AttachBoth(Routers(nodes).value, links, LinkSummary, prefixes, PrefixSummary, k, nodes[i]);
  }

  /** A fresh router entry after the link loop and the prefix loop. */
  lemma AttachBoth(t0: Table<Key, Router>, links: seq<Json>, linkSummary: Json -> Result<(Json, Json)>,
                   prefixes: seq<Json>, prefixSummary: Json -> Result<(Json, Json)>, k: Key, node: Json)
    requires Get(t0, k) == Some(Router(node, [], []))
    requires AttachAll(t0, links, linkSummary, true).Ok?
    requires AttachAll(AttachAll(t0, links, linkSummary, true).value, prefixes, prefixSummary, false).Ok?
    ensures Get(AttachAll(AttachAll(t0, links, linkSummary, true).value, prefixes, prefixSummary, false).value, k) ==
      Some(Router(node, At(links, linkSummary, k), At(prefixes, prefixSummary, k)))
  {
    var t1 := AttachAll(t0, links, linkSummary, true).value;
    var ls := At(links, linkSummary, k);
    var ps := At(prefixes, prefixSummary, k);
    AttachAllAt(t0, links, linkSummary, true, k);
    assert [] + ls == ls;
    assert Get(t1, k) == Some(Router(node, ls, []));
    AttachAllAt(t1, prefixes, prefixSummary, false, k);
    assert [] + ps == ps;
  }

  lemma RegroupSteps(nodes: seq<Json>, links: seq<Json>, prefixes: seq<Json>)
    requires Regroup(nodes, links, prefixes).Ok?
    ensures Routers(nodes).Ok? && AttachAll(Routers(nodes).value, links, LinkSummary, true).Ok?
    ensures Regroup(nodes, links, prefixes) ==
      AttachAll(AttachAll(Routers(nodes).value, links, LinkSummary, true).value, prefixes, PrefixSummary, false)
  {
  }
  // ---------------------------------------------------------------------------
  // From the collector to the regrouped output
  // ---------------------------------------------------------------------------

  /** The regrouped totals are the collector's link and prefix counts. */
  lemma ReorganizeTotals(st: Parsed)
    requires Reorganize(GenerateOutput(st)).Ok?
    ensures Reorganize(GenerateOutput(st)).value.totalLinks == Int(|st.links|)
    ensures Reorganize(GenerateOutput(st)).value.totalPrefixes == Int(|st.prefixes|)
  {
    OutputTotals(st);
  }

  lemma OutputTotals(st: Parsed)
    ensures Totals(GenerateOutput(st)) == Ok((Int(|st.links|), Int(|st.prefixes|)))
  {
    var out := GenerateOutput(st).fields;
    GetFirst(out, 1);
    GetFirst(out[1].1.fields, 1);
    GetFirst(out[1].1.fields, 2);
  }

  /**
   Nodes without an IGP router id are kept apart by the collector, under the
   string form of their AS number, but all land on the one router `None` when
   regrouped.
   */
  lemma UnnamedNodesMerge(repr: Json -> string)
    ensures var n1 := [("igp_router_id", Null), ("asn", Int(1))];
      var n2 := [("igp_router_id", Null), ("asn", Int(2))];
      NodeId(n1, repr) == Str("1") && NodeId(n2, repr) == Str("2") &&
      Routers([Obj(n1), Obj(n2)]) == Ok([(NoneKey, Router(Obj(n2), [], []))])
  {
    UnnamedId(1, repr);
    UnnamedId(2, repr);
    UnnamedRouters(Obj([("igp_router_id", Null), ("asn", Int(1))]), Obj([("igp_router_id", Null), ("asn", Int(2))]));
  }

  lemma UnnamedId(d: int, repr: Json -> string)
    requires 0 <= d < 10
    ensures NodeId([("igp_router_id", Null), ("asn", Int(d))], repr) == Str([DigitChar(d)])
  {
    var n := [("igp_router_id", Null), ("asn", Int(d))];
    GetFirst(n, 1);
  }

  lemma UnnamedRouters(n1: Json, n2: Json)
    requires RouterKey(n1) == Ok(NoneKey) && RouterKey(n2) == Ok(NoneKey)
    ensures Routers([n1, n2]) == Ok([(NoneKey, Router(n2, [], []))])
  {
    assert [n1, n2][..1] == [n1];
    assert [n1][..0] == [];
    var t1 := [(NoneKey, Router(n1, [], []))];
    assert Routers([n1]) == Ok(t1);
    assert t1[1..] == [];
    assert Put(t1, NoneKey, Router(n2, [], [])) == [(NoneKey, Router(n2, [], []))];
  }

  /** A link decoded without a local node descriptor (`{}`) stops the regrouping with KeyError. */
  lemma BareLinkFails(l: LinkRec)
    requires l.local == Obj([])
    ensures LinkSummary(Obj(LinkFields(l))) == Err("KeyError")
  {
    GetFirst(LinkFields(l), 2);
  }
}
