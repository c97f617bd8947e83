/**
 The UNWIND batches the push scripts build from their three input files
 before writing them: the IS-IS topology from the regrouped BGP-LS output
 (`create_isis_topology_from_gobgp`), ports, LAGs and logical interfaces
 from the NSO device analysis (`create_port_attach_logical_relationships`),
 and LLDP links from the LLDP topology (`create_lldp_link`).

 Every row carries `update_time` (the run's date) and `delete = false`.
 Values formatted into keys go through Python's `str`, whose `repr` part
 (floats, lists, dicts) is a parameter.
 */
module Batches {
  import opened Json
  import opened Text
  import opened Graph
  import B = BgplsOutput
  import L = Lldp

  const ProdPort := "PROD_PORT"
  const ProdLag := "PROD_LAG"
  const InLag := "PROD_IN_LAG"
  const LogicalOfLag := "PROD_LOGICAL_OF_LAG"
  const LldpLink := "PROD_LLDP_LINK"

  /** `x.items()`: only a dict has it. */
  function Items(x: Json): (r: Result<Fields>)
    ensures r.Ok? <==> x.Obj?
    ensures x.Obj? ==> r == Ok(x.fields)
  {
    if x.Obj? then Ok(x.fields) else Err("AttributeError")
  }

  /** `x[0]`: a list's or string's first element; a dict has no key 0 (JSON keys are strings). */
  function First(x: Json): (r: Result<Json>)
    ensures x.Arr? && x.items != [] ==> r == Ok(x.items[0])
    ensures r.Ok? ==> (x.Arr? || x.Str?)
  {
    match x
    case Arr(items) => if items == [] then Err("IndexError") else Ok(items[0])
    case Str(t) => if t == [] then Err("IndexError") else Ok(Str([t[0]]))
    case Obj(_) => Err("KeyError")
    case _ => Err("TypeError")
  }

  /** Python `a + b`: numbers add (booleans count as 0/1), strings and lists concatenate, anything else raises. */
  function PyAdd(a: Json, b: Json): (r: Result<Json>)
    ensures a.Int? && b.Int? ==> r == Ok(Int(a.i + b.i))
    ensures a.Null? || b.Null? || a.Obj? || b.Obj? ==> r.Err?
  {
    if a.Str? && b.Str? then Ok(Str(a.s + b.s))
    else if a.Arr? && b.Arr? then Ok(Arr(a.items + b.items))
    else if (a.Int? || a.Bool?) && (b.Int? || b.Bool?) then Ok(Int(NumValue(a).Floor + NumValue(b).Floor))
    else if Numeric(a) && Numeric(b) then Ok(Float(NumValue(a) + NumValue(b)))
    else Err("TypeError")
  }

  /** The two properties every row starts with. */
  function Stamp(date: string): (r: Props)
    ensures Fresh(r)
  {
    map["update_time" := Str(date), "delete" := Bool(false)]
  }

  predicate FreshRows(rows: seq<NodeRow>) {
    forall i | 0 <= i < |rows| :: Fresh(rows[i].props)
  }

  /** No row overwrites the property the statement merges on. */
  predicate KeyFree(rows: seq<NodeRow>, key: string) {
    forall i | 0 <= i < |rows| :: key !in rows[i].props
  }

  lemma RowsAppend(a: seq<NodeRow>, b: seq<NodeRow>, key: string)
    requires FreshRows(a) && FreshRows(b) && KeyFree(a, key) && KeyFree(b, key)
    ensures FreshRows(a + b) && KeyFree(a + b, key)
  {
    forall i | 0 <= i < |a + b|
      ensures Fresh((a + b)[i].props) && key !in (a + b)[i].props
    {
      if i >= |a| { assert (a + b)[i] == b[i - |a|]; }
    }
  }

  // ===========================================================================
  // create_isis_topology_from_gobgp
  // ===========================================================================

  /** The four batches: routers, IP addresses, IP-to-router and IP-to-IP (IS-IS adjacency) relationships. */
  datatype IsisBatch = IsisBatch(routers: seq<NodeRow>, ips: seq<NodeRow>, belongs: seq<EdgeRow>, isis: seq<EdgeRow>)

  function Join(a: IsisBatch, b: IsisBatch): IsisBatch {
    IsisBatch(a.routers + b.routers, a.ips + b.ips, a.belongs + b.belongs, a.isis + b.isis)
  }

  const NoIsis := IsisBatch([], [], [], [])

  const IpKey := "uid_isis_igp_router_id"
  const IpName := "uid_isis_router_name"

  const BelongsSpec := EdgeSpec(ProdIp, IpName, BelongsTo, ProdRouter, "name")
  const IsisSpec := EdgeSpec(ProdIp, IpKey, IsisLink, ProdIp, IpKey)

  /** The four statements, in the order the script runs them. */
  function IsisStmts(b: IsisBatch): seq<Stmt> {
    [NodeStmt(ProdRouter, "name", b.routers), NodeStmt(ProdIp, IpKey, b.ips),
     EdgeStmt(BelongsSpec, b.belongs), EdgeStmt(IsisSpec, b.isis)]
  }

  /**
   The IP rows come in pairs, local then remote: the i-th IP-to-router row
   starts at the i-th local address (by its `uid_isis_router_name`, which
   remote rows do not have), and the i-th adjacency runs from the i-th
   local address to the i-th remote one.
   */
  predicate Paired(b: IsisBatch) {
    && |b.ips| == 2 * |b.belongs| && |b.isis| == |b.belongs|
    && forall i | 0 <= i < |b.belongs| :: Pair(b.ips[2 * i], b.ips[2 * i + 1], b.belongs[i], b.isis[i])
  }

  /** The four rows of one adjacency agree with each other. */
  predicate Pair(local: NodeRow, remote: NodeRow, belongs: EdgeRow, adjacency: EdgeRow) {
    && IpName in local.props && belongs.src == local.props[IpName]
    && IpName !in remote.props
    && adjacency.src == local.key && adjacency.dst == remote.key
  }

  /**
   IP rows are fresh, and carry neither their merge key nor
   `uid_isis_igp_router_name` (the second property the uniqueness
   constraints name for PROD_IP: no row ever sets it).
   */
  predicate IpsClean(ips: seq<NodeRow>) {
    FreshRows(ips) && KeyFree(ips, IpKey) && KeyFree(ips, "uid_isis_igp_router_name")
  }

  /** Every IP-to-router row points at a router the batch merges. */
  predicate Anchored(b: IsisBatch) {
    forall i | 0 <= i < |b.belongs| :: b.belongs[i].dst in RowKeys(b.routers)
  }

  /** The merge-key values of a node batch. */
  function RowKeys(rows: seq<NodeRow>): set<Json> {
    set r | r in rows :: r.key
  }

  /** What every IS-IS batch the script builds satisfies. */
  predicate GoodIsis(b: IsisBatch) {
    Paired(b) && IpsClean(b.ips) && FreshRows(b.routers) && KeyFree(b.routers, "name") && Anchored(b)
  }

  lemma JoinPaired(a: IsisBatch, b: IsisBatch)
    requires Paired(a) && Paired(b) && IpsClean(a.ips) && IpsClean(b.ips)
    ensures Paired(Join(a, b)) && IpsClean(Join(a, b).ips)
  {
    JoinPairs(a, b);
    RowsAppend(a.ips, b.ips, IpKey);
    RowsAppend(a.ips, b.ips, "uid_isis_igp_router_name");
  }

  lemma JoinPairs(a: IsisBatch, b: IsisBatch)
    requires Paired(a) && Paired(b)
    ensures Paired(Join(a, b))
  {
    var j := Join(a, b);
    forall i | 0 <= i < |j.belongs|
      ensures Pair(j.ips[2 * i], j.ips[2 * i + 1], j.belongs[i], j.isis[i])
    {
      if i < |a.belongs| {
        assert j.belongs[i] == a.belongs[i] && j.isis[i] == a.isis[i];
        assert j.ips[2 * i] == a.ips[2 * i] && j.ips[2 * i + 1] == a.ips[2 * i + 1];
      } else {
        var k := i - |a.belongs|;
        assert j.belongs[i] == b.belongs[k] && j.isis[i] == b.isis[k];
        assert j.ips[2 * i] == b.ips[2 * k] && j.ips[2 * i + 1] == b.ips[2 * k + 1];
      }
    }
  }

  lemma JoinAnchored(a: IsisBatch, b: IsisBatch)
    requires Anchored(a) && Anchored(b)
    ensures Anchored(Join(a, b))
  {
    var j := Join(a, b);
    assert RowKeys(j.routers) == RowKeys(a.routers) + RowKeys(b.routers);
    forall i | 0 <= i < |j.belongs| ensures j.belongs[i].dst in RowKeys(j.routers) {
      if i >= |a.belongs| {
        assert j.belongs[i] == b.belongs[i - |a.belongs|];
      }
    }
  }

  lemma JoinGood(a: IsisBatch, b: IsisBatch)
    requires GoodIsis(a) && GoodIsis(b)
    ensures GoodIsis(Join(a, b))
  {
    JoinPaired(a, b);
    JoinAnchored(a, b);
    RowsAppend(a.routers, b.routers, "name");
  }

  /** `x[k]` as the script reads it: the stored value, or null where indexing would raise. */
  function Field(x: Json, k: string): (r: Json)
    ensures Index(x, k).Ok? ==> r == Index(x, k).value
  {
    if x.Obj? then GetOr(x.fields, k, Null) else Null
  }

  /** The property `k` is set, to `v`. */
  predicate Holds(p: Props, k: string, v: Json) {
    k in p && p[k] == v
  }

  /** The local address of an adjacency: the only IP row that names its router. */
  function LocalIpRow(uid: string, uidName: string, name: Json, ip: Json, date: string): (r: NodeRow)
    ensures r.key == Str(uid) && Fresh(r.props)
    ensures IpName in r.props && r.props[IpName] == Str(uidName)
    ensures Holds(r.props, "ip", ip) && Holds(r.props, "node_name", name)
    ensures IpKey !in r.props && "uid_isis_igp_router_name" !in r.props
  {
    NodeRow(Str(uid), Stamp(date)["node_name" := name][IpName := Str(uidName)]["ip" := ip])
  }

  /** The remote address of an adjacency. */
  function RemoteIpRow(uid: string, ip: Json, date: string): (r: NodeRow)
    ensures r.key == Str(uid) && Fresh(r.props) && Holds(r.props, "ip", ip)
    ensures IpName !in r.props && IpKey !in r.props && "uid_isis_igp_router_name" !in r.props
  {
    NodeRow(Str(uid), Stamp(date)["ip" := ip])
  }

  /** Links whose IP-to-router rows all point at one router. */
  predicate LinksOf(b: IsisBatch, name: Json) {
    && b.routers == [] && Paired(b) && IpsClean(b.ips)
    && forall i | 0 <= i < |b.belongs| :: b.belongs[i].dst == name
  }

  /** The batch of one adjacency, from its four rows. */
  function LinkBatch(local: NodeRow, remote: NodeRow, belongs: EdgeRow, adjacency: EdgeRow): (r: IsisBatch)
    requires IpName in local.props && belongs.src == local.props[IpName] && IpName !in remote.props
    requires IpsClean([local]) && IpsClean([remote])
    requires adjacency.src == local.key && adjacency.dst == remote.key
    ensures LinksOf(r, belongs.dst) && r.ips == [local, remote] && r.belongs == [belongs] && r.isis == [adjacency]
  {
    var r := IsisBatch([], [local, remote], [belongs], [adjacency]);
    assert r.ips[2 * 0] == local && r.ips[2 * 0 + 1] == remote;
    RowsAppend([local], [remote], IpKey);
    RowsAppend([local], [remote], "uid_isis_igp_router_name");
    assert [local] + [remote] == r.ips;
    r
  }

  /** The five fields of a link the script reads. */
  const LinkFields := {"local_ip", "remote_ip", "remote_node_igp_router_id", "igp_metric", "sr_adjacency_sid"}

  /**
   The local address of `link` on router `igpId` (named `name`): keyed
   `<igp id>_<local_ip>`, named `<router>_<local_ip>`, with the address and
   the router's name.
   */
  predicate LocalIpFor(n: NodeRow, igpId: string, name: Json, link: Json, repr: Json -> string) {
    var ip := Field(link, "local_ip");
    && n.key == Str(igpId + "_" + PyStr(ip, repr))
    && Holds(n.props, IpName, Str(PyStr(name, repr) + "_" + PyStr(ip, repr)))
    && Holds(n.props, "ip", ip) && Holds(n.props, "node_name", name)
  }

  /** The remote address of `link`: keyed `<remote igp id>_<remote_ip>`, with the address. */
  predicate RemoteIpFor(n: NodeRow, link: Json, repr: Json -> string) {
    var ip := Field(link, "remote_ip");
    && n.key == Str(PyStr(Field(link, "remote_node_igp_router_id"), repr) + "_" + PyStr(ip, repr))
    && Holds(n.props, "ip", ip)
  }

  /** The adjacency of `link`: between the two address keys, carrying the link's metric and adjacency SID. */
  predicate AdjacencyFor(e: EdgeRow, igpId: string, link: Json, repr: Json -> string) {
    && e.src == Str(igpId + "_" + PyStr(Field(link, "local_ip"), repr))
    && e.dst == Str(PyStr(Field(link, "remote_node_igp_router_id"), repr) + "_" + PyStr(Field(link, "remote_ip"), repr))
    && Holds(e.props, "igp_metric", Field(link, "igp_metric"))
    && Holds(e.props, "sr_adjacency_sid", Field(link, "sr_adjacency_sid"))
  }

  /** The four rows are the ones the script writes for `link`. */
  predicate LinkRowsFor(local: NodeRow, remote: NodeRow, belongs: EdgeRow, adjacency: EdgeRow,
                        igpId: string, name: Json, link: Json, repr: Json -> string) {
    && LocalIpFor(local, igpId, name, link, repr)
    && RemoteIpFor(remote, link, repr)
    && belongs.src == Str(PyStr(name, repr) + "_" + PyStr(Field(link, "local_ip"), repr))
    && belongs.dst == name
    && AdjacencyFor(adjacency, igpId, link, repr)
  }

  /** Adjacency `i` of the batch holds the rows the script writes for `link`. */
  predicate LinkAt(b: IsisBatch, i: int, igpId: string, name: Json, link: Json, repr: Json -> string) {
    && 0 <= i < |b.belongs| && 2 * i + 1 < |b.ips| && i < |b.isis|
    && LinkRowsFor(b.ips[2 * i], b.ips[2 * i + 1], b.belongs[i], b.isis[i], igpId, name, link, repr)
  }

  /**
   The rows of one IS-IS adjacency: the local address (the only IP row that
   gets `uid_isis_router_name`), the remote address, the local address's
   link to its router, and the adjacency itself.
   */
  function LinkRows(igpId: string, name: Json, link: Json, date: string, repr: Json -> string): (r: Result<IsisBatch>)
    ensures r.Ok? <==> link.Obj? && LinkFields <= Keys(link.fields)
    ensures r.Ok? ==> LinksOf(r.value, name) && |r.value.belongs| == 1
    ensures r.Ok? ==> LinkAt(r.value, 0, igpId, name, link, repr)
  {
    var localIp :- Index(link, "local_ip");
    var uidLocal := igpId + "_" + PyStr(localIp, repr);
    var uidName := PyStr(name, repr) + "_" + PyStr(localIp, repr);
    var local := LocalIpRow(uidLocal, uidName, name, localIp, date);
    var remoteIp :- Index(link, "remote_ip");
    var remoteId :- Index(link, "remote_node_igp_router_id");
    var uidRemote := PyStr(remoteId, repr) + "_" + PyStr(remoteIp, repr);
    var remote := RemoteIpRow(uidRemote, remoteIp, date);
    var metric :- Index(link, "igp_metric");
    var adjSid :- Index(link, "sr_adjacency_sid");
    var b := LinkBatch(local, remote, EdgeRow(Str(uidName), name, Stamp(date)),
      EdgeRow(Str(uidLocal), Str(uidRemote), Stamp(date)["igp_metric" := metric]["sr_adjacency_sid" := adjSid]));
    Ok(b)
  }

  lemma JoinLinks(a: IsisBatch, b: IsisBatch, name: Json)
    requires LinksOf(a, name) && LinksOf(b, name)
    ensures LinksOf(Join(a, b), name)
  {
    JoinPaired(a, b);
    var j := Join(a, b);
    forall i | |a.belongs| <= i < |j.belongs| ensures j.belongs[i].dst == name {
      assert j.belongs[i] == b.belongs[i - |a.belongs|];
    }
  }

  /** An adjacency of the first batch keeps its index in a join. */
  lemma LinkAtLeft(a: IsisBatch, b: IsisBatch, i: int, igpId: string, name: Json, link: Json, repr: Json -> string)
    requires LinkAt(a, i, igpId, name, link, repr)
    ensures LinkAt(Join(a, b), i, igpId, name, link, repr)
  {
    var j := Join(a, b);
    assert j.ips[2 * i] == a.ips[2 * i] && j.ips[2 * i + 1] == a.ips[2 * i + 1];
    assert j.belongs[i] == a.belongs[i] && j.isis[i] == a.isis[i];
  }

  /** An adjacency of the second batch moves up by the first batch's adjacencies. */
  lemma LinkAtRight(a: IsisBatch, b: IsisBatch, i: int, igpId: string, name: Json, link: Json, repr: Json -> string)
    requires Paired(a) && LinkAt(b, i, igpId, name, link, repr)
    ensures LinkAt(Join(a, b), |a.belongs| + i, igpId, name, link, repr)
  {
    JoinShift(a, b, i);
  }

  /** Row `i` of the second batch's adjacencies is row `|a.belongs| + i` of the join. */
  lemma JoinShift(a: IsisBatch, b: IsisBatch, i: int)
    requires |a.ips| == 2 * |a.belongs| && |a.isis| == |a.belongs|
    requires 0 <= i < |b.belongs| && 2 * i + 1 < |b.ips| && i < |b.isis|
    ensures var j, k := Join(a, b), |a.belongs| + i;
      && k < |j.belongs| && 2 * k + 1 < |j.ips| && k < |j.isis|
      && j.ips[2 * k] == b.ips[2 * i] && j.ips[2 * k + 1] == b.ips[2 * i + 1]
      && j.belongs[k] == b.belongs[i] && j.isis[k] == b.isis[i]
  {
  }

  /** The adjacencies of a router's first link, then of its other links. */
  lemma LinksAtCons(a: IsisBatch, b: IsisBatch, igpId: string, name: Json, links: seq<Json>, repr: Json -> string)
    requires links != [] && Paired(a) && |a.belongs| == 1 && LinkAt(a, 0, igpId, name, links[0], repr)
    requires forall i | 0 <= i < |links| - 1 :: LinkAt(b, i, igpId, name, links[1..][i], repr)
    ensures forall i | 0 <= i < |links| :: LinkAt(Join(a, b), i, igpId, name, links[i], repr)
  {
    LinkAtLeft(a, b, 0, igpId, name, links[0], repr);
    forall i | 1 <= i < |links| ensures LinkAt(Join(a, b), i, igpId, name, links[i], repr) {
      assert links[1..][i - 1] == links[i];
      LinkAtRight(a, b, i - 1, igpId, name, links[i], repr);
    }
  }

  /** The links of one router, in order: adjacency `i` holds the rows of link `i`. */
  function LinksRows(igpId: string, name: Json, links: seq<Json>, date: string, repr: Json -> string): (r: Result<IsisBatch>)
    ensures r.Ok? ==> LinksOf(r.value, name) && |r.value.belongs| == |links|
    ensures r.Ok? ==> forall i | 0 <= i < |links| :: LinkAt(r.value, i, igpId, name, links[i], repr)
    decreases |links|
  {
    if links == [] then Ok(NoIsis)
    else
      var a :- LinkRows(igpId, name, links[0], date, repr);
      var b :- LinksRows(igpId, name, links[1..], date, repr);
      JoinLinks(a, b, name);
      LinksAtCons(a, b, igpId, name, links, repr);
      Ok(Join(a, b))
  }

  const SidKeys := {"sr_prefix_sid", "sr_prefix_sid_absolute"}

  /** A prefix entry is the router's loopback when its `prefix` is `<local_router_id>/32`. */
  predicate IsLoopback(p: Json, loop: string) {
    Field(p, "prefix") == Str(loop)
  }

  /** How many prefix entries are the loopback. */
  function LoopCount(prefixes: seq<Json>, loop: string): nat
    decreases |prefixes|
  {
    if prefixes == [] then 0
    else (if IsLoopback(prefixes[0], loop) then 1 else 0) + LoopCount(prefixes[1..], loop)
  }

  /** The last prefix entry that is the loopback, if any. */
  function LastLoop(prefixes: seq<Json>, loop: string): (r: Option<Json>)
    ensures r.None? <==> LoopCount(prefixes, loop) == 0
    ensures r.Some? ==> r.value in prefixes && IsLoopback(r.value, loop)
    decreases |prefixes|
  {
    if prefixes == [] then None
    else
      match LastLoop(prefixes[1..], loop)
      case Some(p) => Some(p)
      case None => if IsLoopback(prefixes[0], loop) then Some(prefixes[0]) else None
  }

  /** The properties carry the prefix's SID and that SID plus the SRGB start. */
  predicate LoopSids(p: Props, prefix: Json, srgb: Json) {
    var sid := Field(prefix, "sr_prefix_sid");
    Holds(p, "sr_prefix_sid", sid) && PyAdd(sid, srgb).Ok? && Holds(p, "sr_prefix_sid_absolute", PyAdd(sid, srgb).value)
  }

  /**
   The prefix scan: each prefix equal to `<local_router_id>/32` writes
   `sr_prefix_sid` and `sr_prefix_sid_absolute` (the SID plus the SRGB
   start) into the router's properties. Returns how many matched and the
   properties after the last of them.
   */
  function Loopbacks(prefixes: seq<Json>, loop: string, srgb: Json, props: Props): (r: Result<(nat, Props)>)
    ensures r.Ok? ==> r.value.0 == LoopCount(prefixes, loop)
    ensures r.Ok? && r.value.0 == 0 ==> r.value.1 == props
    ensures r.Ok? && LastLoop(prefixes, loop).Some? ==> LoopSids(r.value.1, LastLoop(prefixes, loop).value, srgb)
    ensures r.Ok? ==> r.value.1.Keys - SidKeys == props.Keys - SidKeys
    ensures r.Ok? ==> forall k | k in props && k !in SidKeys :: k in r.value.1 && r.value.1[k] == props[k]
    decreases |prefixes|
  {
    if prefixes == [] then Ok((0, props))
    else
      var p :- Index(prefixes[0], "prefix");
      if p == Str(loop) then
        var sid :- Index(prefixes[0], "sr_prefix_sid");
        var absolute :- PyAdd(sid, srgb);
        var rest :- Loopbacks(prefixes[1..], loop, srgb, props["sr_prefix_sid" := sid]["sr_prefix_sid_absolute" := absolute]);
        Ok((rest.0 + 1, rest.1))
      else
        Loopbacks(prefixes[1..], loop, srgb, props)
  }

  /** `n` references to one row. */
  function Copies(row: NodeRow, n: nat): (r: seq<NodeRow>)
    ensures |r| == n && forall i | 0 <= i < n :: r[i] == row
  {
    seq(n, _ => row)
  }

  /** A router's rows, followed by the rows of its links. */
  function WithRouter(row: NodeRow, n: nat, links: IsisBatch): (r: IsisBatch)
    requires LinksOf(links, row.key) && Fresh(row.props) && "name" !in row.props
    ensures GoodIsis(r) && r.routers == Copies(row, n + 1)
    ensures r.ips == links.ips && r.belongs == links.belongs && r.isis == links.isis
  {
    var r := IsisBatch(Copies(row, n + 1), links.ips, links.belongs, links.isis);
    assert r.routers[0] in r.routers;
    r
  }

  /** `attrs['node_info']`. */
  function Info(attrs: Json): Json {
    Field(attrs, "node_info")
  }

  /** `x[0]` of a non-empty list, null otherwise. */
  function FirstOf(x: Json): Json {
    if x.Arr? && x.items != [] then x.items[0] else Null
  }

  /** What `for y in x` visits, nothing where it would raise. */
  function IterOr(x: Json): seq<Json> {
    if x.Arr? || x.Obj? || x.Str? then Iter(x).value else []
  }

  /** The loopback prefix the scan looks for: `<local_router_id>/32`. */
  function Loop(attrs: Json, repr: Json -> string): string {
    PyStr(Field(Info(attrs), "local_router_id"), repr) + "/32"
  }

  /** The SRGB start: `node_info.sr_capabilities.ranges[0].begin`. */
  function Srgb(attrs: Json): Json {
    Field(FirstOf(Field(Field(Info(attrs), "sr_capabilities"), "ranges")), "begin")
  }

  function Prefixes(attrs: Json): seq<Json> {
    IterOr(Field(attrs, "prefixes"))
  }

  function LinkList(attrs: Json): seq<Json> {
    IterOr(Field(attrs, "links"))
  }

  /**
   The router row of a router entry: keyed by its node name, carrying its
   IGP router id, loopback, AS number and SRGB start and, when some prefix
   is the loopback, the SIDs of the last one; no SID otherwise.
   */
  predicate RouterRowFor(row: NodeRow, attrs: Json, repr: Json -> string) {
    var info := Info(attrs);
    var last := LastLoop(Prefixes(attrs), Loop(attrs, repr));
    && row.key == Field(info, "node_name")
    && Holds(row.props, "igp_router_id", Field(info, "igp_router_id"))
    && Holds(row.props, "local_router_id", Field(info, "local_router_id"))
    && Holds(row.props, "asn", Field(info, "asn"))
    && Holds(row.props, "srgb_start", Srgb(attrs))
    && (last.Some? ==> LoopSids(row.props, last.value, Srgb(attrs)))
    && (last.None? ==> row.props.Keys * SidKeys == {})
  }

  /**
   The router dict of one router entry after the prefix scan, and how many
   prefixes were the loopback. The dict is fresh and has no `name`: MERGE
   sets the name from the row's key.
   */
  function RouterRow(attrs: Json, date: string, repr: Json -> string): (r: Result<(NodeRow, nat)>)
    ensures r.Ok? ==> RouterRowFor(r.value.0, attrs, repr) && r.value.1 == LoopCount(Prefixes(attrs), Loop(attrs, repr))
    ensures r.Ok? ==> Fresh(r.value.0.props) && "name" !in r.value.0.props
  {
    var info :- Index(attrs, "node_info");
    var name :- Index(info, "node_name");
    var loopback :- Index(info, "local_router_id");
    var igp :- Index(info, "igp_router_id");
    var asn :- Index(info, "asn");
    var caps :- Index(info, "sr_capabilities");
    var ranges :- Index(caps, "ranges");
    var range0 :- First(ranges);
    var srgb :- Index(range0, "begin");
    var props := RouterProps(date, igp, loopback, asn, srgb);
    var prefixesJ :- Index(attrs, "prefixes");
    var prefixes :- Iter(prefixesJ);
    var found :- Loopbacks(prefixes, PyStr(loopback, repr) + "/32", srgb, props);
    RouterRowFresh(props, found.1);
    RouterRowSpec(attrs, repr, info, name, loopback, igp, asn, srgb, props, prefixes, found);
    Ok((NodeRow(name, found.1), found.0))
  }

  /**
   One router of `gobgp_database['routers']`. The script appends the router
   dict once, then again for every loopback prefix, and keeps mutating the
   same dict: every copy in the batch is the same row, with the properties
   after the last loopback prefix.
   */
  function RouterBatch(igpId: string, attrs: Json, date: string, repr: Json -> string): (r: Result<IsisBatch>)
    ensures r.Ok? ==> GoodIsis(r.value) && |r.value.routers| == 1 + LoopCount(Prefixes(attrs), Loop(attrs, repr))
    ensures r.Ok? ==> forall i | 0 <= i < |r.value.routers| :: r.value.routers[i] == r.value.routers[0]
    ensures r.Ok? ==> RouterRowFor(r.value.routers[0], attrs, repr)
    ensures r.Ok? ==> |r.value.belongs| == |LinkList(attrs)|
    ensures r.Ok? ==> forall i | 0 <= i < |LinkList(attrs)| :: LinkAt(r.value, i, igpId, Field(Info(attrs), "node_name"), LinkList(attrs)[i], repr)
  {
    var row :- RouterRow(attrs, date, repr);
    var linksJ :- Index(attrs, "links");
    var links :- Iter(linksJ);
    var lr :- LinksRows(igpId, row.0.key, links, date, repr);
    Ok(WithRouter(row.0, row.1, lr))
  }

  /** The router row built from the values read out of `attrs` is the one `RouterRowFor` describes. */
  lemma RouterRowSpec(attrs: Json, repr: Json -> string, info: Json, name: Json, loopback: Json, igp: Json, asn: Json,
                      srgb: Json, props: Props, prefixes: seq<Json>, found: (nat, Props))
    requires info == Info(attrs) && name == Field(info, "node_name") && loopback == Field(info, "local_router_id")
    requires igp == Field(info, "igp_router_id") && asn == Field(info, "asn") && srgb == Srgb(attrs)
    requires prefixes == Prefixes(attrs)
    requires Holds(props, "igp_router_id", igp) && Holds(props, "local_router_id", loopback)
    requires Holds(props, "asn", asn) && Holds(props, "srgb_start", srgb) && props.Keys * SidKeys == {}
    requires Loopbacks(prefixes, PyStr(loopback, repr) + "/32", srgb, props) == Ok(found)
    ensures RouterRowFor(NodeRow(name, found.1), attrs, repr)
  {
    var after := found.1;
    assert "igp_router_id" !in SidKeys && "local_router_id" !in SidKeys && "asn" !in SidKeys && "srgb_start" !in SidKeys;
    if LastLoop(prefixes, Loop(attrs, repr)).None? {
      assert after == props;
    }
  }

  /** A router's properties before the prefix scan. */
  function RouterProps(date: string, igp: Json, loopback: Json, asn: Json, srgb: Json): (r: Props)
    ensures Fresh(r) && "name" !in r && r.Keys * SidKeys == {}
    ensures Holds(r, "igp_router_id", igp) && Holds(r, "local_router_id", loopback)
    ensures Holds(r, "asn", asn) && Holds(r, "srgb_start", srgb)
  {
    Stamp(date)["igp_router_id" := igp]["local_router_id" := loopback]["asn" := asn]["srgb_start" := srgb]
  }

  lemma RouterRowFresh(before: Props, after: Props)
    requires Fresh(before) && "name" !in before
    requires after.Keys - SidKeys == before.Keys - SidKeys
    requires forall k | k in before && k !in SidKeys :: k in after && after[k] == before[k]
    ensures Fresh(after) && "name" !in after
  {
    assert "delete" !in SidKeys && "name" !in SidKeys;
    assert "delete" in before.Keys - SidKeys;
    assert forall k | k in after && k !in SidKeys :: k in after.Keys - SidKeys;
  }

  /** Some router row of the batch is the one the script writes for `attrs`. */
  predicate RouterIn(b: IsisBatch, attrs: Json, repr: Json -> string) {
    exists row | row in b.routers :: RouterRowFor(row, attrs, repr)
  }

  /** Some adjacency of the batch holds the rows of `link`, a link of router `igpId`. */
  predicate LinkIn(b: IsisBatch, igpId: string, attrs: Json, link: Json, repr: Json -> string) {
    exists i | 0 <= i < |b.belongs| :: LinkAt(b, i, igpId, Field(Info(attrs), "node_name"), link, repr)
  }

  /** Every router of the document has its row in the batch, and every link of every router its rows. */
  predicate Covers(b: IsisBatch, routers: Fields, repr: Json -> string) {
    && (forall i | 0 <= i < |routers| :: RouterIn(b, routers[i].1, repr))
    && (forall i, k | 0 <= i < |routers| && 0 <= k < |LinkList(routers[i].1)| ::
          LinkIn(b, routers[i].0, routers[i].1, LinkList(routers[i].1)[k], repr))
  }

  /** The number of links over all routers. */
  function LinkTotal(routers: Fields): nat
    decreases |routers|
  {
    if routers == [] then 0 else |LinkList(routers[0].1)| + LinkTotal(routers[1..])
  }

  /** The first router's rows and the others' together cover all routers. */
  lemma CoversCons(a: IsisBatch, b: IsisBatch, routers: Fields, repr: Json -> string)
    requires routers != [] && Paired(a) && a.routers != [] && RouterRowFor(a.routers[0], routers[0].1, repr)
    requires forall k | 0 <= k < |LinkList(routers[0].1)| ::
      LinkAt(a, k, routers[0].0, Field(Info(routers[0].1), "node_name"), LinkList(routers[0].1)[k], repr)
    requires Covers(b, routers[1..], repr)
    ensures Covers(Join(a, b), routers, repr)
  {
    var j := Join(a, b);
    assert j.routers[0] == a.routers[0];
    forall i | 1 <= i < |routers| ensures RouterIn(j, routers[i].1, repr) {
      assert routers[i] == routers[1..][i - 1];
      var row :| row in b.routers && RouterRowFor(row, routers[i].1, repr);
      assert row in j.routers;
    }
    forall i, k | 0 <= i < |routers| && 0 <= k < |LinkList(routers[i].1)|
      ensures LinkIn(j, routers[i].0, routers[i].1, LinkList(routers[i].1)[k], repr)
    {
      var name := Field(Info(routers[i].1), "node_name");
      if i == 0 {
        LinkAtLeft(a, b, k, routers[0].0, name, LinkList(routers[0].1)[k], repr);
      } else {
        assert routers[i] == routers[1..][i - 1];
        assert LinkIn(b, routers[1..][i - 1].0, routers[1..][i - 1].1, LinkList(routers[1..][i - 1].1)[k], repr);
        var m :| LinkAt(b, m, routers[i].0, name, LinkList(routers[i].1)[k], repr);
        LinkAtRight(a, b, m, routers[i].0, name, LinkList(routers[i].1)[k], repr);
      }
    }
  }

  /** All routers, in the dict's order; the first error ends the script. */
  function RoutersBatch(routers: Fields, date: string, repr: Json -> string): (r: Result<IsisBatch>)
    ensures r.Ok? ==> GoodIsis(r.value)
    ensures r.Ok? ==> Covers(r.value, routers, repr) && |r.value.isis| == LinkTotal(routers)
    decreases |routers|
  {
    if routers == [] then Ok(NoIsis)
    else
      var a :- RouterBatch(routers[0].0, routers[0].1, date, repr);
      var b :- RoutersBatch(routers[1..], date, repr);
      JoinGood(a, b);
      CoversCons(a, b, routers, repr);
      Ok(Join(a, b))
  }

  /**
   `create_isis_topology_from_gobgp`'s four batches: good, with a row for
   every router of the document and the rows of every link of every router,
   one adjacency per link.
   */
  function IsisBatches(gobgp: Json, date: string, repr: Json -> string): (r: Result<IsisBatch>)
    ensures r.Ok? ==> GoodIsis(r.value)
    ensures r.Ok? ==> Field(gobgp, "routers").Obj?
    ensures r.Ok? ==> var routers := Field(gobgp, "routers").fields;
      Covers(r.value, routers, repr) && |r.value.isis| == LinkTotal(routers)
  {
    var routersJ :- Index(gobgp, "routers");
    var routers :- Items(routersJ);
    RoutersBatch(routers, date, repr)
  }

  // ===========================================================================
  // create_port_attach_logical_relationships
  // ===========================================================================

  datatype PortBatch = PortBatch(
    ports: seq<NodeRow>, lags: seq<NodeRow>, portLags: seq<EdgeRow>,
    logicals: seq<NodeRow>, logicalLags: seq<EdgeRow>, routerLogicals: seq<EdgeRow>)

  function Merge(a: PortBatch, b: PortBatch): PortBatch {
    PortBatch(a.ports + b.ports, a.lags + b.lags, a.portLags + b.portLags,
      a.logicals + b.logicals, a.logicalLags + b.logicalLags, a.routerLogicals + b.routerLogicals)
  }

  const NoPorts := PortBatch([], [], [], [], [], [])

  const PortLagSpec := EdgeSpec(ProdPort, "uid", InLag, ProdLag, "uid")
  const LogicalLagSpec := EdgeSpec(ProdLogical, "uid", LogicalOfLag, ProdLag, "uid")
  const RouterLogicalSpec := EdgeSpec(ProdLogical, "uid", LogicalOfRouter, ProdRouter, "name")

  function PortStmts(b: PortBatch): seq<Stmt> {
    [NodeStmt(ProdPort, "uid", b.ports), NodeStmt(ProdLag, "uid", b.lags), EdgeStmt(PortLagSpec, b.portLags),
     NodeStmt(ProdLogical, "uid", b.logicals), EdgeStmt(LogicalLagSpec, b.logicalLags),
     EdgeStmt(RouterLogicalSpec, b.routerLogicals)]
  }

  /** The key of a router's LAG: `<router>_LAG<lag>`. */
  function LagUid(router: string, lag: Json, repr: Json -> string): string {
    router + "_LAG" + PyStr(lag, repr)
  }

  /** Every LAG row comes with the port-to-LAG row that joins it, and that row starts at a port of the batch. */
  predicate LagsJoined(b: PortBatch) {
    && |b.lags| == |b.portLags|
    && forall i | 0 <= i < |b.lags| ::
         b.portLags[i].dst == b.lags[i].key && b.portLags[i].src in RowKeys(b.ports)
  }

  /** Every logical interface has its row to the router, in the same order. */
  predicate LogicalsJoined(router: string, b: PortBatch) {
    && |b.logicals| == |b.routerLogicals|
    && forall i | 0 <= i < |b.logicals| ::
         b.routerLogicals[i].src == b.logicals[i].key && b.routerLogicals[i].dst == Str(router)
  }

  predicate PortsClean(b: PortBatch) {
    FreshRows(b.ports) && FreshRows(b.lags) && FreshRows(b.logicals)
    && KeyFree(b.ports, "uid") && KeyFree(b.lags, "uid") && KeyFree(b.logicals, "uid")
  }

  /** The merge keys of a node batch, in order. */
  function KeysOf(rows: seq<NodeRow>): (r: seq<Json>)
    ensures |r| == |rows| && forall i | 0 <= i < |rows| :: r[i] == rows[i].key
  {
    seq(|rows|, i requires 0 <= i < |rows| => rows[i].key)
  }

  lemma MergeKeys(a: PortBatch, b: PortBatch)
    ensures KeysOf(Merge(a, b).ports) == KeysOf(a.ports) + KeysOf(b.ports)
    ensures KeysOf(Merge(a, b).lags) == KeysOf(a.lags) + KeysOf(b.lags)
    ensures KeysOf(Merge(a, b).logicals) == KeysOf(a.logicals) + KeysOf(b.logicals)
  {
  }

  /** `attrs[k]` of a device when it is a dict, and no entries otherwise. */
  function Table(attrs: Json, k: string): Fields {
    var t := Field(attrs, k);
    if t.Obj? then t.fields else []
  }

  /** The port keys of a router: `<router>_<port>` for every port, in order. */
  function PortKeysOf(router: string, ports: Fields): seq<Json>
    decreases |ports|
  {
    if ports == [] then [] else [Str(router + "_" + ports[0].0)] + PortKeysOf(router, ports[1..])
  }

  /** The LAG keys of a router: `<router>_LAG<lag>` for every port attached to a dict with a truthy LAG. */
  function LagKeysOf(router: string, ports: Fields, repr: Json -> string): seq<Json>
    decreases |ports|
  {
    if ports == [] then []
    else
      var attach := ports[0].1;
      (if attach.Obj? && Truthy(Field(attach, "LAG")) then [Str(router + "_LAG" + PyStr(Field(attach, "LAG"), repr))] else [])
      + LagKeysOf(router, ports[1..], repr)
  }

  /** The logical interface keys of a router: `<router>_<name>` for every interface with a non-empty IP. */
  function LogicalKeysOf(router: string, itfs: Fields): seq<Json>
    decreases |itfs|
  {
    if itfs == [] then []
    else
      var x := itfs[0].1;
      (if x.Obj? && "IP" in Keys(x.fields) && Field(x, "IP") != Str("") then [Str(router + "_" + itfs[0].0)] else [])
      + LogicalKeysOf(router, itfs[1..])
  }

  /** The port keys of the whole NSO document, device by device. */
  function NsoPortKeys(devices: Fields): seq<Json>
    decreases |devices|
  {
    if devices == [] then [] else PortKeysOf(devices[0].0, Table(devices[0].1, "PORT")) + NsoPortKeys(devices[1..])
  }

  function NsoLagKeys(devices: Fields, repr: Json -> string): seq<Json>
    decreases |devices|
  {
    if devices == [] then [] else LagKeysOf(devices[0].0, Table(devices[0].1, "PORT"), repr) + NsoLagKeys(devices[1..], repr)
  }

  function NsoLogicalKeys(devices: Fields): seq<Json>
    decreases |devices|
  {
    if devices == [] then [] else LogicalKeysOf(devices[0].0, Table(devices[0].1, "LOGICAL")) + NsoLogicalKeys(devices[1..])
  }

  /**
   One physical port: its row, and when it is attached to a dict with a
   truthy LAG, the LAG's row and the port-to-LAG row.
   */
  function PortRows(router: string, port: string, attach: Json, date: string, repr: Json -> string): (r: PortBatch)
    ensures r.ports == [NodeRow(Str(router + "_" + port), Stamp(date)["portId" := Str(port)])]
    ensures |r.lags| == (if attach.Obj? && Truthy(GetOr(attach.fields, "LAG", Null)) then 1 else 0)
    ensures |r.lags| == 1 ==>
      && r.lags[0].key == Str(router + "_LAG" + PyStr(Field(attach, "LAG"), repr))
      && Holds(r.lags[0].props, "name", Field(attach, "LAG"))
      && r.portLags == [EdgeRow(Str(router + "_" + port), r.lags[0].key, Stamp(date))]
    ensures r.logicals == [] && r.logicalLags == [] && r.routerLogicals == []
    ensures KeysOf(r.lags) == LagKeysOf(router, [(port, attach)], repr)
    ensures LagsJoined(r) && PortsClean(r)
  {
    var uid := router + "_" + port;
    var row := NodeRow(Str(uid), Stamp(date)["portId" := Str(port)]);
    if attach.Obj? && Get(attach.fields, "LAG").Some? && Truthy(Get(attach.fields, "LAG").value) then
      var lag := Get(attach.fields, "LAG").value;
      var lagUid := LagUid(router, lag, repr);
      var r := PortBatch([row], [NodeRow(Str(lagUid), Stamp(date)["name" := lag])], [EdgeRow(Str(uid), Str(lagUid), Stamp(date))], [], [], []);
      assert r.ports[0] in r.ports;
      r
    else
      PortBatch([row], [], [], [], [], [])
  }

  function PortsRows(router: string, ports: Fields, date: string, repr: Json -> string): (r: PortBatch)
    ensures PortKeyed(router, ports, r.ports) && r.logicals == [] && r.routerLogicals == []
    ensures KeysOf(r.ports) == PortKeysOf(router, ports) && KeysOf(r.lags) == LagKeysOf(router, ports, repr)
    ensures LagsJoined(r) && PortsClean(r)
    decreases |ports|
  {
    if ports == [] then NoPorts
    else
      var a := PortRows(router, ports[0].0, ports[0].1, date, repr);
      var b := PortsRows(router, ports[1..], date, repr);
      MergeJoined(router, a, b);
      PortKeyedCons(router, ports, a.ports[0], b.ports);
      MergeKeys(a, b);
      LagKeysCons(router, ports, repr);
      Merge(a, b)
  }

  /** The LAG keys of the first port, then of the others. */
  lemma LagKeysCons(router: string, ports: Fields, repr: Json -> string)
    requires ports != []
    ensures LagKeysOf(router, ports, repr) == LagKeysOf(router, [ports[0]], repr) + LagKeysOf(router, ports[1..], repr)
  {
    assert [ports[0]][1..] == [];
  }

  /** Row `i` is the port row of the `i`-th port. */
  predicate PortKeyed(router: string, ports: Fields, rows: seq<NodeRow>) {
    |rows| == |ports| && forall i | 0 <= i < |ports| :: rows[i].key == Str(router + "_" + ports[i].0)
  }

  lemma PortKeyedCons(router: string, ports: Fields, row: NodeRow, rows: seq<NodeRow>)
    requires ports != [] && row.key == Str(router + "_" + ports[0].0) && PortKeyed(router, ports[1..], rows)
    ensures PortKeyed(router, ports, [row] + rows)
  {
    forall i | 1 <= i < |ports| ensures ([row] + rows)[i].key == Str(router + "_" + ports[i].0) {
      assert ports[i] == ports[1..][i - 1];
    }
  }

  lemma MergeJoined(router: string, a: PortBatch, b: PortBatch)
    requires LagsJoined(a) && LagsJoined(b) && PortsClean(a) && PortsClean(b)
    ensures LagsJoined(Merge(a, b)) && PortsClean(Merge(a, b))
    ensures LogicalsJoined(router, a) && LogicalsJoined(router, b) ==> LogicalsJoined(router, Merge(a, b))
  {
    var m := Merge(a, b);
    assert RowKeys(m.ports) == RowKeys(a.ports) + RowKeys(b.ports);
    forall i | |a.lags| <= i < |m.lags|
      ensures m.portLags[i].dst == m.lags[i].key && m.portLags[i].src in RowKeys(m.ports)
    {
      assert m.lags[i] == b.lags[i - |a.lags|] && m.portLags[i] == b.portLags[i - |a.lags|];
    }
    RowsAppend(a.ports, b.ports, "uid");
    RowsAppend(a.lags, b.lags, "uid");
    RowsAppend(a.logicals, b.logicals, "uid");
    if LogicalsJoined(router, a) && LogicalsJoined(router, b) {
      forall i | |a.logicals| <= i < |m.logicals|
        ensures m.routerLogicals[i].src == m.logicals[i].key && m.routerLogicals[i].dst == Str(router)
      {
        assert m.logicals[i] == b.logicals[i - |a.logicals|] && m.routerLogicals[i] == b.routerLogicals[i - |a.logicals|];
      }
    }
  }

  /**
   One logical interface: only when its attributes contain "IP" and the IP
   is not the empty string. Its row, a row to its LAG when ATTACH is truthy,
   and a row to its router.
   */
  function LogicalRows(router: string, name: string, x: Json, date: string, repr: Json -> string): (r: Result<PortBatch>)
    ensures r.Ok? <==> (x.Str? || x.Arr? || x.Obj?) && (PyIn("IP", x) == Ok(true) ==> x.Obj?)
    ensures r.Ok? ==> |r.value.logicals| == (if x.Obj? && Get(x.fields, "IP").Some? && Get(x.fields, "IP").value != Str("") then 1 else 0)
    ensures r.Ok? ==> r.value.ports == [] && r.value.lags == [] && r.value.portLags == []
    ensures r.Ok? ==> KeysOf(r.value.logicals) == LogicalKeysOf(router, [(name, x)])
    ensures r.Ok? ==> LogicalsJoined(router, r.value) && PortsClean(r.value)
  {
    var hasIp :- PyIn("IP", x);
    if !hasIp then Ok(NoPorts)
    else
      var ip :- Index(x, "IP");
      if ip == Str("") then Ok(NoPorts)
      else Ok(LogicalBatch(router, name, x.fields, ip, date, repr))
  }

  /** The rows of a logical interface that has an address. */
  function LogicalBatch(router: string, name: string, x: Fields, ip: Json, date: string, repr: Json -> string): (r: PortBatch)
    ensures |r.logicals| == 1 && r.ports == [] && r.lags == [] && r.portLags == []
    ensures r.logicals[0].key == Str(router + "_" + name)
    ensures Holds(r.logicals[0].props, "name", Str(name)) && Holds(r.logicals[0].props, "ip", ip)
    ensures Holds(r.logicals[0].props, "mask", GetOr(x, "MASK", Str(""))) && Holds(r.logicals[0].props, "vlan", GetOr(x, "VLAN", Str("")))
    ensures Holds(r.logicals[0].props, "router", Str(router))
    ensures |r.logicalLags| == (if Truthy(GetOr(x, "ATTACH", Str(""))) then 1 else 0)
    ensures |r.logicalLags| == 1 ==>
      r.logicalLags[0].src == Str(router + "_" + name) && r.logicalLags[0].dst == Str(router + "_LAG" + PyStr(GetOr(x, "ATTACH", Str("")), repr))
    ensures LogicalsJoined(router, r) && PortsClean(r)
  {
    var uid := router + "_" + name;
    var attach := GetOr(x, "ATTACH", Str(""));
    var props := Stamp(date)["name" := Str(name)]["ip" := ip]["mask" := GetOr(x, "MASK", Str(""))]
      ["vlan" := GetOr(x, "VLAN", Str(""))]["router" := Str(router)];
    var toLag := if Truthy(attach) then [EdgeRow(Str(uid), Str(LagUid(router, attach, repr)), Stamp(date))] else [];
    PortBatch([], [], [], [NodeRow(Str(uid), props)], toLag, [EdgeRow(Str(uid), Str(router), Stamp(date))])
  }

  function LogicalsRows(router: string, itfs: Fields, date: string, repr: Json -> string): (r: Result<PortBatch>)
    ensures r.Ok? ==> r.value.ports == [] && r.value.lags == [] && r.value.portLags == []
    ensures r.Ok? ==> KeysOf(r.value.logicals) == LogicalKeysOf(router, itfs)
    ensures r.Ok? ==> LogicalsJoined(router, r.value) && PortsClean(r.value)
    decreases |itfs|
  {
    if itfs == [] then Ok(NoPorts)
    else
      var a :- LogicalRows(router, itfs[0].0, itfs[0].1, date, repr);
      var b :- LogicalsRows(router, itfs[1..], date, repr);
      MergeJoined(router, a, b);
      MergeKeys(a, b);
      Ok(Merge(a, b))
  }

  /** One device of the NSO analysis: its "PORT" table, then its "LOGICAL" table, each when present. */
  function DeviceRows(router: string, attrs: Json, date: string, repr: Json -> string): (r: Result<PortBatch>)
    ensures r.Ok? ==> LagsJoined(r.value) && LogicalsJoined(router, r.value) && PortsClean(r.value)
    ensures r.Ok? ==> KeysOf(r.value.ports) == PortKeysOf(router, Table(attrs, "PORT"))
    ensures r.Ok? ==> KeysOf(r.value.lags) == LagKeysOf(router, Table(attrs, "PORT"), repr)
    ensures r.Ok? ==> KeysOf(r.value.logicals) == LogicalKeysOf(router, Table(attrs, "LOGICAL"))
  {
    var hasPort :- PyIn("PORT", attrs);
    var ports :- if hasPort then (var pj :- Index(attrs, "PORT"); var ps :- Items(pj); Ok(PortsRows(router, ps, date, repr))) else Ok(NoPorts);
    // `in` succeeded on the same value above
    var hasLogical := PyIn("LOGICAL", attrs).value;
    var logicals :- if hasLogical then (var lj :- Index(attrs, "LOGICAL"); var ls :- Items(lj); LogicalsRows(router, ls, date, repr)) else Ok(NoPorts);
    MergeJoined(router, ports, logicals);
    MergeKeys(ports, logicals);
    Ok(Merge(ports, logicals))
  }

  function DevicesRows(devices: Fields, date: string, repr: Json -> string): (r: Result<PortBatch>)
    ensures r.Ok? ==> LagsJoined(r.value) && PortsClean(r.value)
    ensures r.Ok? ==> KeysOf(r.value.ports) == NsoPortKeys(devices)
    ensures r.Ok? ==> KeysOf(r.value.lags) == NsoLagKeys(devices, repr)
    ensures r.Ok? ==> KeysOf(r.value.logicals) == NsoLogicalKeys(devices)
    decreases |devices|
  {
    if devices == [] then Ok(NoPorts)
    else
      var a :- DeviceRows(devices[0].0, devices[0].1, date, repr);
      var b :- DevicesRows(devices[1..], date, repr);
      MergeJoined(devices[0].0, a, b);
      MergeKeys(a, b);
      Ok(Merge(a, b))
  }

  /**
   `create_port_attach_logical_relationships`'s six batches: the ports, LAGs
   and logical interfaces are exactly those the document lists, device by
   device, each under its key.
   */
  function PortBatches(nso: Json, date: string, repr: Json -> string): (r: Result<PortBatch>)
    ensures r.Ok? ==> LagsJoined(r.value) && PortsClean(r.value)
    ensures r.Ok? ==> nso.Obj?
    ensures r.Ok? ==> KeysOf(r.value.ports) == NsoPortKeys(nso.fields)
    ensures r.Ok? ==> KeysOf(r.value.lags) == NsoLagKeys(nso.fields, repr)
    ensures r.Ok? ==> KeysOf(r.value.logicals) == NsoLogicalKeys(nso.fields)
  {
    var devices :- Items(nso);
    DevicesRows(devices, date, repr)
  }

  // ===========================================================================
  // create_lldp_link
  // ===========================================================================

  const LldpSpec := EdgeSpec(ProdPort, "uid", LldpLink, ProdPort, "uid")

  /** One neighbour: from `<router>_<local port>` to `<remote device>_<remote port>`; a missing field raises KeyError. */
  function NeighborRow(router: string, port: string, n: Json, date: string, repr: Json -> string): (r: Result<EdgeRow>)
    ensures r.Ok? <==> LinkReadable(n)
    ensures r.Ok? ==> r.value.src == Str(router + "_" + port) && Fresh(r.value.props)
  {
    var device :- Index(n, "remote_device");
    var remotePort :- Index(n, "remote_port");
    Ok(EdgeRow(Str(router + "_" + port), Str(PyStr(device, repr) + "_" + PyStr(remotePort, repr)), Stamp(date)))
  }

  /** A neighbour entry the builder can read: a dict with both remote fields. */
  predicate LinkReadable(j: Json) {
    j.Obj? && "remote_device" in Keys(j.fields) && "remote_port" in Keys(j.fields)
  }

  /** The neighbours of one device, one row each, in the dict's order. */
  function NeighborsRows(router: string, ns: Fields, date: string, repr: Json -> string): (r: Result<seq<EdgeRow>>)
    ensures r.Ok? <==> forall i | 0 <= i < |ns| :: LinkReadable(ns[i].1)
    ensures r.Ok? ==> |r.value| == |ns|
    ensures r.Ok? ==> forall i | 0 <= i < |ns| :: Ok(r.value[i]) == NeighborRow(router, ns[i].0, ns[i].1, date, repr)
    decreases |ns|
  {
    if ns == [] then Ok([])
    else
      var a :- NeighborRow(router, ns[0].0, ns[0].1, date, repr);
      var b :- NeighborsRows(router, ns[1..], date, repr);
      assert forall i | 1 <= i < |ns| :: ns[i] == ns[1..][i - 1];
      Ok([a] + b)
  }

  /** A device entry the builder can read: a dict whose "neighbors", when it is a dict, holds readable entries. */
  predicate DeviceReadable(j: Json) {
    && j.Obj?
    && var nb := Get(j.fields, "neighbors");
       nb.Some? && nb.value.Obj? ==> forall i | 0 <= i < |nb.value.fields| :: LinkReadable(nb.value.fields[i].1)
  }

  /** The neighbours' dict of a device entry, when the entry is a dict holding one under "neighbors". */
  function NeighborsOf(attrs: Json): Option<Fields> {
    if attrs.Obj? && Get(attrs.fields, "neighbors").Some? && Get(attrs.fields, "neighbors").value.Obj?
    then Some(Get(attrs.fields, "neighbors").value.fields)
    else None
  }

  /** How many neighbour entries the devices' dicts hold, all together. */
  function NeighborTotal(devices: Fields): nat
    decreases |devices|
  {
    if devices == [] then 0
    else
      var here := NeighborsOf(devices[0].1);
      (if here.Some? then |here.value| else 0) + NeighborTotal(devices[1..])
  }

  /** One device of the LLDP topology: its "neighbors" when that is a dict, nothing otherwise. */
  function LldpDeviceRows(router: string, attrs: Json, date: string, repr: Json -> string): (r: Result<seq<EdgeRow>>)
    ensures DeviceReadable(attrs) ==> r.Ok?
    ensures NeighborsOf(attrs).Some? ==> r == NeighborsRows(router, NeighborsOf(attrs).value, date, repr)
    ensures r.Ok? && NeighborsOf(attrs).None? ==> r.value == []
  {
    var has :- PyIn("neighbors", attrs);
    if !has then Ok([])
    else
      var nb :- Index(attrs, "neighbors");
      if !nb.Obj? then Ok([]) else NeighborsRows(router, nb.fields, date, repr)
  }

  /** All devices' rows: one per neighbour entry, each the row of some device. */
  function LldpDevicesRows(devices: Fields, date: string, repr: Json -> string): (r: Result<seq<EdgeRow>>)
    ensures (forall i | 0 <= i < |devices| :: DeviceReadable(devices[i].1)) ==> r.Ok?
    ensures r.Ok? ==> forall i | 0 <= i < |devices| :: LldpDeviceRows(devices[i].0, devices[i].1, date, repr).Ok?
    ensures r.Ok? ==> |r.value| == NeighborTotal(devices)
    ensures r.Ok? ==> forall e | e in r.value ::
      exists i | 0 <= i < |devices| :: e in LldpDeviceRows(devices[i].0, devices[i].1, date, repr).value
    decreases |devices|
  {
    if devices == [] then Ok([])
    else
      var a :- LldpDeviceRows(devices[0].0, devices[0].1, date, repr);
      assert forall i | 1 <= i < |devices| :: devices[i] == devices[1..][i - 1];
      var b :- LldpDevicesRows(devices[1..], date, repr);
      Ok(a + b)
  }

  /** The rows of two lists of devices, one after the other, are the first list's rows followed by the second's. */
  lemma {:induction false} LldpDevicesAppend(xs: Fields, ys: Fields, date: string, repr: Json -> string)
    requires LldpDevicesRows(xs, date, repr).Ok? && LldpDevicesRows(ys, date, repr).Ok?
    ensures LldpDevicesRows(xs + ys, date, repr)
      == Ok(LldpDevicesRows(xs, date, repr).value + LldpDevicesRows(ys, date, repr).value)
    decreases |xs|
  {
    if xs == [] {
      assert xs + ys == ys;
      assert [] + LldpDevicesRows(ys, date, repr).value == LldpDevicesRows(ys, date, repr).value;
    } else {
      var zs := xs + ys;
      assert zs[0] == xs[0] && zs[1..] == xs[1..] + ys;
      DevicesUnfold(xs, date, repr);
      LldpDevicesAppend(xs[1..], ys, date, repr);
      DevicesUnfold(zs, date, repr);
      RowsAssoc(LldpDeviceRows(xs[0].0, xs[0].1, date, repr).value,
        LldpDevicesRows(xs[1..], date, repr).value, LldpDevicesRows(ys, date, repr).value);
    }
  }

  lemma DevicesUnfold(devices: Fields, date: string, repr: Json -> string)
    requires devices != []
    ensures LldpDevicesRows(devices, date, repr).Ok?
      <==> LldpDeviceRows(devices[0].0, devices[0].1, date, repr).Ok? && LldpDevicesRows(devices[1..], date, repr).Ok?
    ensures LldpDevicesRows(devices, date, repr).Ok? ==>
      LldpDevicesRows(devices, date, repr).value
        == LldpDeviceRows(devices[0].0, devices[0].1, date, repr).value + LldpDevicesRows(devices[1..], date, repr).value
  {
  }

  lemma RowsAssoc(a: seq<EdgeRow>, b: seq<EdgeRow>, c: seq<EdgeRow>)
    ensures a + (b + c) == (a + b) + c
  {
  }

  /** `create_lldp_link`'s batch: every device's rows, in the topology's order. */
  function LldpRows(topology: Json, date: string, repr: Json -> string): (r: Result<seq<EdgeRow>>)
    ensures r.Ok? ==> topology.Obj?
    ensures topology.Obj? && (forall i | 0 <= i < |topology.fields| :: DeviceReadable(topology.fields[i].1)) ==> r.Ok?
    ensures r.Ok? ==> |r.value| == NeighborTotal(topology.fields)
    ensures r.Ok? ==> forall i | 0 <= i < |topology.fields| ::
      LldpDeviceRows(topology.fields[i].0, topology.fields[i].1, date, repr).Ok?
    ensures r.Ok? ==> forall e | e in r.value :: exists i | 0 <= i < |topology.fields| ::
      e in LldpDeviceRows(topology.fields[i].0, topology.fields[i].1, date, repr).value
  {
    var devices :- Items(topology);
    LldpDevicesRows(devices, date, repr)
  }

  /** Each device's rows are in the batch. */
  lemma {:induction false} DevicesRowsHas(devices: Fields, i: nat, date: string, repr: Json -> string)
    requires i < |devices| && LldpDevicesRows(devices, date, repr).Ok?
    ensures LldpDeviceRows(devices[i].0, devices[i].1, date, repr).Ok?
    ensures forall e | e in LldpDeviceRows(devices[i].0, devices[i].1, date, repr).value :: e in LldpDevicesRows(devices, date, repr).value
    decreases |devices|
  {
    DevicesUnfold(devices, date, repr);
    var a := LldpDeviceRows(devices[0].0, devices[0].1, date, repr).value;
    var b := LldpDevicesRows(devices[1..], date, repr).value;
    InAppend(a, b);
    if i > 0 {
      assert devices[1..][i - 1] == devices[i];
      DevicesRowsHas(devices[1..], i - 1, date, repr);
    }
  }

  lemma InAppend(a: seq<EdgeRow>, b: seq<EdgeRow>)
    ensures forall e | e in a :: e in a + b
    ensures forall e | e in b :: e in a + b
  {
  }

  /** The entry the LLDP collector writes for a device is always readable here. */
  lemma DeviceEntryReadable(o: L.Outcome)
    ensures DeviceReadable(L.DeviceEntry(o))
  {
    if L.Failed(o) {
      var e := [("error", Str(o.error.value))];
      assert L.DeviceEntry(o) == Obj(e);
      assert Get(e, "neighbors") == None;
    } else {
      var a := Assign(L.Ports(o.neighbors), L.Links(o.neighbors));
      assert L.DeviceEntry(o) == Obj([("neighbors", Obj(a))]);
      assert Get([("neighbors", Obj(a))], "neighbors") == Some(Obj(a));
      NeighborsReadable(o.neighbors, a);
    }
  }

  lemma NeighborsReadable(ns: seq<L.Neighbor>, a: Fields)
    requires a == Assign(L.Ports(ns), L.Links(ns))
    ensures forall i | 0 <= i < |a| :: LinkReadable(a[i].1)
  {
    var links := L.Links(ns);
    assert forall j | 0 <= j < |links| :: LinkReadable(links[j]) by {
      forall j | 0 <= j < |links| ensures LinkReadable(links[j]) {
        assert links[j] == L.LinkEntry(ns[j]);
        LinkEntryReadable(ns[j]);
      }
    }
    forall i | 0 <= i < |a| ensures LinkReadable(a[i].1) {
      AssignFrom(L.Ports(ns), links, i);
    }
  }

  lemma LinkEntryReadable(n: L.Neighbor)
    ensures LinkReadable(L.LinkEntry(n))
  {
    var e := L.LinkEntry(n).fields;
    assert e[0].0 == "remote_device" && e[1].0 == "remote_port";
  }

  /** Building the LLDP batch from the collector's topology never raises. */
  lemma LldpTopologyReadable(os: seq<L.Outcome>, date: string, repr: Json -> string)
    ensures LldpRows(Obj(L.Topology(os)), date, repr).Ok?
  {
    var t := L.Topology(os);
    forall i | 0 <= i < |t| ensures DeviceReadable(t[i].1) {
      AssignFrom(L.Devices(os), L.Entries(os), i);
      var j :| 0 <= j < |L.Entries(os)| && t[i].1 == L.Entries(os)[j];
      DeviceEntryReadable(os[j]);
    }
  }

  /** The link row of a neighbour the collector reported for a device. */
  function PortLinkRow(device: string, n: L.Neighbor, date: string): EdgeRow {
    EdgeRow(Str(device + "_" + n.localPort), Str(n.remoteSystemName + "_" + n.remotePort), Stamp(date))
  }

  /**
   Every neighbour the collector reports (the last one on its port, of the
   last report of its device) becomes a `<device>_<local port>` →
   `<remote system name>_<remote port>` row.
   */
  lemma LldpTopologyLink(os: seq<L.Outcome>, j: nat, k: nat, date: string, repr: Json -> string)
    requires j < |os| && LastOf(L.Devices(os), j) && !L.Failed(os[j])
    requires k < |os[j].neighbors| && LastOf(L.Ports(os[j].neighbors), k)
    ensures var n := os[j].neighbors[k];
      && LldpRows(Obj(L.Topology(os)), date, repr).Ok?
      && PortLinkRow(os[j].device, n, date)
           in LldpRows(Obj(L.Topology(os)), date, repr).value
  {
    LldpTopologyReadable(os, date, repr);
    L.TopologyLastWins(os, j);
    DeviceEntryLink(os[j], k, date, repr);
    var n := os[j].neighbors[k];
    DevicesHave(L.Topology(os), os[j].device, L.DeviceEntry(os[j]),
      PortLinkRow(os[j].device, n, date), date, repr);
  }

  /**
   Conversely, every row of the batch is the link of a neighbour the
   collector reports: the last one on its port, of the last report of its
   device, which had no error.
   */
  lemma LldpTopologySound(os: seq<L.Outcome>, e: EdgeRow, date: string, repr: Json -> string)
    requires LldpRows(Obj(L.Topology(os)), date, repr).Ok? && e in LldpRows(Obj(L.Topology(os)), date, repr).value
    ensures exists j, k | 0 <= j < |os| && 0 <= k < |os[j].neighbors| ::
      && LastOf(L.Devices(os), j) && !L.Failed(os[j]) && LastOf(L.Ports(os[j].neighbors), k)
      && e == PortLinkRow(os[j].device, os[j].neighbors[k], date)
  {
    var t := L.Topology(os);
    var i :| 0 <= i < |t| && e in LldpDeviceRows(t[i].0, t[i].1, date, repr).value;
    AssignLastFrom(L.Devices(os), L.Entries(os), i);
    var j :| 0 <= j < |os| && LastOf(L.Devices(os), j) && t[i] == (L.Devices(os)[j], L.Entries(os)[j]);
    DeviceEntrySound(os[j], e, date, repr);
  }

  /** Within one device's entry: every row is the link of the last neighbour on some port. */
  lemma DeviceEntrySound(o: L.Outcome, e: EdgeRow, date: string, repr: Json -> string)
    requires LldpDeviceRows(o.device, L.DeviceEntry(o), date, repr).Ok?
    requires e in LldpDeviceRows(o.device, L.DeviceEntry(o), date, repr).value
    ensures !L.Failed(o)
    ensures exists k | 0 <= k < |o.neighbors| :: LastOf(L.Ports(o.neighbors), k) && e == PortLinkRow(o.device, o.neighbors[k], date)
  {
    if L.Failed(o) {
      FailedNoNeighbors(o);
      assert false;
    }
    var a := Assign(L.Ports(o.neighbors), L.Links(o.neighbors));
    EntryRows(o, a, date, repr);
    NeighborsSound(o.device, o.neighbors, e, date, repr);
  }

  lemma FailedNoNeighbors(o: L.Outcome)
    requires L.Failed(o)
    ensures NeighborsOf(L.DeviceEntry(o)).None?
  {
    var fs := [("error", Str(o.error.value))];
    assert L.DeviceEntry(o) == Obj(fs);
    assert Get(fs, "neighbors") == None;
  }

  /** Every row of a neighbours' dict the collector built is the link of the last neighbour on some port. */
  lemma NeighborsSound(device: string, ns: seq<L.Neighbor>, e: EdgeRow, date: string, repr: Json -> string)
    requires NeighborsRows(device, Assign(L.Ports(ns), L.Links(ns)), date, repr).Ok?
    requires e in NeighborsRows(device, Assign(L.Ports(ns), L.Links(ns)), date, repr).value
    ensures exists k | 0 <= k < |ns| :: LastOf(L.Ports(ns), k) && e == PortLinkRow(device, ns[k], date)
  {
    var a := Assign(L.Ports(ns), L.Links(ns));
    var rows := NeighborsRows(device, a, date, repr).value;
    var m :| 0 <= m < |rows| && rows[m] == e;
    AssignLastFrom(L.Ports(ns), L.Links(ns), m);
    var k :| 0 <= k < |ns| && LastOf(L.Ports(ns), k) && a[m] == (L.Ports(ns)[k], L.Links(ns)[k]);
    LinkEntryRow(device, ns[k], date, repr);
  }

  lemma DevicesHave(t: Fields, device: string, entry: Json, row: EdgeRow, date: string, repr: Json -> string)
    requires Get(t, device) == Some(entry) && LldpDevicesRows(t, date, repr).Ok?
    requires LldpDeviceRows(device, entry, date, repr).Ok? && row in LldpDeviceRows(device, entry, date, repr).value
    ensures row in LldpDevicesRows(t, date, repr).value
  {
    var i :| 0 <= i < |t| && t[i] == (device, entry);
    DevicesRowsHas(t, i, date, repr);
  }

  /** Within one device's entry: the neighbour on a port gives its row. */
  lemma DeviceEntryLink(o: L.Outcome, k: nat, date: string, repr: Json -> string)
    requires !L.Failed(o) && k < |o.neighbors| && LastOf(L.Ports(o.neighbors), k)
    ensures var n := o.neighbors[k];
      && LldpDeviceRows(o.device, L.DeviceEntry(o), date, repr).Ok?
      && PortLinkRow(o.device, n, date)
           in LldpDeviceRows(o.device, L.DeviceEntry(o), date, repr).value
  {
    var n := o.neighbors[k];
    var a := Assign(L.Ports(o.neighbors), L.Links(o.neighbors));
    EntryRows(o, a, date, repr);
    L.TopologyPort(o, k);
    assert L.Ports(o.neighbors)[k] == n.localPort;
    NeighborsHave(o.device, a, n.localPort, L.LinkEntry(n), date, repr);
    LinkEntryRow(o.device, n, date, repr);
  }

  /** A device without error: its rows are those of its neighbours' dict. */
  lemma EntryRows(o: L.Outcome, a: Fields, date: string, repr: Json -> string)
    requires !L.Failed(o) && a == Assign(L.Ports(o.neighbors), L.Links(o.neighbors))
    ensures NeighborsRows(o.device, a, date, repr).Ok?
    ensures LldpDeviceRows(o.device, L.DeviceEntry(o), date, repr) == NeighborsRows(o.device, a, date, repr)
  {
    assert L.DeviceEntry(o) == Obj([("neighbors", Obj(a))]);
    assert Get([("neighbors", Obj(a))], "neighbors") == Some(Obj(a));
    NeighborsReadable(o.neighbors, a);
  }

  /** Each entry of a neighbours' dict gives a row of the batch. */
  lemma NeighborsHave(router: string, a: Fields, port: string, entry: Json, date: string, repr: Json -> string)
    requires Get(a, port) == Some(entry) && NeighborsRows(router, a, date, repr).Ok?
    ensures NeighborRow(router, port, entry, date, repr).Ok?
    ensures NeighborRow(router, port, entry, date, repr).value in NeighborsRows(router, a, date, repr).value
  {
    var m :| 0 <= m < |a| && a[m] == (port, entry);
    var rows := NeighborsRows(router, a, date, repr).value;
    assert rows[m] in rows;
  }

  lemma LinkEntryRow(device: string, n: L.Neighbor, date: string, repr: Json -> string)
    ensures NeighborRow(device, n.localPort, L.LinkEntry(n), date, repr)
      == Ok(PortLinkRow(device, n, date))
  {
    var e := L.LinkEntry(n).fields;
    assert Get(e, "remote_device") == Some(Str(n.remoteSystemName));
    assert Get(e, "remote_port") == Some(Str(n.remotePort));
  }

  // ===========================================================================
  // Repeated rows
  // ===========================================================================

  lemma {:induction false} FixedCopies(t: Store, lbl: string, key: string, row: NodeRow, touched: set<nat>, n: nat)
    requires MergeNode(t, lbl, key, row) == Ok(Pushed(t, touched))
    ensures MergeNodes(t, lbl, key, Copies(row, n)) == Ok(Pushed(t, if n == 0 then {} else touched))
    decreases n
  {
    if n > 0 {
      var c := Copies(row, n);
      assert c[0] == row && c[1..] == Copies(row, n - 1);
      FixedCopies(t, lbl, key, row, touched, n - 1);
      var rest := MergeNodes(t, lbl, key, c[1..]).value;
      assert rest.store == t && touched + rest.touched == touched;
    }
  }

  /**
   A router with loopback prefixes appears several times in the router
   batch; merging all the copies has the effect of merging one.
   */
  lemma RouterCopiesOnce(s: Store, lbl: string, key: string, row: NodeRow, n: nat)
    requires Valid(s) && row.key != Null && key !in row.props
    ensures MergeNodes(s, lbl, key, Copies(row, n + 1)) == MergeNode(s, lbl, key, row)
  {
    var q := MergeNode(s, lbl, key, row).value;
    MergeNodeTwice(s, lbl, key, row);
    FixedCopies(q.store, lbl, key, row, q.touched, n);
    var c := Copies(row, n + 1);
    assert c[0] == row && c[1..] == Copies(row, n);
    var rest := MergeNodes(q.store, lbl, key, c[1..]).value;
    assert rest.store == q.store && q.touched + rest.touched == q.touched;
  }
}
