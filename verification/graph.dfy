/**
 The Neo4j graph the push scripts reconcile, and each Cypher statement they
 run as a function from one graph to the next.

 A node has an identity, a set of labels and a property map; a relationship
 is identified by (source, type, target) and carries a property map. Every
 relationship the scripts write is created by MERGE, which never makes a
 second relationship of the same type between the same two nodes, so the
 relationship map holds at most one per (source, type, target). `next` is
 the identity the next created node receives.

 The reconciliation cycle is mark (`Mark`), upsert (`RunAll`) and sweep
 (`Sweep`); `CycleSurvivors` is the property the cycle exists for.
 */
module Graph {
  import opened Json
  import opened Text

  type Props = map<string, Json>

  datatype Node = Node(labels: set<string>, props: Props)
  datatype EdgeKey = EdgeKey(src: nat, rel: string, dst: nat)
  datatype Store = Store(nodes: map<nat, Node>, edges: map<EdgeKey, Props>, next: nat)

  const ProdRouter := "PROD_ROUTER"
  const ProdIp := "PROD_IP"
  const ProdLogical := "PROD_INT_LOGICAL"
  const BelongsTo := "PROD_IP_BELONGS_TO"
  const IsisLink := "PROD_IP_ISIS_LINK"
  const RoutingLink := "PROD_ROUTING_LINK"
  const LogicalOfRouter := "PROD_LOGICAL_OF_ROUTER"
  const IpOfInterface := "PROD_IP_OF_INTERFACE"

  /** Identities below `next`, and relationships only between existing nodes. */
  predicate Valid(s: Store) {
    && (forall id | id in s.nodes :: id < s.next)
    && (forall e | e in s.edges :: e.src in s.nodes && e.dst in s.nodes)
  }

  /** A property read in Cypher: a missing property reads as null. */
  function Prop(p: Props, k: string): Json {
    if k in p then p[k] else Null
  }

  function NodeProp(s: Store, id: nat, k: string): Json {
    if id in s.nodes then Prop(s.nodes[id].props, k) else Null
  }

  /** `WHERE x.delete = true`: only the boolean true qualifies. */
  predicate Flagged(p: Props) {
    "delete" in p && p["delete"] == Bool(true)
  }

  /** `any(label IN labels(n) WHERE label STARTS WITH 'PROD_')` */
  predicate IsProd(labels: set<string>) {
    exists l | l in labels :: StartsWith(l, "PROD_")
  }

  // ---------------------------------------------------------------------------
  // SET x += m, SET x.k = v
  // ---------------------------------------------------------------------------

  /**
   `SET x += m`: every entry of `m` is written, and an entry whose value is
   null removes that property instead; properties `m` does not mention stay.
   */
  function SetAll(p: Props, m: Props): (r: Props)
    ensures forall k | k in m && m[k] != Null :: k in r && r[k] == m[k]
    ensures forall k | k in m && m[k] == Null :: k !in r
    ensures forall k | k !in m :: (k in r <==> k in p) && (k in p ==> r[k] == p[k])
  {
    map k | k in p.Keys + m.Keys && (k in m ==> m[k] != Null) :: if k in m then m[k] else p[k]
  }

  /** Writing the same map twice is writing it once. */
  lemma SetAllTwice(p: Props, m: Props)
    ensures SetAll(SetAll(p, m), m) == SetAll(p, m)
  {
  }

  // ---------------------------------------------------------------------------
  // Mark: set_delete_attribute
  // ---------------------------------------------------------------------------

  predicate ProdEdge(s: Store, e: EdgeKey) {
    e.src in s.nodes && e.dst in s.nodes && IsProd(s.nodes[e.src].labels) && IsProd(s.nodes[e.dst].labels)
  }

  /**
   Every node carrying a `PROD_` label, and every relationship (in either
   direction) between two such nodes, gets `delete = flag`.
   */
  function Mark(s: Store, flag: bool): (r: Store)
    ensures r.nodes.Keys == s.nodes.Keys && r.edges.Keys == s.edges.Keys && r.next == s.next
    ensures forall id | id in s.nodes ::
      && r.nodes[id].labels == s.nodes[id].labels
      && r.nodes[id].props == (if IsProd(s.nodes[id].labels) then s.nodes[id].props["delete" := Bool(flag)] else s.nodes[id].props)
    ensures forall e | e in s.edges ::
      r.edges[e] == (if ProdEdge(s, e) then s.edges[e]["delete" := Bool(flag)] else s.edges[e])
  {
    Store(
      map id | id in s.nodes ::
        if IsProd(s.nodes[id].labels) then s.nodes[id].(props := s.nodes[id].props["delete" := Bool(flag)]) else s.nodes[id],
      map e | e in s.edges :: if ProdEdge(s, e) then s.edges[e]["delete" := Bool(flag)] else s.edges[e],
      s.next)
  }

  /** After marking with true, a node is flagged exactly when it is a `PROD_` node or was flagged already. */
  lemma MarkFlags(s: Store, id: nat)
    requires id in s.nodes
    ensures Flagged(Mark(s, true).nodes[id].props) <==> IsProd(s.nodes[id].labels) || Flagged(s.nodes[id].props)
  {
  }

  // ---------------------------------------------------------------------------
  // MERGE (n:L {k: v}) SET n += props
  // ---------------------------------------------------------------------------

  /** `MATCH (n:L {k: v})`: a null value matches nothing. */
  function Matches(s: Store, lbl: string, key: string, v: Json): (r: set<nat>)
    ensures forall id :: id in r <==>
      id in s.nodes && v != Null && lbl in s.nodes[id].labels && key in s.nodes[id].props && s.nodes[id].props[key] == v
  {
    set id | id in s.nodes && v != Null && lbl in s.nodes[id].labels && key in s.nodes[id].props && s.nodes[id].props[key] == v
  }

  /** One row of an UNWIND batch of node upserts: the merge key's value and the properties to write. */
  datatype NodeRow = NodeRow(key: Json, props: Props)

  /** A store and the nodes the statements so far have merged (matched or created). */
  datatype Pushed = Pushed(store: Store, touched: set<nat>)

  /** SET on every node in `ids`. */
  function SetNodes(nodes: map<nat, Node>, ids: set<nat>, m: Props): (r: map<nat, Node>)
    ensures r.Keys == nodes.Keys
    ensures forall id | id in nodes :: r[id] == (if id in ids then nodes[id].(props := SetAll(nodes[id].props, m)) else nodes[id])
  {
    map id | id in nodes :: if id in ids then nodes[id].(props := SetAll(nodes[id].props, m)) else nodes[id]
  }

  /**
   `MERGE (n:L {k: row.key}) SET n += row.props`: the nodes that match are
   updated; when none does, one node labelled L with k = key is created and
   then updated. Merging on a null value is a Cypher error.
   */
  function MergeNode(s: Store, lbl: string, key: string, row: NodeRow): (r: Result<Pushed>)
    ensures r.Ok? <==> row.key != Null
    ensures r.Ok? ==> r.value.store.edges == s.edges
  {
    if row.key == Null then Err("CypherTypeError")
    else
      var m := Matches(s, lbl, key, row.key);
      if m == {} then
        var n := Node({lbl}, SetAll(map[key := row.key], row.props));
        Ok(Pushed(Store(s.nodes[s.next := n], s.edges, s.next + 1), {s.next}))
      else
        Ok(Pushed(s.(nodes := SetNodes(s.nodes, m, row.props)), m))
  }

  /** What a merge guarantees: the merged nodes carry the label and the row's properties, nothing else changes. */
  lemma MergeNodeSpec(s: Store, lbl: string, key: string, row: NodeRow)
    requires Valid(s) && row.key != Null
    ensures var p := MergeNode(s, lbl, key, row).value;
      && Valid(p.store)
      && p.touched != {}
      && s.nodes.Keys <= p.store.nodes.Keys
      && (forall id | id in s.nodes :: p.store.nodes[id].labels == s.nodes[id].labels)
      && (forall id | id in p.touched :: id in p.store.nodes && lbl in p.store.nodes[id].labels)
      && (forall id | id in p.touched && id in s.nodes :: p.store.nodes[id].props == SetAll(s.nodes[id].props, row.props))
      && (forall id | id in p.touched && id !in s.nodes :: p.store.nodes[id] == Node({lbl}, SetAll(map[key := row.key], row.props)))
      && (forall id | id in p.store.nodes && id !in p.touched :: id in s.nodes && p.store.nodes[id] == s.nodes[id])
  {
  }

  /** When the row does not overwrite its own key, the merged nodes are exactly the nodes the key now matches. */
  lemma MergeNodeFinds(s: Store, lbl: string, key: string, row: NodeRow)
    requires Valid(s) && row.key != Null && key !in row.props
    ensures var p := MergeNode(s, lbl, key, row).value;
      p.touched == Matches(p.store, lbl, key, row.key)
  {
  }

  /**
   `UNWIND $batch AS row MERGE (n:L {k: row.key}) SET n += row.props`: the
   rows in order, each seeing what the earlier ones wrote. The scripts skip
   the statement for an empty batch, which is the same as running no rows.
   */
  function MergeNodes(s: Store, lbl: string, key: string, rows: seq<NodeRow>): (r: Result<Pushed>)
    ensures r.Ok? <==> forall i | 0 <= i < |rows| :: rows[i].key != Null
    ensures r.Ok? ==> r.value.store.edges == s.edges
    decreases |rows|
  {
    if rows == [] then Ok(Pushed(s, {}))
    else
      var p :- MergeNode(s, lbl, key, rows[0]);
      var q :- MergeNodes(p.store, lbl, key, rows[1..]);
      Ok(Pushed(q.store, p.touched + q.touched))
  }

  // ---------------------------------------------------------------------------
  // Merging again changes nothing; merge keys stay unique
  // ---------------------------------------------------------------------------

  /** At most one node labelled `lbl` per value of `key`: what a uniqueness constraint on (lbl, key) holds. */
  predicate Unique(s: Store, lbl: string, key: string) {
    forall a, b | a in s.nodes && b in s.nodes && lbl in s.nodes[a].labels && lbl in s.nodes[b].labels ::
      key in s.nodes[a].props && key in s.nodes[b].props && s.nodes[a].props[key] == s.nodes[b].props[key] ==> a == b
  }

  /** MERGE never makes a second node with the same label and key value. */
  lemma MergeNodeUnique(s: Store, lbl: string, key: string, row: NodeRow)
    requires Valid(s) && Unique(s, lbl, key) && row.key != Null && key !in row.props
    ensures Unique(MergeNode(s, lbl, key, row).value.store, lbl, key)
  {
    MergeNodeSpec(s, lbl, key, row);
  }

  /** Merging the same row a second time leaves the graph as the first merge left it. */
  lemma MergeNodeTwice(s: Store, lbl: string, key: string, row: NodeRow)
    requires Valid(s) && row.key != Null && key !in row.props
    ensures var q := MergeNode(s, lbl, key, row).value;
      MergeNode(q.store, lbl, key, row) == Ok(Pushed(q.store, q.touched))
  {
    var q := MergeNode(s, lbl, key, row).value;
    MergeNodeSpec(s, lbl, key, row);
    MergeNodeFinds(s, lbl, key, row);
    var again := SetNodes(q.store.nodes, q.touched, row.props);
    forall id | id in q.touched
      ensures again[id] == q.store.nodes[id]
    {
      if id in s.nodes {
        SetAllTwice(s.nodes[id].props, row.props);
      } else {
        SetAllTwice(map[key := row.key], row.props);
      }
    }
    assert again == q.store.nodes;
  }

  /** A merge keeps every match there was: labels and, when the row leaves the key alone, key values do not change. */
  lemma MergeNodeKeeps(s: Store, lbl: string, key: string, row: NodeRow, v: Json)
    requires Valid(s) && row.key != Null && key !in row.props
    ensures Matches(s, lbl, key, v) <= Matches(MergeNode(s, lbl, key, row).value.store, lbl, key, v)
  {
    MergeNodeSpec(s, lbl, key, row);
  }

  lemma {:induction false} MergeNodesKeeps(s: Store, lbl: string, key: string, rows: seq<NodeRow>, v: Json)
    requires Valid(s) && MergeNodes(s, lbl, key, rows).Ok?
    requires forall i | 0 <= i < |rows| :: key !in rows[i].props
    ensures Matches(s, lbl, key, v) <= Matches(MergeNodes(s, lbl, key, rows).value.store, lbl, key, v)
    decreases |rows|
  {
    if rows != [] {
      var q := MergeNode(s, lbl, key, rows[0]).value;
      MergeNodeKeeps(s, lbl, key, rows[0], v);
      MergeNodeSpec(s, lbl, key, rows[0]);
      MergeNodesKeeps(q.store, lbl, key, rows[1..], v);
    }
  }

  /** After a batch every row's key matches a node. */
  lemma {:induction false} MergeNodesFound(s: Store, lbl: string, key: string, rows: seq<NodeRow>)
    requires Valid(s) && MergeNodes(s, lbl, key, rows).Ok?
    requires forall i | 0 <= i < |rows| :: key !in rows[i].props
    ensures forall i | 0 <= i < |rows| :: Matches(MergeNodes(s, lbl, key, rows).value.store, lbl, key, rows[i].key) != {}
    decreases |rows|
  {
    if rows != [] {
      var q := MergeNode(s, lbl, key, rows[0]).value;
      MergeNodeSpec(s, lbl, key, rows[0]);
      MergeNodeFinds(s, lbl, key, rows[0]);
      MergeNodesKeeps(q.store, lbl, key, rows[1..], rows[0].key);
      MergeNodesFound(q.store, lbl, key, rows[1..]);
      forall i | 1 <= i < |rows|
        ensures Matches(MergeNodes(s, lbl, key, rows).value.store, lbl, key, rows[i].key) != {}
      {
        assert rows[i] == rows[1..][i - 1];
      }
    }
  }

  /** A batch whose keys all match already creates no node. */
  lemma {:induction false} MergeNodesNoNew(s: Store, lbl: string, key: string, rows: seq<NodeRow>)
    requires Valid(s)
    requires forall i | 0 <= i < |rows| :: key !in rows[i].props && rows[i].key != Null && Matches(s, lbl, key, rows[i].key) != {}
    ensures MergeNodes(s, lbl, key, rows).Ok?
    ensures MergeNodes(s, lbl, key, rows).value.store.nodes.Keys == s.nodes.Keys
    decreases |rows|
  {
    if rows != [] {
      var q := MergeNode(s, lbl, key, rows[0]).value;
      MergeNodeSpec(s, lbl, key, rows[0]);
      forall i | 1 <= i < |rows|
        ensures Matches(q.store, lbl, key, rows[i].key) != {}
      {
        MergeNodeKeeps(s, lbl, key, rows[0], rows[i].key);
      }
      MergeNodesNoNew(q.store, lbl, key, rows[1..]);
    }
  }

  /** Pushing the same node batch twice: the second run creates no node. */
  lemma MergeNodesAgain(s: Store, lbl: string, key: string, rows: seq<NodeRow>)
    requires Valid(s) && MergeNodes(s, lbl, key, rows).Ok?
    requires forall i | 0 <= i < |rows| :: key !in rows[i].props
    ensures var q := MergeNodes(s, lbl, key, rows).value.store;
      MergeNodes(q, lbl, key, rows).Ok? && MergeNodes(q, lbl, key, rows).value.store.nodes.Keys == q.nodes.Keys
  {
    MergeNodesValid(s, lbl, key, rows);
    MergeNodesFound(s, lbl, key, rows);
    MergeNodesNoNew(MergeNodes(s, lbl, key, rows).value.store, lbl, key, rows);
  }

  // ---------------------------------------------------------------------------
  // MATCH (a:L1 {k1: row.src}) MATCH (b:L2 {k2: row.dst}) MERGE (a)-[:T]->(b) SET += props
  // ---------------------------------------------------------------------------

  /** The two matches and the relationship type of one relationship statement. */
  datatype EdgeSpec = EdgeSpec(srcLabel: string, srcKey: string, rel: string, dstLabel: string, dstKey: string)

  datatype EdgeRow = EdgeRow(src: Json, dst: Json, props: Props)

  function Pairs(a: set<nat>, rel: string, b: set<nat>): (r: set<EdgeKey>)
    ensures forall e :: e in r <==> e.src in a && e.rel == rel && e.dst in b
  {
    set x, y | x in a && y in b :: EdgeKey(x, rel, y)
  }

  /** The properties of a relationship, or none when it does not exist yet. */
  function PropsAt(edges: map<EdgeKey, Props>, e: EdgeKey): Props {
    if e in edges then edges[e] else map[]
  }

  /** SET on every relationship in `ks`, creating (MERGE) those that do not exist yet. */
  function SetEdges(edges: map<EdgeKey, Props>, ks: set<EdgeKey>, m: Props): (r: map<EdgeKey, Props>)
    ensures r.Keys == edges.Keys + ks
    ensures forall e | e in ks :: r[e] == SetAll(PropsAt(edges, e), m)
    ensures forall e | e in edges && e !in ks :: r[e] == edges[e]
  {
    map e | e in edges.Keys + ks :: if e in ks then SetAll(PropsAt(edges, e), m) else edges[e]
  }

  /** One row: a relationship of type T from every source match to every target match. */
  function MergeEdge(s: Store, spec: EdgeSpec, row: EdgeRow): (r: Store)
    ensures r.nodes == s.nodes && r.next == s.next
  {
    var a := Matches(s, spec.srcLabel, spec.srcKey, row.src);
    var b := Matches(s, spec.dstLabel, spec.dstKey, row.dst);
    s.(edges := SetEdges(s.edges, Pairs(a, spec.rel, b), row.props))
  }

  /**
   A relationship row writes exactly the relationships between the matched
   endpoints; when either endpoint is missing (or its key is null) nothing
   changes at all.
   */
  lemma MergeEdgeSpec(s: Store, spec: EdgeSpec, row: EdgeRow)
    requires Valid(s)
    ensures var a := Matches(s, spec.srcLabel, spec.srcKey, row.src);
      var b := Matches(s, spec.dstLabel, spec.dstKey, row.dst);
      var r := MergeEdge(s, spec, row);
      && Valid(r)
      && ((a == {} || b == {}) ==> r == s)
      && (forall x, y | x in a && y in b ::
            EdgeKey(x, spec.rel, y) in r.edges && r.edges[EdgeKey(x, spec.rel, y)] == SetAll(PropsAt(s.edges, EdgeKey(x, spec.rel, y)), row.props))
      && (forall e | e in r.edges && !(e.src in a && e.rel == spec.rel && e.dst in b) :: e in s.edges && r.edges[e] == s.edges[e])
  {
    var a := Matches(s, spec.srcLabel, spec.srcKey, row.src);
    var b := Matches(s, spec.dstLabel, spec.dstKey, row.dst);
    if a == {} || b == {} {
      assert Pairs(a, spec.rel, b) == {};
      assert MergeEdge(s, spec, row).edges == s.edges;
    }
  }

  /** A relationship statement over a whole batch, row by row. */
  function MergeEdges(s: Store, spec: EdgeSpec, rows: seq<EdgeRow>): (r: Store)
    ensures r.nodes == s.nodes && r.next == s.next
    decreases |rows|
  {
    if rows == [] then s else MergeEdges(MergeEdge(s, spec, rows[0]), spec, rows[1..])
  }

  // ---------------------------------------------------------------------------
  // create_routing_relationship
  // ---------------------------------------------------------------------------

  /** One row of `MATCH (r1)<-[:PROD_IP_BELONGS_TO]-(l1)-[ip:PROD_IP_ISIS_LINK]->(l2)-[:PROD_IP_BELONGS_TO]->(r2)`. */
  datatype Route = Route(r1: nat, l1: nat, l2: nat, r2: nat)

  /** A pattern never binds the same relationship twice, so l1 = l2 with r1 = r2 is no match. */
  predicate IsRoute(s: Store, m: Route) {
    && EdgeKey(m.l1, BelongsTo, m.r1) in s.edges
    && EdgeKey(m.l1, IsisLink, m.l2) in s.edges
    && EdgeKey(m.l2, BelongsTo, m.r2) in s.edges
    && !(m.l1 == m.l2 && m.r1 == m.r2)
  }

  function RouteKey(m: Route): EdgeKey {
    EdgeKey(m.r1, RoutingLink, m.r2)
  }

  /**
   Cypher `toInteger`: integers unchanged, floats truncated, booleans as 1/0,
   strings parsed (null when they are not integers), null stays null; a list
   or map is a type error.
   */
  function ToInteger(v: Json): (r: Result<Json>)
    ensures r.Ok? <==> !(v.Arr? || v.Obj?)
    ensures r.Ok? ==> r.value.Null? || r.value.Int?
    ensures v.Int? || v.Null? ==> r == Ok(v)
    ensures v.Float? ==> r == Ok(Int(Trunc(v.r)))
  {
    match v
    case Null => Ok(Null)
    case Int(_) => Ok(v)
    case Bool(b) => Ok(Int(if b then 1 else 0))
    case Float(f) => Ok(Int(Trunc(f)))
    case Str(t) => Ok(match ParseInt(t) case Some(n) => Int(n) case None => Null)
    case _ => Err("TypeError")
  }

  /** The properties a routing link is given. */
  const RouteKeys := {"igp_metric", "sr_adjacency_sid", "src_rtr", "dest_rtr", "src_ip", "dest_ip", "update_time", "delete"}

  /** The eight properties one match writes onto the routing link (a null value removes the property). */
  function RouteProps(s: Store, m: Route): (r: Result<Props>)
    ensures r.Ok? <==> ToInteger(Prop(PropsAt(s.edges, EdgeKey(m.l1, IsisLink, m.l2)), "igp_metric")).Ok?
    ensures r.Ok? ==> r.value.Keys == RouteKeys
    ensures r.Ok? ==> "delete" in r.value && r.value["delete"] == Prop(PropsAt(s.edges, EdgeKey(m.l1, IsisLink, m.l2)), "delete")
    ensures r.Ok? ==> var metric := ToInteger(Prop(PropsAt(s.edges, EdgeKey(m.l1, IsisLink, m.l2)), "igp_metric"));
      metric.Ok? && "igp_metric" in r.value && r.value["igp_metric"] == metric.value
    ensures r.Ok? ==> var ip := PropsAt(s.edges, EdgeKey(m.l1, IsisLink, m.l2));
      && r.value["sr_adjacency_sid"] == Prop(ip, "sr_adjacency_sid")
      && r.value["update_time"] == Prop(ip, "update_time")
    ensures r.Ok? ==>
      && r.value["src_rtr"] == NodeProp(s, m.r1, "name") && r.value["dest_rtr"] == NodeProp(s, m.r2, "name")
      && r.value["src_ip"] == NodeProp(s, m.l1, "ip") && r.value["dest_ip"] == NodeProp(s, m.l2, "ip")
  {
    var ip := PropsAt(s.edges, EdgeKey(m.l1, IsisLink, m.l2));
    var metric :- ToInteger(Prop(ip, "igp_metric"));
    Ok(map[
      "igp_metric" := metric,
      "sr_adjacency_sid" := Prop(ip, "sr_adjacency_sid"),
      "src_rtr" := NodeProp(s, m.r1, "name"),
      "dest_rtr" := NodeProp(s, m.r2, "name"),
      "src_ip" := NodeProp(s, m.l1, "ip"),
      "dest_ip" := NodeProp(s, m.l2, "ip"),
      "update_time" := Prop(ip, "update_time"),
      "delete" := Prop(ip, "delete")])
  }

  /**
   MERGE and SET for each row in the order the engine produces them (`order`;
   entries that are not matches of `s` produce no row). The pattern only reads
   IP nodes and the IP relationships, which the statement does not write, so
   every row reads `s`.
   */
  function Derive(s: Store, edges: map<EdgeKey, Props>, order: seq<Route>): (r: Result<map<EdgeKey, Props>>)
    decreases |order|
  {
    if order == [] then Ok(edges)
    else if !IsRoute(s, order[0]) then Derive(s, edges, order[1..])
    else
      var p :- RouteProps(s, order[0]);
      Derive(s, SetEdges(edges, {RouteKey(order[0])}, p), order[1..])
  }

  function DeriveRouting(s: Store, order: seq<Route>): (r: Result<Store>)
    ensures r.Ok? ==> r.value.nodes == s.nodes && r.value.next == s.next
  {
    var es :- Derive(s, s.edges, order);
    Ok(s.(edges := es))
  }

  // ---------------------------------------------------------------------------
  // add_distance_attribute
  // ---------------------------------------------------------------------------

  /** The fixed distance table, one row per direction. */
  const DistanceTable: seq<(string, string, int)> := [
    ("R1", "R2", 20), ("R2", "R1", 20),
    ("R1", "R3", 100), ("R3", "R1", 100),
    ("R2", "R3", 50), ("R3", "R2", 50)]

  /** The first table row from index `i` on naming `a` and `b`. */
  function DistanceFrom(i: nat, a: Json, b: Json): Option<int>
    decreases |DistanceTable| - i
  {
    if i >= |DistanceTable| then None
    else if a == Str(DistanceTable[i].0) && b == Str(DistanceTable[i].1) then Some(DistanceTable[i].2)
    else DistanceFrom(i + 1, a, b)
  }

  /** The distance the table gives a routing link between routers named `a` and `b`. */
  function Distance(a: Json, b: Json): Option<int> {
    DistanceFrom(0, a, b)
  }

  /**
   `MATCH (n1 {name: from})-[r:PROD_ROUTING_LINK]->(n2 {name: to}) SET
   r.distance = d`: any label, matched by the `name` property only.
   */
  function SetDistances(s: Store): (r: Store)
    ensures r.nodes == s.nodes && r.next == s.next && r.edges.Keys == s.edges.Keys
  {
    s.(edges := map e | e in s.edges ::
      match (if e.rel == RoutingLink then Distance(NodeProp(s, e.src, "name"), NodeProp(s, e.dst, "name")) else None)
      case Some(d) => s.edges[e]["distance" := Int(d)]
      case None => s.edges[e])
  }

  // ---------------------------------------------------------------------------
  // create_ip_logical_relationship
  // ---------------------------------------------------------------------------

  /**
   `ip.uid_isis_router_name = logical.router + '_' + logical.ip`; a missing
   operand makes both sides null and the comparison fails.
   */
  predicate NameJoins(s: Store, ip: nat, lg: nat) {
    var want := NodeProp(s, ip, "uid_isis_router_name");
    var rt := NodeProp(s, lg, "router");
    var a := NodeProp(s, lg, "ip");
    want.Str? && rt.Str? && a.Str? && want.s == rt.s + "_" + a.s
  }

  /** `(ip)-[:PROD_IP_BELONGS_TO]->(:PROD_ROUTER)<-[:PROD_LOGICAL_OF_ROUTER]-(logical)` */
  predicate ViaRouter(s: Store, ip: nat, lg: nat) {
    exists rt | rt in s.nodes ::
      ProdRouter in s.nodes[rt].labels && EdgeKey(ip, BelongsTo, rt) in s.edges && EdgeKey(lg, LogicalOfRouter, rt) in s.edges
  }

  predicate IpOf(s: Store, ip: nat, lg: nat) {
    && ip in s.nodes && lg in s.nodes
    && ProdIp in s.nodes[ip].labels && ProdLogical in s.nodes[lg].labels
    && ViaRouter(s, ip, lg) && NameJoins(s, ip, lg)
  }

  /** The relationship each matched pair gets; both properties are copied from the IP node. */
  function IpLinks(s: Store): (r: set<EdgeKey>)
    ensures forall e :: e in r <==> e.rel == IpOfInterface && IpOf(s, e.src, e.dst)
  {
    set ip, lg | ip in s.nodes && lg in s.nodes && IpOf(s, ip, lg) :: EdgeKey(ip, IpOfInterface, lg)
  }

  /** What each PROD_IP_OF_INTERFACE gets: the IP node's `update_time` and `delete`. */
  function IpProps(s: Store, e: EdgeKey): Props {
    map["update_time" := NodeProp(s, e.src, "update_time"), "delete" := NodeProp(s, e.src, "delete")]
  }

  function LinkIpLogical(s: Store): (r: Store)
    ensures r.nodes == s.nodes && r.next == s.next
    ensures r.edges.Keys == s.edges.Keys + IpLinks(s)
    ensures forall e | e in IpLinks(s) :: r.edges[e] == SetAll(PropsAt(s.edges, e), IpProps(s, e))
    ensures forall e | e in s.edges && e !in IpLinks(s) :: r.edges[e] == s.edges[e]
  {
    var ks := IpLinks(s);
    s.(edges := map e | e in s.edges.Keys + ks :: if e in ks then SetAll(PropsAt(s.edges, e), IpProps(s, e)) else s.edges[e])
  }

  // ---------------------------------------------------------------------------
  // What the derived statements write
  // ---------------------------------------------------------------------------

  /** `p` holds every entry of `m` as Cypher reads it back (a null entry reads back as a missing property). */
  predicate Carries(p: Props, m: Props) {
    forall k | k in m :: Prop(p, k) == m[k]
  }

  lemma SetAllCarries(p: Props, m: Props)
    ensures Carries(SetAll(p, m), m)
  {
  }

  /** The last row of `order` that matches and writes the relationship `e`, if any. */
  function LastRoute(s: Store, order: seq<Route>, e: EdgeKey): (r: Option<Route>)
    ensures r.Some? ==> r.value in order && IsRoute(s, r.value) && RouteKey(r.value) == e
    ensures r.None? <==> forall i | 0 <= i < |order| :: !(IsRoute(s, order[i]) && RouteKey(order[i]) == e)
    decreases |order|
  {
    if order == [] then None
    else
      var later := LastRoute(s, order[1..], e);
      if later.Some? then later
      else if IsRoute(s, order[0]) && RouteKey(order[0]) == e then Some(order[0])
      else None
  }

  /**
   The derivation writes the routing link of each match, and the properties
   a link ends with are those of the last match in `order` that writes it;
   every other relationship keeps its properties.
   */
  lemma {:induction false} DeriveSpec(s: Store, edges: map<EdgeKey, Props>, order: seq<Route>)
    requires Derive(s, edges, order).Ok?
    ensures var r := Derive(s, edges, order).value;
      && (forall e :: e in r <==> e in edges || LastRoute(s, order, e).Some?)
      && (forall e | e in r && LastRoute(s, order, e).None? :: r[e] == edges[e])
      && (forall e | e in r && LastRoute(s, order, e).Some? ::
            RouteProps(s, LastRoute(s, order, e).value).Ok? && Carries(r[e], RouteProps(s, LastRoute(s, order, e).value).value))
  {
    forall e {
      DeriveAt(s, edges, order, e);
    }
  }

  /** `DeriveSpec` for one relationship, by induction on the rows. */
  lemma {:induction false} DeriveAt(s: Store, edges: map<EdgeKey, Props>, order: seq<Route>, e: EdgeKey)
    requires Derive(s, edges, order).Ok?
    ensures var r := Derive(s, edges, order).value;
      && (e in r <==> e in edges || LastRoute(s, order, e).Some?)
      && (e in r && LastRoute(s, order, e).None? ==> r[e] == edges[e])
      && (e in r && LastRoute(s, order, e).Some? ==>
            RouteProps(s, LastRoute(s, order, e).value).Ok? && Carries(r[e], RouteProps(s, LastRoute(s, order, e).value).value))
    decreases |order|
  {
    if order != [] {
      var m := order[0];
      if !IsRoute(s, m) {
        DeriveAt(s, edges, order[1..], e);
      } else {
        var p := RouteProps(s, m).value;
        DeriveStep(s, edges, order, p);
        var next := SetEdges(edges, {RouteKey(m)}, p);
        DeriveAt(s, next, order[1..], e);
        if e == RouteKey(m) {
          SetAllCarries(PropsAt(edges, e), p);
        }
      }
    }
  }

  /** One row of the derivation that matches. */
  lemma DeriveStep(s: Store, edges: map<EdgeKey, Props>, order: seq<Route>, p: Props)
    requires order != [] && IsRoute(s, order[0]) && RouteProps(s, order[0]) == Ok(p)
    ensures Derive(s, edges, order) == Derive(s, SetEdges(edges, {RouteKey(order[0])}, p), order[1..])
  {
  }

  /** Every match the engine enumerates is in `order`. */
  ghost predicate Covers(s: Store, order: seq<Route>) {
    forall m | IsRoute(s, m) :: m in order
  }

  /**
   create_routing_relationship: one PROD_ROUTING_LINK from r1 to r2 for each
   IS-IS adjacency l1 -> l2 whose ends belong to r1 and r2, carrying the
   adjacency's metric (as an integer) and `delete` flag; no other
   relationship is created and none but routing links changes.
   */
  lemma RoutingLinks(s: Store, order: seq<Route>)
    requires Covers(s, order) && DeriveRouting(s, order).Ok?
    ensures var r := DeriveRouting(s, order).value;
      && (forall m | IsRoute(s, m) :: RouteKey(m) in r.edges)
      && (forall e | e in r.edges && e !in s.edges :: exists m | m in order :: IsRoute(s, m) && RouteKey(m) == e)
      && (forall e | e in r.edges && e.rel != RoutingLink :: e in s.edges && r.edges[e] == s.edges[e])
      && (forall e | e in r.edges && LastRoute(s, order, e).Some? ::
            RouteProps(s, LastRoute(s, order, e).value).Ok? && Carries(r.edges[e], RouteProps(s, LastRoute(s, order, e).value).value))
  {
    DeriveSpec(s, s.edges, order);
    var r := DeriveRouting(s, order).value;
    forall m | IsRoute(s, m)
      ensures RouteKey(m) in r.edges
    {
      var i :| 0 <= i < |order| && order[i] == m;
      assert LastRoute(s, order, RouteKey(m)).Some?;
    }
  }

  /**
   Which adjacency's properties a routing link ends with depends on the
   order of the match rows: when two adjacencies between the same routers
   carry different `delete` flags (one written this cycle, one left from an
   earlier one), two row orders that end on different ones leave the link
   flagged in one and not in the other.
   */
  lemma RouteOrderMatters(s: Store, o1: seq<Route>, o2: seq<Route>, k: EdgeKey)
    requires Derive(s, s.edges, o1).Ok? && Derive(s, s.edges, o2).Ok?
    requires LastRoute(s, o1, k).Some? && LastRoute(s, o2, k).Some?
    requires var m1 := LastRoute(s, o1, k).value; var m2 := LastRoute(s, o2, k).value;
      Prop(s.edges[EdgeKey(m1.l1, IsisLink, m1.l2)], "delete") != Prop(s.edges[EdgeKey(m2.l1, IsisLink, m2.l2)], "delete")
    ensures var r1 := Derive(s, s.edges, o1).value; var r2 := Derive(s, s.edges, o2).value;
      k in r1 && k in r2 && Prop(r1[k], "delete") != Prop(r2[k], "delete")
  {
    DeriveAt(s, s.edges, o1, k);
    DeriveAt(s, s.edges, o2, k);
    CarriedDelete(Derive(s, s.edges, o1).value[k], RouteProps(s, LastRoute(s, o1, k).value).value);
    CarriedDelete(Derive(s, s.edges, o2).value[k], RouteProps(s, LastRoute(s, o2, k).value).value);
  }

  lemma CarriedDelete(r: Props, p: Props)
    requires Carries(r, p) && "delete" in p
    ensures Prop(r, "delete") == p["delete"]
  {
  }

  /** The table is symmetric and names exactly the three pairs of R1, R2 and R3. */
  lemma DistanceTableSpec(a: Json, b: Json)
    ensures Distance(a, b) == Distance(b, a)
    ensures Distance(a, b).Some? <==> a != b && a in {Str("R1"), Str("R2"), Str("R3")} && b in {Str("R1"), Str("R2"), Str("R3")}
    ensures Distance(Str("R1"), Str("R2")) == Some(20)
    ensures Distance(Str("R1"), Str("R3")) == Some(100)
    ensures Distance(Str("R2"), Str("R3")) == Some(50)
  {
  }

  /**
   add_distance_attribute writes `distance` on the routing links whose end
   nodes are named by the table, and changes nothing else.
   */
  lemma SetDistancesSpec(s: Store)
    ensures var r := SetDistances(s);
      forall e | e in s.edges ::
        var d := if e.rel == RoutingLink then Distance(NodeProp(s, e.src, "name"), NodeProp(s, e.dst, "name")) else None;
        && (d.Some? ==> r.edges[e] == s.edges[e]["distance" := Int(d.value)])
        && (d.None? ==> r.edges[e] == s.edges[e])
  {
  }

  /**
   create_ip_logical_relationship: a PROD_IP_OF_INTERFACE from each IP to
   each logical interface of the same router whose `router_ip` name is the
   IP's `uid_isis_router_name`, copying the IP's `update_time` and `delete`.
   */
  lemma IpLogicalSpec(s: Store)
    ensures var r := LinkIpLogical(s);
      forall e | e in IpLinks(s) ::
        e in r.edges && Prop(r.edges[e], "delete") == NodeProp(s, e.src, "delete") && Prop(r.edges[e], "update_time") == NodeProp(s, e.src, "update_time")
  {
    forall e | e in IpLinks(s)
      ensures var r := LinkIpLogical(s);
        e in r.edges && Prop(r.edges[e], "delete") == NodeProp(s, e.src, "delete") && Prop(r.edges[e], "update_time") == NodeProp(s, e.src, "update_time")
    {
      IpLinkCarries(s, LinkIpLogical(s), e);
    }
  }

  lemma IpLinkCarries(s: Store, r: Store, e: EdgeKey)
    requires e in r.edges && r.edges[e] == SetAll(PropsAt(s.edges, e), IpProps(s, e))
    ensures Prop(r.edges[e], "delete") == NodeProp(s, e.src, "delete") && Prop(r.edges[e], "update_time") == NodeProp(s, e.src, "update_time")
  {
    SetAllCarries(PropsAt(s.edges, e), IpProps(s, e));
  }

  lemma IpLogicalValid(s: Store)
    requires Valid(s)
    ensures Valid(LinkIpLogical(s))
  {
  }

  // ---------------------------------------------------------------------------
  // A cycle's statements
  // ---------------------------------------------------------------------------

  /** The write statements a push script runs between mark and sweep. */
  datatype Stmt =
    | NodeStmt(lbl: string, key: string, rows: seq<NodeRow>)
    | EdgeStmt(spec: EdgeSpec, erows: seq<EdgeRow>)
    | RoutingStmt(order: seq<Route>)
    | DistanceStmt
    | IpLogicalStmt

  function Exec(s: Store, st: Stmt): (r: Result<Pushed>)
    ensures r.Ok? && !st.NodeStmt? ==> r.value.touched == {} && r.value.store.nodes == s.nodes && r.value.store.next == s.next
  {
    match st
    case NodeStmt(l, k, rows) => MergeNodes(s, l, k, rows)
    case EdgeStmt(spec, rows) => Ok(Pushed(MergeEdges(s, spec, rows), {}))
    case RoutingStmt(order) =>
      var t :- DeriveRouting(s, order);
      Ok(Pushed(t, {}))
    case DistanceStmt => Ok(Pushed(SetDistances(s), {}))
    case IpLogicalStmt => Ok(Pushed(LinkIpLogical(s), {}))
  }

  /** The statements in order; the first error ends the script. */
  function RunAll(s: Store, stmts: seq<Stmt>): (r: Result<Pushed>)
    decreases |stmts|
  {
    if stmts == [] then Ok(Pushed(s, {}))
    else
      var p :- Exec(s, stmts[0]);
      var q :- RunAll(p.store, stmts[1..]);
      Ok(Pushed(q.store, p.touched + q.touched))
  }

  /** The labels the node statements merge on. */
  function NodeLabels(stmts: seq<Stmt>): set<string> {
    set i | 0 <= i < |stmts| && stmts[i].NodeStmt? :: stmts[i].lbl
  }

  // ---------------------------------------------------------------------------
  // Validity is kept by every statement
  // ---------------------------------------------------------------------------

  lemma MergeNodesValid(s: Store, lbl: string, key: string, rows: seq<NodeRow>)
    requires Valid(s) && MergeNodes(s, lbl, key, rows).Ok?
    ensures Valid(MergeNodes(s, lbl, key, rows).value.store)
    decreases |rows|
  {
    if rows != [] {
      MergeNodesValid(MergeNode(s, lbl, key, rows[0]).value.store, lbl, key, rows[1..]);
    }
  }

  lemma MergeEdgesValid(s: Store, spec: EdgeSpec, rows: seq<EdgeRow>)
    requires Valid(s)
    ensures Valid(MergeEdges(s, spec, rows))
    decreases |rows|
  {
    if rows != [] {
      MergeEdgeSpec(s, spec, rows[0]);
      MergeEdgesValid(MergeEdge(s, spec, rows[0]), spec, rows[1..]);
    }
  }

  /** Every relationship the derivation adds joins two routers that exist. */
  lemma {:induction false} DeriveEnds(s: Store, edges: map<EdgeKey, Props>, order: seq<Route>)
    requires Valid(s) && forall e | e in edges :: e.src in s.nodes && e.dst in s.nodes
    requires Derive(s, edges, order).Ok?
    ensures forall e | e in Derive(s, edges, order).value :: e.src in s.nodes && e.dst in s.nodes
    decreases |order|
  {
    if order != [] {
      if !IsRoute(s, order[0]) {
        DeriveEnds(s, edges, order[1..]);
      } else {
        var p := RouteProps(s, order[0]).value;
        DeriveEnds(s, SetEdges(edges, {RouteKey(order[0])}, p), order[1..]);
      }
    }
  }

  lemma ExecValid(s: Store, st: Stmt)
    requires Valid(s) && Exec(s, st).Ok?
    ensures Valid(Exec(s, st).value.store)
  {
    match st
    case NodeStmt(l, k, rows) => MergeNodesValid(s, l, k, rows);
    case EdgeStmt(spec, rows) => MergeEdgesValid(s, spec, rows);
    case RoutingStmt(order) => DeriveEnds(s, s.edges, order);
    case DistanceStmt =>
    case IpLogicalStmt => IpLogicalValid(s);
  }

  // ---------------------------------------------------------------------------
  // Mark, upsert, sweep: which nodes survive
  // ---------------------------------------------------------------------------

  /** A row writes `delete = false`, as every row the scripts build does. */
  predicate Fresh(p: Props) {
    "delete" in p && p["delete"] == Bool(false)
  }

  predicate FreshStmt(st: Stmt) {
    st.NodeStmt? ==> forall i | 0 <= i < |st.rows| :: Fresh(st.rows[i].props)
  }

  /**
   What holds between mark and sweep, relative to the marked graph `base`:
   no node disappears and no label changes, every node created is merged,
   merged nodes carry one of the labels `ls`, and a node is flagged exactly
   when it was flagged in `base` and has not been merged since.
   */
  predicate Tracks(base: Store, ls: set<string>, p: Pushed) {
    && Valid(p.store)
    && base.nodes.Keys <= p.store.nodes.Keys
    && p.touched <= p.store.nodes.Keys
    && (forall id | id in p.store.nodes && id !in base.nodes :: id in p.touched)
    && (forall id | id in base.nodes :: p.store.nodes[id].labels == base.nodes[id].labels)
    && (forall id | id in p.touched :: p.store.nodes[id].labels * ls != {})
    && (forall id | id in p.store.nodes ::
          Flagged(p.store.nodes[id].props) <==> id !in p.touched && id in base.nodes && Flagged(base.nodes[id].props))
  }

  lemma MergeNodeTracks(base: Store, ls: set<string>, p: Pushed, lbl: string, key: string, row: NodeRow)
    requires Tracks(base, ls, p) && lbl in ls && Fresh(row.props) && row.key != Null
    ensures var q := MergeNode(p.store, lbl, key, row).value;
      Tracks(base, ls, Pushed(q.store, p.touched + q.touched))
  {
    var q := MergeNode(p.store, lbl, key, row).value;
    MergeNodeSpec(p.store, lbl, key, row);
    forall id | id in q.touched
      ensures !Flagged(q.store.nodes[id].props) && lbl in q.store.nodes[id].labels
    {
    }
    forall id | id in p.touched + q.touched
      ensures q.store.nodes[id].labels * ls != {}
    {
      if id !in q.touched {
        assert q.store.nodes[id].labels == p.store.nodes[id].labels;
      } else {
        assert lbl in q.store.nodes[id].labels * ls;
      }
    }
  }

  lemma {:induction false} MergeNodesTracks(base: Store, ls: set<string>, p: Pushed, lbl: string, key: string, rows: seq<NodeRow>)
    requires Tracks(base, ls, p) && lbl in ls && MergeNodes(p.store, lbl, key, rows).Ok?
    requires forall i | 0 <= i < |rows| :: Fresh(rows[i].props)
    ensures var q := MergeNodes(p.store, lbl, key, rows).value;
      Tracks(base, ls, Pushed(q.store, p.touched + q.touched))
    decreases |rows|
  {
    if rows != [] {
      var q1 := MergeNode(p.store, lbl, key, rows[0]).value;
      MergeNodeTracks(base, ls, p, lbl, key, rows[0]);
      MergeNodesTracks(base, ls, Pushed(q1.store, p.touched + q1.touched), lbl, key, rows[1..]);
    }
  }

  lemma ExecTracks(base: Store, ls: set<string>, p: Pushed, st: Stmt)
    requires Tracks(base, ls, p) && FreshStmt(st) && (st.NodeStmt? ==> st.lbl in ls) && Exec(p.store, st).Ok?
    ensures var q := Exec(p.store, st).value;
      Tracks(base, ls, Pushed(q.store, p.touched + q.touched))
  {
    if st.NodeStmt? {
      MergeNodesTracks(base, ls, p, st.lbl, st.key, st.rows);
    } else {
      ExecValid(p.store, st);
    }
  }

  lemma {:induction false} RunAllTracks(base: Store, ls: set<string>, p: Pushed, stmts: seq<Stmt>)
    requires Tracks(base, ls, p) && RunAll(p.store, stmts).Ok?
    requires forall i | 0 <= i < |stmts| :: FreshStmt(stmts[i]) && (stmts[i].NodeStmt? ==> stmts[i].lbl in ls)
    ensures var q := RunAll(p.store, stmts).value;
      Tracks(base, ls, Pushed(q.store, p.touched + q.touched))
    decreases |stmts|
  {
    if stmts != [] {
      var q1 := Exec(p.store, stmts[0]).value;
      ExecTracks(base, ls, p, stmts[0]);
      RunAllTracks(base, ls, Pushed(q1.store, p.touched + q1.touched), stmts[1..]);
    }
  }

  /**
   The reconciliation cycle: mark, run the statements, sweep. A node is left
   exactly when one of the statements merged it, or it is a node without any
   `PROD_` label that was not already flagged for deletion. Every merged node
   carries a label some node statement merges on.
   */
  lemma CycleSurvivors(s: Store, stmts: seq<Stmt>)
    requires Valid(s)
    requires forall i | 0 <= i < |stmts| :: FreshStmt(stmts[i])
    requires RunAll(Mark(s, true), stmts).Ok?
    ensures var p := RunAll(Mark(s, true), stmts).value;
      && (forall id :: id in Sweep(p.store).store.nodes <==>
            id in p.touched || (id in s.nodes && !IsProd(s.nodes[id].labels) && !Flagged(s.nodes[id].props)))
      && (forall id | id in p.touched :: p.store.nodes[id].labels * NodeLabels(stmts) != {})
  {
    var base := Mark(s, true);
    var ls := NodeLabels(stmts);
    CycleTracks(s, stmts);
    var p := RunAll(base, stmts).value;
    forall id
      ensures id in Sweep(p.store).store.nodes <==> id in p.touched || (id in s.nodes && !IsProd(s.nodes[id].labels) && !Flagged(s.nodes[id].props))
    {
      Survivor(s, ls, p, id);
    }
  }

  lemma CycleTracks(s: Store, stmts: seq<Stmt>)
    requires Valid(s)
    requires forall i | 0 <= i < |stmts| :: FreshStmt(stmts[i])
    requires RunAll(Mark(s, true), stmts).Ok?
    ensures Tracks(Mark(s, true), NodeLabels(stmts), RunAll(Mark(s, true), stmts).value)
  {
    var base := Mark(s, true);
    var ls := NodeLabels(stmts);
    forall i | 0 <= i < |stmts| && stmts[i].NodeStmt?
      ensures stmts[i].lbl in ls
    {
    }
    MarkTracks(s, ls);
    RunTracks(base, ls, stmts);
  }

  lemma RunTracks(base: Store, ls: set<string>, stmts: seq<Stmt>)
    requires Tracks(base, ls, Pushed(base, {})) && RunAll(base, stmts).Ok?
    requires forall i | 0 <= i < |stmts| :: FreshStmt(stmts[i]) && (stmts[i].NodeStmt? ==> stmts[i].lbl in ls)
    ensures Tracks(base, ls, RunAll(base, stmts).value)
  {
    RunAllTracks(base, ls, Pushed(base, {}), stmts);
    var q := RunAll(base, stmts).value;
    assert {} + q.touched == q.touched;
  }

  /** The marked graph itself is where the tracking starts. */
  lemma MarkTracks(s: Store, ls: set<string>)
    requires Valid(s)
    ensures Tracks(Mark(s, true), ls, Pushed(Mark(s, true), {}))
  {
  }

  lemma Survivor(s: Store, ls: set<string>, p: Pushed, id: nat)
    requires Tracks(Mark(s, true), ls, p)
    ensures id in Sweep(p.store).store.nodes <==> id in p.touched || (id in s.nodes && !IsProd(s.nodes[id].labels) && !Flagged(s.nodes[id].props))
  {
    if id in s.nodes {
      MarkFlags(s, id);
    }
  }

  // ---------------------------------------------------------------------------
  // Sweep: delete_marked_elements
  // ---------------------------------------------------------------------------

  /** The graph after the sweep and the two counts the sweep reports. */
  datatype Swept = Swept(store: Store, relationships: nat, nodes: nat)

  /**
   First every relationship with `delete = true` is deleted, then every node
   with `delete = true` together with the relationships still attached to it
   (DETACH DELETE). No label restriction: any flagged element goes.
   */
  function Sweep(s: Store): (r: Swept)
    ensures forall id :: id in r.store.nodes <==> id in s.nodes && !Flagged(s.nodes[id].props)
    ensures forall id | id in r.store.nodes :: r.store.nodes[id] == s.nodes[id]
    ensures forall e :: e in r.store.edges <==>
      e in s.edges && !Flagged(s.edges[e]) && e.src in r.store.nodes && e.dst in r.store.nodes
    ensures forall e | e in r.store.edges :: r.store.edges[e] == s.edges[e]
    ensures r.relationships == |set e | e in s.edges && Flagged(s.edges[e])|
    ensures r.nodes == |set id | id in s.nodes && Flagged(s.nodes[id].props)|
    ensures r.store.next == s.next
  {
    var gone := set e | e in s.edges && Flagged(s.edges[e]);
    var kept := map e | e in s.edges && !Flagged(s.edges[e]) :: s.edges[e];
    var dead := set id | id in s.nodes && Flagged(s.nodes[id].props);
    var nodes := map id | id in s.nodes && !Flagged(s.nodes[id].props) :: s.nodes[id];
    var edges := map e | e in kept && e.src in nodes && e.dst in nodes :: kept[e];
    Swept(Store(nodes, edges, s.next), |gone|, |dead|)
  }

  /** The sweep leaves a valid graph: no relationship dangles. */
  lemma SweepValid(s: Store)
    requires Valid(s)
    ensures Valid(Sweep(s).store)
  {
  }
}
