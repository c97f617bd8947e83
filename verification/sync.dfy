/**
 The two push scripts end to end: `2.push_bgpls_to_neo4j.py` (IS-IS only)
 and `7.push_ALL_to_neo4j.py` (IS-IS, ports, LAGs, logical interfaces and
 LLDP). Each validates its connection settings, makes sure the uniqueness
 constraints exist, marks every PROD_ element for deletion, writes its
 batches and derived relationships, and sweeps whatever is still marked.
 */
module Sync {
  import opened Json
  import opened Text
  import opened Graph
  import opened Batches

  // ===========================================================================
  // Neo4jConfig.__post_init__
  // ===========================================================================

  const Schemes := ["neo4j://", "neo4j+s://", "neo4j+ssc://", "bolt://", "bolt+s://", "bolt+ssc://"]

  predicate KnownScheme(uri: string) {
    exists i | 0 <= i < |Schemes| :: StartsWith(uri, Schemes[i])
  }

  /** The connection URI must be non-empty and start with one of the six driver schemes; anything else is a ValueError. */
  function CheckUri(uri: string): (r: Result<string>)
    ensures r.Ok? <==> uri != "" && KnownScheme(uri)
    ensures r.Ok? ==> r.value == uri
  {
    if uri == "" then Err("ValueError")
    else if !KnownScheme(uri) then Err("ValueError")
    else Ok(uri)
  }

  /** The address both scripts connect to passes the check; a bare host and port does not. */
  lemma ScriptUri()
    ensures CheckUri("bolt://localhost:7687") == Ok("bolt://localhost:7687")
    ensures CheckUri("localhost:7687").Err?
  {
    assert StartsWith("bolt://localhost:7687", Schemes[3]);
    var bare := "localhost:7687";
    forall i | 0 <= i < |Schemes| ensures !StartsWith(bare, Schemes[i]) {
      assert bare[0] == 'l' && Schemes[i][0] != 'l';
    }
  }

  // ===========================================================================
  // check_neo_constraints
  // ===========================================================================

  /** One expected uniqueness constraint, named `<label>_<property>`. */
  datatype Constraint = Constraint(lbl: string, prop: string, name: string)

  /** The constraints a `{label: [properties]}` table asks for, label by label, property by property. */
  function Expected(spec: Table<string, seq<string>>): (r: seq<Constraint>)
    ensures forall i | 0 <= i < |r| :: r[i].name == r[i].lbl + "_" + r[i].prop
    ensures forall i | 0 <= i < |r| :: (r[i].lbl, r[i].prop) in Entries(spec)
    decreases |spec|
  {
    if spec == [] then []
    else PerLabel(spec[0].0, spec[0].1) + Expected(spec[1..])
  }

  /** The (label, property) pairs a table names. */
  function Entries(spec: Table<string, seq<string>>): set<(string, string)> {
    set i, j | 0 <= i < |spec| && 0 <= j < |spec[i].1| :: (spec[i].0, spec[i].1[j])
  }

  function PerLabel(lbl: string, props: seq<string>): (r: seq<Constraint>)
    ensures |r| == |props|
    ensures forall j | 0 <= j < |props| :: r[j] == Constraint(lbl, props[j], lbl + "_" + props[j])
  {
    seq(|props|, j requires 0 <= j < |props| => Constraint(lbl, props[j], lbl + "_" + props[j]))
  }

  /** Every (label, property) pair of the table is expected. */
  lemma {:induction false} ExpectedHas(spec: Table<string, seq<string>>, i: nat, j: nat)
    requires i < |spec| && j < |spec[i].1|
    ensures Constraint(spec[i].0, spec[i].1[j], spec[i].0 + "_" + spec[i].1[j]) in Expected(spec)
    decreases i
  {
    if i == 0 {
      assert PerLabel(spec[0].0, spec[0].1)[j] in PerLabel(spec[0].0, spec[0].1);
    } else {
      assert spec[1..][i - 1] == spec[i];
      ExpectedHas(spec[1..], i - 1, j);
    }
  }

  /** The names `SHOW CONSTRAINTS` reports: each row's `name`, or "" when a row has none. */
  function ShownNames(rows: seq<Fields>): (r: set<Json>)
    ensures forall i | 0 <= i < |rows| :: GetOr(rows[i], "name", Str("")) in r
    ensures forall n | n in r :: exists i | 0 <= i < |rows| :: GetOr(rows[i], "name", Str("")) == n
  {
    set i | 0 <= i < |rows| :: GetOr(rows[i], "name", Str(""))
  }

  /** `r` is `s` with some elements left out, the others kept in their order. */
  predicate SubseqOf<T(==)>(r: seq<T>, s: seq<T>)
    decreases |s|
  {
    r == [] || (s != [] && ((r[0] == s[0] && SubseqOf(r[1..], s[1..])) || SubseqOf(r, s[1..])))
  }

  /** The expected constraints whose name is not shown, in order: the ones the script creates. */
  function Missing(expected: seq<Constraint>, shown: set<Json>): (r: seq<Constraint>)
    ensures forall c :: c in r <==> c in expected && Str(c.name) !in shown
    ensures SubseqOf(r, expected)
    ensures |r| <= |expected|
    decreases |expected|
  {
    if expected == [] then []
    else
      var rest := Missing(expected[1..], shown);
      if Str(expected[0].name) in shown then rest else [expected[0]] + rest
  }

  /** What `check_neo_constraints` creates, given the rows `SHOW CONSTRAINTS` returned. */
  function CheckConstraints(spec: Table<string, seq<string>>, rows: seq<Fields>): (r: seq<Constraint>)
    ensures forall c :: c in r <==> c in Expected(spec) && Str(c.name) !in ShownNames(rows)
    ensures SubseqOf(r, Expected(spec))
  {
    Missing(Expected(spec), ShownNames(rows))
  }

  /** The row `SHOW CONSTRAINTS` shows for a constraint created under its name. */
  function ShownRow(c: Constraint): Fields {
    [("name", Str(c.name))]
  }

  /** Once the missing constraints are created, checking again creates nothing. */
  lemma ConstraintsSettle(spec: Table<string, seq<string>>, rows: seq<Fields>)
    ensures var created := CheckConstraints(spec, rows);
      CheckConstraints(spec, rows + seq(|created|, k requires 0 <= k < |created| => ShownRow(created[k]))) == []
  {
    var created := CheckConstraints(spec, rows);
    var after := rows + seq(|created|, k requires 0 <= k < |created| => ShownRow(created[k]));
    var again := CheckConstraints(spec, after);
    assert ShownNames(rows) <= ShownNames(after) by {
      forall n | n in ShownNames(rows) ensures n in ShownNames(after) {
        var i :| 0 <= i < |rows| && GetOr(rows[i], "name", Str("")) == n;
        assert after[i] == rows[i];
      }
    }
    forall c | c in Expected(spec) ensures Str(c.name) in ShownNames(after) {
      if Str(c.name) !in ShownNames(rows) {
        var k :| 0 <= k < |created| && created[k] == c;
        assert after[|rows| + k] == ShownRow(c);
        assert GetOr(ShownRow(c), "name", Str("")) == Str(c.name);
      }
    }
    MissingNone(Expected(spec), ShownNames(after));
  }

  lemma {:induction false} MissingNone(expected: seq<Constraint>, shown: set<Json>)
    requires forall c | c in expected :: Str(c.name) in shown
    ensures Missing(expected, shown) == []
    decreases |expected|
  {
    if expected != [] {
      assert expected[0] in expected;
      MissingNone(expected[1..], shown);
    }
  }

  /** The tables the two scripts pass. */
  const Constraints2: Table<string, seq<string>> := [(ProdRouter, ["name"]), (ProdIp, [IpKey, "uid_isis_igp_router_name"])]
  const Constraints7: Table<string, seq<string>> :=
    Constraints2 + [(ProdLogical, ["uid"]), (ProdLag, ["uid"]), (ProdPort, ["uid"])]

  // ===========================================================================
  // The cycles
  // ===========================================================================

  /** The statements `2.push_bgpls_to_neo4j.py` runs between mark and sweep. */
  function Stmts2(isis: IsisBatch, order: seq<Route>): seq<Stmt> {
    IsisStmts(isis) + [RoutingStmt(order), DistanceStmt]
  }

  /** The statements `7.push_ALL_to_neo4j.py` runs between mark and sweep, in its order. */
  function Stmts7(isis: IsisBatch, ports: PortBatch, lldp: seq<EdgeRow>, order: seq<Route>): seq<Stmt> {
    IsisStmts(isis) + [RoutingStmt(order), DistanceStmt] + PortStmts(ports) + [IpLogicalStmt, EdgeStmt(LldpSpec, lldp)]
  }

  /**
   One run of the BGP-LS push: build the IS-IS batches from the regrouped
   BGP-LS file, mark, write, derive, sweep. `order` is the order in which the
   database enumerates the routing matches. When the database is not
   reachable nothing happens.
   */
  function Cycle2(s: Store, connected: bool, gobgp: Json, date: string, repr: Json -> string, order: seq<Route>): (r: Result<Store>)
    ensures !connected ==> r == Ok(s)
  {
    if !connected then Ok(s)
    else
      var isis :- IsisBatches(gobgp, date, repr);
      var p :- RunAll(Mark(s, true), Stmts2(isis, order));
      Ok(Sweep(p.store).store)
  }

  /** One run of the full push: IS-IS, then ports, LAGs and logical interfaces, then LLDP. */
  function Cycle7(s: Store, connected: bool, gobgp: Json, nso: Json, lldp: Json, date: string, repr: Json -> string, order: seq<Route>): (r: Result<Store>)
    ensures !connected ==> r == Ok(s)
  {
    if !connected then Ok(s)
    else
      var isis :- IsisBatches(gobgp, date, repr);
      var ports :- PortBatches(nso, date, repr);
      var links :- LldpRows(lldp, date, repr);
      var p :- RunAll(Mark(s, true), Stmts7(isis, ports, links, order));
      Ok(Sweep(p.store).store)
  }

  // ===========================================================================
  // What survives a cycle
  // ===========================================================================

  predicate FreshStmts(stmts: seq<Stmt>) {
    forall i | 0 <= i < |stmts| :: FreshStmt(stmts[i])
  }

  /** A node with no PROD_ label that was not flagged beforehand: outside what the scripts manage. */
  predicate Foreign(s: Store, id: nat)
    requires id in s.nodes
  {
    !IsProd(s.nodes[id].labels) && !Flagged(s.nodes[id].props)
  }

  /**
   Mark, statements, sweep: foreign nodes all survive; every surviving node
   is foreign or carries a label some node statement merges on; and no node
   that was there before changes its labels.
   */
  lemma Reconcile(s: Store, stmts: seq<Stmt>)
    requires Valid(s) && FreshStmts(stmts) && RunAll(Mark(s, true), stmts).Ok?
    ensures var r := Sweep(RunAll(Mark(s, true), stmts).value.store).store;
      && (forall id | id in s.nodes && Foreign(s, id) :: id in r.nodes)
      && (forall id | id in r.nodes :: (id in s.nodes && Foreign(s, id)) || r.nodes[id].labels * NodeLabels(stmts) != {})
      && (forall id | id in s.nodes && id in r.nodes :: r.nodes[id].labels == s.nodes[id].labels)
  {
    CycleSurvivors(s, stmts);
    CycleTracks(s, stmts);
  }

  lemma IsisFresh(isis: IsisBatch, order: seq<Route>)
    requires GoodIsis(isis)
    ensures FreshStmts(Stmts2(isis, order))
  {
  }

  lemma PortsFresh(isis: IsisBatch, ports: PortBatch, lldp: seq<EdgeRow>, order: seq<Route>)
    requires GoodIsis(isis) && PortsClean(ports)
    ensures FreshStmts(Stmts7(isis, ports, lldp, order))
  {
    var st := Stmts7(isis, ports, lldp, order);
    assert st[0].rows == isis.routers && st[1].rows == isis.ips;
    assert st[6].rows == ports.ports && st[7].rows == ports.lags && st[9].rows == ports.logicals;
  }

  const Labels2 := {ProdRouter, ProdIp}
  const Labels7 := {ProdRouter, ProdIp, ProdPort, ProdLag, ProdLogical}

  lemma Labels2Of(isis: IsisBatch, order: seq<Route>)
    ensures NodeLabels(Stmts2(isis, order)) <= Labels2
  {
    var st := Stmts2(isis, order);
    forall l | l in NodeLabels(st) ensures l in Labels2 {
      var i :| 0 <= i < |st| && st[i].NodeStmt? && st[i].lbl == l;
    }
  }

  lemma Labels7Of(isis: IsisBatch, ports: PortBatch, lldp: seq<EdgeRow>, order: seq<Route>)
    ensures NodeLabels(Stmts7(isis, ports, lldp, order)) <= Labels7
  {
    var st := Stmts7(isis, ports, lldp, order);
    forall l | l in NodeLabels(st) ensures l in Labels7 {
      var i :| 0 <= i < |st| && st[i].NodeStmt? && st[i].lbl == l;
    }
  }

  /**
   After a successful BGP-LS push every node is foreign or a router or an IP
   address: in particular the ports, LAGs and logical interfaces a full push
   wrote are all deleted, whatever else they carry.
   */
  lemma Cycle2Survivors(s: Store, gobgp: Json, date: string, repr: Json -> string, order: seq<Route>)
    requires Valid(s) && Cycle2(s, true, gobgp, date, repr, order).Ok?
    ensures var r := Cycle2(s, true, gobgp, date, repr, order).value;
      && (forall id | id in s.nodes && Foreign(s, id) :: id in r.nodes)
      && (forall id | id in r.nodes :: (id in s.nodes && Foreign(s, id)) || r.nodes[id].labels * Labels2 != {})
      && (forall id | id in s.nodes && IsProd(s.nodes[id].labels) && s.nodes[id].labels * Labels2 == {} :: id !in r.nodes)
  {
    var isis := IsisBatches(gobgp, date, repr).value;
    var st := Stmts2(isis, order);
    IsisFresh(isis, order);
    Labels2Of(isis, order);
    Reconcile(s, st);
  }

  /** After a successful full push every node is foreign or carries one of the five labels it merges on. */
  lemma Cycle7Survivors(s: Store, gobgp: Json, nso: Json, lldp: Json, date: string, repr: Json -> string, order: seq<Route>)
    requires Valid(s) && Cycle7(s, true, gobgp, nso, lldp, date, repr, order).Ok?
    ensures var r := Cycle7(s, true, gobgp, nso, lldp, date, repr, order).value;
      && (forall id | id in s.nodes && Foreign(s, id) :: id in r.nodes)
      && (forall id | id in r.nodes :: (id in s.nodes && Foreign(s, id)) || r.nodes[id].labels * Labels7 != {})
      && (forall id | id in s.nodes && IsProd(s.nodes[id].labels) && s.nodes[id].labels * Labels7 == {} :: id !in r.nodes)
  {
    var isis := IsisBatches(gobgp, date, repr).value;
    var ports := PortBatches(nso, date, repr).value;
    var links := LldpRows(lldp, date, repr).value;
    var st := Stmts7(isis, ports, links, order);
    PortsFresh(isis, ports, links, order);
    Labels7Of(isis, ports, links, order);
    Reconcile(s, st);
  }
}
