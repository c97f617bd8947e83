/**
 The pure parts of the agent's graph tools: which relationship properties a
 GDS projection carries, the Cypher pattern that reads back the properties of
 every hop of a shortest path, and the NSO traffic-engineering XML built from
 that path. The Neo4j queries themselves are inputs: the first relationship's
 properties, and the path data (router names and per-hop properties).
 */
module TrafficEng {
  import opened Json
  import opened Text

  // ---------------------------------------------------------------------------
  // create_graph_projection: the projected properties
  // ---------------------------------------------------------------------------

  /**
   `isinstance(v, (int, float)) and not isinstance(v, bool)`. A Python bool is
   an int, which the second test excludes; here booleans are their own case.
   */
  predicate IsNumber(v: Json) {
    v.Int? || v.Float?
  }

  /** The names of the numeric properties, in the dict's order. */
  function NumericProps(props: Fields): (r: seq<string>)
    ensures |r| <= |props|
    ensures forall k :: k in r <==> exists i | 0 <= i < |props| :: props[i].0 == k && IsNumber(props[i].1)
  {
    if props == [] then []
    else
      var rest := NumericProps(props[1..]);
      if IsNumber(props[0].1) then [props[0].0] + rest else rest
  }

  const NoPropertyFound := "Erreur: Aucune propriété trouvée"
  const NoNumericProperty := "Erreur: Aucune propriété numérique"

  /** The projection's `weight` entry, read from property `p`. */
  function WeightEntry(p: string): string {
    "weight: { property: '" + p + "', defaultValue: 1.0 }"
  }

  /** The projection entry that carries property `p` under its own name. */
  function PropEntry(p: string): string {
    p + ": { property: '" + p + "', defaultValue: 0.0 }"
  }

  /**
   The entries joined into the projection's `properties` map. They pass
   through `set()`, whose iteration order Python leaves unspecified, so the
   model keeps the set. `props` is the first relationship's property map, or
   None when the graph has no relationship.
   */
  function ProjectionEntries(props: Option<Fields>, weight: string): (r: Result<set<string>>)
    ensures props.None? ==> r == Err(NoPropertyFound)
    ensures props.Some? ==> (r.Err? <==> NumericProps(props.value) == [])
    ensures r.Err? && props.Some? ==> r.msg == NoNumericProperty
    ensures r.Ok? && weight in NumericProps(props.value) ==> WeightEntry(weight) in r.value
    ensures r.Ok? && weight !in NumericProps(props.value) ==> WeightEntry("igp_metric") in r.value
    ensures r.Ok? ==> forall p | p in NumericProps(props.value) :: PropEntry(p) in r.value
    ensures r.Ok? ==> forall e | e in r.value ::
      e == WeightEntry(if weight in NumericProps(props.value) then weight else "igp_metric")
      || exists p | p in NumericProps(props.value) :: e == PropEntry(p)
  {
    match props
    case None => Err(NoPropertyFound)
    case Some(fs) =>
      var numeric := NumericProps(fs);
      if numeric == [] then Err(NoNumericProperty)
      else
        var w := if weight in numeric then weight else "igp_metric";
        Ok({WeightEntry(w)} + set p | p in numeric :: PropEntry(p))
  }

  /** A property holding a boolean is never projected, whatever its name. */
  lemma BooleanNotProjected(props: Fields, k: string, b: bool)
    requires Wf(props) && Get(props, k) == Some(Bool(b))
    ensures k !in NumericProps(props)
  {
    forall i | 0 <= i < |props| && props[i].0 == k
      ensures !IsNumber(props[i].1)
    {
      GetAt(props, i);
    }
  }

  // ---------------------------------------------------------------------------
  // _calculate_shortest_path_data: the per-hop property query
  // ---------------------------------------------------------------------------

  /** Router `i` of the path, bound to parameter `$node<i>`. */
  function NodePart(i: nat): string {
    "(n" + NatToString(i) + ":PROD_ROUTER {name: $node" + NatToString(i) + "})"
  }

  /** Hop `i` of the path, bound to relationship variable `r<i>`. */
  function RelPart(i: nat): string {
    "-[r" + NatToString(i) + ":PROD_ROUTING_LINK]->"
  }

  function ReturnItem(i: nat): string {
    "properties(r" + NatToString(i) + ") AS rel" + NatToString(i) + "_props"
  }

  function ParamName(i: nat): string {
    "node" + NatToString(i)
  }

  /**
   The pattern pieces for a path of `n` routers: router 0, then hop `i` and
   router `i + 1` for each of the `n - 1` hops. A path of fewer than two
   routers gives no pieces.
   */
  method PathParts(n: nat) returns (parts: seq<string>)
    ensures n < 2 ==> parts == []
    ensures n >= 2 ==> |parts| == 2 * n - 1
    ensures n >= 2 ==> forall i | 0 <= i < n :: parts[2 * i] == NodePart(i)
    ensures forall i | 0 <= i < n - 1 :: parts[2 * i + 1] == RelPart(i)
  {
    parts := [];
    var i := 0;
    while i < n - 1
      invariant 0 <= i <= (if n >= 1 then n - 1 else 0)
      invariant i == 0 ==> parts == []
      invariant i > 0 ==> |parts| == 2 * i + 1
      invariant i > 0 ==> forall j | 0 <= j <= i :: parts[2 * j] == NodePart(j)
      invariant forall j | 0 <= j < i :: parts[2 * j + 1] == RelPart(j)
    {
      if i == 0 {
        parts := parts + [NodePart(0)];
      }
      parts := parts + [RelPart(i), NodePart(i + 1)];
      i := i + 1;
    }
  }

  /**
   The query that returns the properties of every hop, one column per hop:
   `MATCH` the path pattern, its pieces joined by spaces, then `RETURN` the
   columns joined by commas. Every router parameter `$node<i>` of the path
   occurs in it.
   */
  method PropsQuery(n: nat) returns (query: string, pattern: seq<string>, columns: seq<string>)
    ensures n < 2 ==> pattern == []
    ensures n >= 2 ==> |pattern| == 2 * n - 1
    ensures n >= 2 ==> forall i | 0 <= i < n :: pattern[2 * i] == NodePart(i)
    ensures forall i | 0 <= i < n - 1 :: pattern[2 * i + 1] == RelPart(i)
    ensures |columns| == if n >= 2 then n - 1 else 0
    ensures forall i | 0 <= i < |columns| :: columns[i] == ReturnItem(i)
    ensures query == "MATCH " + Join(" ", pattern) + (" RETURN " + Join(", ", columns))
    ensures StartsWith(query, "MATCH ")
    ensures n >= 2 ==> forall i | 0 <= i < n :: Contains(query, "$" + ParamName(i))
  {
    pattern := PathParts(n);
    columns := seq(if n >= 2 then n - 1 else 0, i requires 0 <= i => ReturnItem(i));
    var tail := " RETURN " + Join(", ", columns);
    query := "MATCH " + Join(" ", pattern) + tail;
    if n >= 2 {
      QueryHasParams(pattern, tail, n);
    }
  }

  /** Every router of the pattern has its parameter in the query. */
  lemma QueryHasParams(pattern: seq<string>, tail: string, n: nat)
    requires n >= 2 && |pattern| == 2 * n - 1
    requires forall i | 0 <= i < n :: pattern[2 * i] == NodePart(i)
    ensures forall i | 0 <= i < n :: Contains("MATCH " + Join(" ", pattern) + tail, "$" + ParamName(i))
  {
    forall i | 0 <= i < n ensures Contains("MATCH " + Join(" ", pattern) + tail, "$" + ParamName(i)) {
      QueryHasParam(pattern, tail, 2 * i, i);
    }
  }

  /** Router `i`'s piece of the pattern names its parameter `$node<i>`. */
  lemma NodePartParam(i: nat)
    ensures exists j :: OccursAt(NodePart(i), "$" + ParamName(i), j)
  {
    var k := NatToString(i);
    var pre := "(n" + k + ":PROD_ROUTER {name: ";
    var sub := "$" + ParamName(i);
    assert sub == "$node" + k;
    assert sub[0..|sub|] == sub;
    OccursWithin(pre, sub, "})", sub, 0);
    assert pre + sub + "})" == NodePart(i);
  }

  /** A parameter named in a piece of the pattern occurs in the whole query. */
  lemma QueryHasParam(pattern: seq<string>, tail: string, p: nat, i: nat)
    requires p < |pattern| && pattern[p] == NodePart(i)
    ensures Contains("MATCH " + Join(" ", pattern) + tail, "$" + ParamName(i))
  {
    NodePartParam(i);
    var k :| OccursAt(NodePart(i), "$" + ParamName(i), k);
    JoinedOccurs("MATCH ", " ", pattern, tail, p, "$" + ParamName(i), k);
  }

  /** Decimal renderings of distinct numbers differ. */
  lemma NatToStringInjective(a: nat, b: nat)
    requires NatToString(a) == NatToString(b)
    ensures a == b
  {
    ParseIntOfString(a);
    ParseIntOfString(b);
    assert IntToString(a) == NatToString(a);
    assert IntToString(b) == NatToString(b);
  }

  /** `{f"node{i}": node_names[i] for i in range(len(node_names))}`. */
  function NodeParams(names: seq<string>): (r: Fields)
    ensures |r| == |names|
    ensures forall i | 0 <= i < |names| :: r[i] == (ParamName(i), Str(names[i]))
  {
    seq(|names|, i requires 0 <= i < |names| => (ParamName(i), Str(names[i])))
  }

  /** Every router name is bound under its own parameter: the parameter names never collide. */
  lemma NodeParamsBind(names: seq<string>, i: nat)
    requires i < |names|
    ensures Wf(NodeParams(names))
    ensures Get(NodeParams(names), ParamName(i)) == Some(Str(names[i]))
  {
    var r := NodeParams(names);
    forall a, b | 0 <= a < b < |r| ensures r[a].0 != r[b].0 {
      if r[a].0 == r[b].0 {
        assert NatToString(a) == r[a].0[4..];
        assert NatToString(b) == r[b].0[4..];
        NatToStringInjective(a, b);
      }
    }
    GetAt(r, i);
  }

  // ---------------------------------------------------------------------------
  // perform_traffic_engineering
  // ---------------------------------------------------------------------------

  /**
   What the path computation returns: an error message, or the router names
   and one property map per hop (`properties(r<i>)`).
   */
  datatype PathData = PathError(error: string) | Path(nodeNames: seq<string>, segments: seq<Fields>)

  const MissingSid := "Erreur: Segment sans 'sr_adjacency_sid'"

  /** `100 + int(end_node.lstrip('R'))`, or 100 when the rest does not parse as an integer. */
  function Colour(endNode: string): (c: int)
    ensures ParseInt(LStripChar(endNode, 'R')).None? ==> c == 100
  {
    match ParseInt(LStripChar(endNode, 'R'))
    case Some(v) => 100 + v
    case None => 100
  }

  /** Router `R<n>` gets colour `100 + n`. */
  lemma ColourOfRouter(n: nat)
    ensures Colour("R" + NatToString(n)) == 100 + n
  {
    var digits := NatToString(n);
    LStripCharOnce('R', digits);
    ParseIntOfString(n);
    assert IntToString(n) == digits;
  }

  /** Every hop's `sr_adjacency_sid`, or None as soon as one is missing or falsy. */
  function Sids(segments: seq<Fields>): (r: Option<seq<Json>>)
    ensures r.Some? <==> forall i | 0 <= i < |segments| :: Truthy(GetOr(segments[i], "sr_adjacency_sid", Null))
    ensures r.Some? ==> |r.value| == |segments|
    ensures r.Some? ==> forall i | 0 <= i < |segments| :: r.value[i] == GetOr(segments[i], "sr_adjacency_sid", Null)
  {
    if segments == [] then Some([])
    else
      var sid := GetOr(segments[0], "sr_adjacency_sid", Null);
      if !Truthy(sid) then None
      else
        match Sids(segments[1..])
        case None => None
        case Some(rest) => Some([sid] + rest)
  }

  function LabelLine(sid: string): string {
    "    <label-path>" + sid + "</label-path>"
  }

  /** The accumulated `label_paths`: one line per hop, each ending in a newline. */
  function LabelPaths(texts: seq<string>): string {
    if texts == [] then "" else LabelLine(texts[0]) + "\n" + LabelPaths(texts[1..])
  }

  function LabelLines(texts: seq<string>): (r: seq<string>)
    ensures |r| == |texts|
    ensures forall i | 0 <= i < |texts| :: r[i] == LabelLine(texts[i])
  {
    seq(|texts|, i requires 0 <= i < |texts| => LabelLine(texts[i]))
  }

  function Element(tag: string, value: string): string {
    "    <" + tag + ">" + value + "</" + tag + ">"
  }

  /** A double quote, kept apart so that the tags below are plain concatenations. */
  const Quote: string := ['"']
  const ConfigOpen := "<config xmlns=" + Quote + "http://tail-f.com/ns/config/1.0" + Quote + ">"
  const TeOpen := "  <traffic-engineering xmlns=" + Quote + "http://example.com/traffic-engineering" + Quote + ">"
  const TeClose := "  </traffic-engineering>"
  const ConfigClose := "</config>"

  /** The request fields as they appear in the XML, before the label paths. */
  function Header(start: string, end: string, serviceType: string, serviceName: string): (r: seq<string>)
    ensures |r| == 7
  {
    [ConfigOpen, TeOpen,
     Element("source", start), Element("destination", end), Element("color", IntToString(Colour(end))),
     Element("service-type", Lower(serviceType)),
     Element("service-name", Upper(serviceType) + "-" + Upper(serviceName))]
  }

  /** The template before `.strip()`: a newline, the lines, a newline; the label paths fill one line. */
  function Template(header: seq<string>, block: string): string {
    "\n" + Join("\n", header + ([block] + [TeClose, ConfigClose])) + "\n"
  }

  /** `perform_traffic_engineering` once the path is known. `repr` renders the values `str()` leaves to it. */
  function TrafficEngineering(start: string, end: string, serviceType: string, serviceName: string,
                              data: PathData, repr: Json -> string): (r: string)
    ensures data.PathError? ==> r == data.error
    ensures data.Path? && Sids(data.segments).None? ==> r == MissingSid
  {
    match data
    case PathError(e) => e
    case Path(_, segments) =>
      match Sids(segments)
      case None => MissingSid
      case Some(sids) =>
        var texts := seq(|sids|, i requires 0 <= i < |sids| => PyStr(sids[i], repr));
        Strip(Template(Header(start, end, serviceType, serviceName), TrimRight(LabelPaths(texts))))
  }

  // ---------------------------------------------------------------------------
  // The shape of the XML
  // ---------------------------------------------------------------------------

  /** The accumulated label paths are the label lines joined, plus a final newline. */
  lemma {:induction false} LabelPathsJoin(texts: seq<string>)
    requires texts != []
    ensures LabelPaths(texts) == Join("\n", LabelLines(texts)) + "\n"
    decreases |texts|
  {
    if |texts| > 1 {
      LabelPathsJoin(texts[1..]);
      assert LabelLines(texts) == [LabelLine(texts[0])] + LabelLines(texts[1..]);
      JoinCons("\n", LabelLine(texts[0]), LabelLines(texts[1..]));
    }
  }

  lemma TrimRightNewline(x: string)
    requires x != [] && !IsSpace(x[|x| - 1])
    ensures TrimRight(x + "\n") == x
  {
    assert (x + "\n")[..|x|] == x;
  }

  /** `label_paths.rstrip()` removes exactly the final newline: the label lines, one per hop, in order. */
  lemma LabelBlock(texts: seq<string>)
    ensures TrimRight(LabelPaths(texts)) == Join("\n", LabelLines(texts))
  {
    if texts != [] {
      var lines := LabelLines(texts);
      LabelPathsJoin(texts);
      JoinLastChar("\n", lines);
      TrimRightNewline(Join("\n", lines));
    }
  }

  /** `.strip()` removes a newline on each side of text that starts and ends with a non-space. */
  lemma StripFramed(body: string)
    requires body != [] && !IsSpace(body[0]) && !IsSpace(body[|body| - 1])
    ensures Strip("\n" + body + "\n") == body
  {
    var s := "\n" + body + "\n";
    assert s[1..] == body + "\n";
    assert TrimLeft(s[1..]) == body + "\n";
    TrimRightNewline(body);
  }

  /** No line holds a newline: joining with newlines and splitting again gives the same lines. */
  predicate OneLine(lines: seq<string>) {
    forall i | 0 <= i < |lines| :: '\n' !in lines[i]
  }

  lemma OneLineConcat(a: seq<string>, b: seq<string>, c: seq<string>)
    requires OneLine(a) && OneLine(b) && OneLine(c)
    ensures OneLine(a + (b + c))
  {
  }

  /**
   A template of header lines, one block and closing lines, stripped and split
   at newlines, gives back the header, the block's own lines and the closing
   lines, provided the first and last characters are not spaces.
   */
  lemma SplitFramed(header: seq<string>, block: string, mid: seq<string>, closes: seq<string>)
    requires mid != [] && block == Join("\n", mid)
    requires header != [] && header[0] != [] && !IsSpace(header[0][0])
    requires closes != [] && closes[|closes| - 1] != []
    requires !IsSpace(closes[|closes| - 1][|closes[|closes| - 1]| - 1])
    requires OneLine(header) && OneLine(mid) && OneLine(closes)
    ensures Split(Strip("\n" + Join("\n", header + ([block] + closes)) + "\n"), "\n") == header + (mid + closes)
  {
    var lines := header + (mid + closes);
    JoinFlatten("\n", header, mid, closes);
    assert lines[0] == header[0];
    assert lines[|lines| - 1] == closes[|closes| - 1];
    JoinFirstChar("\n", lines);
    JoinLastChar("\n", lines);
    StripFramed(Join("\n", lines));
    OneLineConcat(header, mid, closes);
    SplitJoin(lines, '\n');
  }

  lemma ConfigOpenFacts()
    ensures ConfigOpen != [] && ConfigOpen[0] == '<' && '\n' !in ConfigOpen
  {
  }

  lemma TeOpenNoNewline()
    ensures '\n' !in TeOpen
  {
  }

  lemma ClosingFacts()
    ensures OneLine([TeClose, ConfigClose]) && ConfigClose[|ConfigClose| - 1] == '>'
  {
  }

  lemma TagsNoNewline()
    ensures '\n' !in "source" && '\n' !in "destination" && '\n' !in "color"
    ensures '\n' !in "service-type" && '\n' !in "service-name" && '\n' !in "-"
  {
  }

  lemma LabelTagsNoNewline()
    ensures '\n' !in "    <label-path>" && '\n' !in "</label-path>"
  {
  }

  lemma LabelLinesOneLine(texts: seq<string>)
    requires forall i | 0 <= i < |texts| :: '\n' !in texts[i]
    ensures OneLine(LabelLines(texts))
  {
    LabelTagsNoNewline();
  }

  lemma ElementNoNewline(tag: string, v: string)
    requires '\n' !in tag && '\n' !in v
    ensures '\n' !in Element(tag, v)
  {
  }

  lemma CaseNoNewline(s: string)
    requires '\n' !in s
    ensures '\n' !in Lower(s) && '\n' !in Upper(s)
  {
  }

  lemma NumberNoNewline(i: int)
    ensures '\n' !in IntToString(i)
  {
    IntToStringChars(i);
  }

  lemma SevenLines(a: string, b: string, c: string, d: string, e: string, f: string, g: string)
    requires '\n' !in a && '\n' !in b && '\n' !in c && '\n' !in d && '\n' !in e && '\n' !in f && '\n' !in g
    ensures OneLine([a, b, c, d, e, f, g])
  {
  }

  /** With no newline in the request, each header field is one line of its own. */
  lemma HeaderNoNewline(start: string, end: string, serviceType: string, serviceName: string)
    requires '\n' !in start && '\n' !in end && '\n' !in serviceType && '\n' !in serviceName
    ensures OneLine(Header(start, end, serviceType, serviceName))
  {
    var colour := IntToString(Colour(end));
    var kind := Lower(serviceType);
    var name := Upper(serviceType) + "-" + Upper(serviceName);
    ConfigOpenFacts();
    TeOpenNoNewline();
    TagsNoNewline();
    NumberNoNewline(Colour(end));
    CaseNoNewline(serviceType);
    CaseNoNewline(serviceName);
    ElementNoNewline("source", start);
    ElementNoNewline("destination", end);
    ElementNoNewline("color", colour);
    ElementNoNewline("service-type", kind);
    ElementNoNewline("service-name", name);
    SevenLines(ConfigOpen, TeOpen, Element("source", start), Element("destination", end),
               Element("color", colour), Element("service-type", kind), Element("service-name", name));
  }

  /** The rendered label lines, as `perform_traffic_engineering` builds them from the sids. */
  predicate Rendered(data: PathData, repr: Json -> string, texts: seq<string>) {
    data.Path? && Sids(data.segments).Some?
    && |texts| == |data.segments|
    && forall i | 0 <= i < |texts| :: texts[i] == PyStr(Sids(data.segments).value[i], repr)
  }

  lemma TeUnfold(start: string, end: string, serviceType: string, serviceName: string,
                 data: PathData, repr: Json -> string, texts: seq<string>)
    requires Rendered(data, repr, texts)
    ensures TrafficEngineering(start, end, serviceType, serviceName, data, repr)
      == Strip(Template(Header(start, end, serviceType, serviceName), TrimRight(LabelPaths(texts))))
  {
    var sids := Sids(data.segments).value;
    assert texts == seq(|sids|, i requires 0 <= i < |sids| => PyStr(sids[i], repr));
  }

  lemma HeaderStarts(start: string, end: string, serviceType: string, serviceName: string)
    ensures var h := Header(start, end, serviceType, serviceName); h != [] && h[0] != [] && !IsSpace(h[0][0])
  {
    ConfigOpenFacts();
  }

  lemma ClosingEnds()
    ensures var closes := [TeClose, ConfigClose];
      closes[|closes| - 1] != [] && !IsSpace(closes[|closes| - 1][|closes[|closes| - 1]| - 1])
      && OneLine(closes)
  {
    ClosingFacts();
  }

  /** The label block's lines: one per hop, or a single empty line when there is no hop. */
  lemma LabelMid(texts: seq<string>)
    requires forall i | 0 <= i < |texts| :: '\n' !in texts[i]
    ensures var mid := if texts == [] then [""] else LabelLines(texts);
      mid != [] && TrimRight(LabelPaths(texts)) == Join("\n", mid) && OneLine(mid)
  {
    LabelBlock(texts);
    LabelLinesOneLine(texts);
  }

  /**
   The configuration's lines: the two opening tags, source, destination,
   colour, service type and service name, then one label-path line per hop in
   path order (an empty line for a path without hops), then the two closing tags.
   */
  lemma TeLines(start: string, end: string, serviceType: string, serviceName: string,
                data: PathData, repr: Json -> string, texts: seq<string>)
    requires '\n' !in start && '\n' !in end && '\n' !in serviceType && '\n' !in serviceName
    requires Rendered(data, repr, texts)
    requires forall i | 0 <= i < |texts| :: '\n' !in texts[i]
    ensures Split(TrafficEngineering(start, end, serviceType, serviceName, data, repr), "\n")
      == Header(start, end, serviceType, serviceName)
         + ((if texts == [] then [""] else LabelLines(texts)) + [TeClose, ConfigClose])
  {
    var header := Header(start, end, serviceType, serviceName);
    var block := TrimRight(LabelPaths(texts));
    var mid := if texts == [] then [""] else LabelLines(texts);
    TeUnfold(start, end, serviceType, serviceName, data, repr, texts);
    HeaderStarts(start, end, serviceType, serviceName);
    HeaderNoNewline(start, end, serviceType, serviceName);
    ClosingEnds();
    LabelMid(texts);
    SplitFramed(header, block, mid, [TeClose, ConfigClose]);
  }
}
