/**
 The BGP-LS half of the GoBGP collector: the three NLRI decoders that turn one
 destination (as `MessageToDict` renders it) into a node, link or prefix
 record, the loop that sorts destinations into those three collections, the
 output document with its statistics, and the regrouping of links and
 prefixes under the router that advertises them.

 Every decoder body runs inside `try/except Exception: return None`, so a
 Python exception and an explicit `return None` look the same to the caller:
 both are `None` here.
 */
module Bgpls {
  import opened Json
  import opened Text

  const NodeType := "LS_NLRI_NODE"
  const LinkType := "LS_NLRI_LINK"
  const PrefixV4 := "LS_NLRI_PREFIX_V4"
  const PrefixV6 := "LS_NLRI_PREFIX_V6"

  // ===========================================================================
  // Records the decoders fill in
  // ===========================================================================

  /** The node dict; its keys are fixed at creation and only re-assigned later, so their order never changes. */
  datatype NodeRec = NodeRec(protocol: Json, igp: Json, routerId: Json, name: Json, asn: Json, caps: Json)

  datatype LinkRec = LinkRec(protocol: Json, local: Json, remote: Json, localIp: Json, remoteIp: Json, metric: Json, sid: Json)

  datatype PrefixRec = PrefixRec(protocol: Json, local: Json, prefix: Json, sid: Json)

  function NodeFields(n: NodeRec): Fields {
    [("type", Str("node")), ("protocol_id", n.protocol), ("igp_router_id", n.igp), ("local_router_id", n.routerId),
     ("node_name", n.name), ("asn", n.asn), ("sr_capabilities", n.caps)]
  }

  function LinkFields(l: LinkRec): Fields {
    [("type", Str("link")), ("protocol_id", l.protocol), ("local_node", l.local), ("remote_node", l.remote),
     ("local_ip", l.localIp), ("remote_ip", l.remoteIp), ("igp_metric", l.metric), ("sr_adjacency_sid", l.sid)]
  }

  function PrefixFields(p: PrefixRec): Fields {
    [("type", Str("prefix")), ("protocol_id", p.protocol), ("local_node", p.local), ("prefix", p.prefix),
     ("sr_prefix_sid", p.sid)]
  }

  // ===========================================================================
  // The part the three decoders share
  // ===========================================================================

  /** `x[0]`: the first item of a list or the first character of a string; a dict has no key 0. */
  function First(x: Json): (r: Result<Json>)
    ensures x.Arr? && x.items != [] ==> r == Ok(x.items[0])
    ensures r.Ok? ==> x.Arr? || x.Str?
  {
    match x
    case Arr(items) => if items == [] then Err("IndexError") else Ok(items[0])
    case Str(s) => if s == [] then Err("IndexError") else Ok(Str([s[0]]))
    case Obj(_) => Err("KeyError")
    case _ => Err("TypeError")
  }

  /** `destination.get('paths', [])`, as the decoders read it. */
  function Paths(dest: Json): Json {
    if dest.Obj? then GetOr(dest.fields, "paths", Arr([])) else Null
  }

  /** The first path and its (non-empty) nlri; no paths or an empty nlri ends the decoder with None. */
  function Head(dest: Json): (r: Result<(Json, Json)>)
    ensures r.Ok? ==> dest.Obj? && Truthy(Paths(dest)) && Truthy(r.value.1)
    ensures r.Ok? ==> First(Paths(dest)) == Ok(r.value.0) && r.value.0.Obj?
    ensures r.Ok? ==> Some(r.value.1) == Get(r.value.0.fields, "nlri")
  {
    var paths :- DictGet(dest, "paths", Arr([]));
    if !Truthy(paths) then Err("no paths")
    else
      var path :- First(paths);
      PathHead(path)
  }

  /** `path.get('nlri', {})`, which must be non-empty. */
  function PathHead(path: Json): (r: Result<(Json, Json)>)
    ensures r.Ok? ==> r.value.0 == path && path.Obj? && Truthy(r.value.1)
    ensures r.Ok? ==> Some(r.value.1) == Get(path.fields, "nlri")
  {
    var nlri :- DictGet(path, "nlri", Obj([]));
    if !Truthy(nlri) then Err("empty nlri")
    else Ok((path, nlri))
  }

  /** `{k: v for k, v in nlri_any.items() if k != '@type'}`. */
  function Unwrapped(nlri: Json): (r: Result<Fields>)
    ensures r.Ok? <==> nlri.Obj?
    ensures r.Ok? ==> r.value == Pop(nlri.fields, "@type")
  {
    if nlri.Obj? then Ok(Pop(nlri.fields, "@type")) else Err("AttributeError")
  }

  /**
   The node decoder's variant: the `@type` key is stripped only when present,
   and a non-dict nlri fails either at the `in` test or at `.get`.
   */
  function NodeUnwrapped(nlri: Json): (r: Result<Fields>)
    ensures r.Ok? <==> nlri.Obj?
    ensures r.Ok? ==> r == Unwrapped(nlri)
  {
    var typed :- PyIn("@type", nlri);
    if !nlri.Obj? then Err("AttributeError")
    else if typed then Ok(Pop(nlri.fields, "@type"))
    else Ok(nlri.fields)
  }

  /** `nlri_dict.get('nlri', nlri_dict)`: the nested NLRI, or the dict itself. */
  function Nested(nd: Fields): Json {
    GetOr(nd, "nlri", Obj(nd))
  }

  /** `{"asn": x.get('asn'), "igp_router_id": x.get('igp_router_id')}`. */
  function NodeDescriptor(x: Json): (r: Result<Json>)
    ensures r.Ok? <==> x.Obj?
    ensures r.Ok? ==> r.value == Obj([("asn", GetOr(x.fields, "asn", Null)), ("igp_router_id", GetOr(x.fields, "igp_router_id", Null))])
  {
    if !x.Obj? then Err("AttributeError")
    else Ok(Obj([("asn", GetOr(x.fields, "asn", Null)), ("igp_router_id", GetOr(x.fields, "igp_router_id", Null))]))
  }

  /** The path attributes: `path.get('pattrs', [])` iterated. */
  function Pattrs(path: Json): Result<seq<Json>> {
    var pattrs :- DictGet(path, "pattrs", Arr([]));
    Iter(pattrs)
  }

  // ===========================================================================
  // parse_node_nlri
  // ===========================================================================

  /** One attribute of a node path: only an LS attribute (`'@type' in pattr`) with a non-empty `node` part counts. */
  function NodeAttr(n: NodeRec, pattr: Json): (r: Result<NodeRec>)
    ensures r.Ok? ==> r.value.protocol == n.protocol && r.value.igp == n.igp && r.value.asn == n.asn
  {
    var typed :- PyIn("@type", pattr);
    if !typed then Ok(n)
    else
      var attr :- DictGet(pattr, "node", Obj([]));
      if !Truthy(attr) then Ok(n)
      else if !attr.Obj? then Err("AttributeError")
      else
        var name := GetOr(attr.fields, "name", Null);
        var rid := GetOr(attr.fields, "local_router_id", Null);
        var caps := GetOr(attr.fields, "sr_capabilities", Obj([]));
        if !Truthy(caps) then Ok(n.(name := name, routerId := rid))
        else
          var ranges :- DictGet(caps, "ranges", Arr([]));
          Ok(n.(name := name, routerId := rid, caps := Obj([("ranges", ranges)])))
  }

  function NodeAttrs(n: NodeRec, pattrs: seq<Json>): (r: Result<NodeRec>)
    ensures r.Ok? ==> r.value.protocol == n.protocol && r.value.igp == n.igp && r.value.asn == n.asn
  {
    if pattrs == [] then Ok(n)
    else
      var prev :- NodeAttrs(n, pattrs[..|pattrs| - 1]);
      NodeAttr(prev, pattrs[|pattrs| - 1])
  }

  /** The node record before the path attributes: protocol, and the local node's ASN and router id. */
  function NodeBase(nd: Fields): (r: Result<NodeRec>)
    ensures r.Ok? ==> r.value.protocol == GetOr(nd, "protocol_id", Str("unknown"))
  {
    var n := NodeRec(GetOr(nd, "protocol_id", Str("unknown")), Null, Null, Null, Null, Obj([]));
    var local :- DictGet(Nested(nd), "local_node", Obj([]));
    if !Truthy(local) then Ok(n)
    else if !local.Obj? then Err("AttributeError")
    else Ok(n.(asn := GetOr(local.fields, "asn", Null), igp := GetOr(local.fields, "igp_router_id", Null)))
  }

  function NodeResult(dest: Json): (r: Result<NodeRec>)
  {
    var h :- Head(dest);
    NodeFrom(h)
  }

  /** The node decoder after the shared head. */
  function NodeFrom(h: (Json, Json)): (r: Result<NodeRec>)
    ensures r.Ok? ==> h.1.Obj? && Get(Pop(h.1.fields, "@type"), "type") == Some(Str(NodeType))
  {
    var nd :- NodeUnwrapped(h.1);
    if GetOr(nd, "type", Str("")) != Str(NodeType) then Err("not a node")
    else
      var n :- NodeBase(nd);
      var pattrs :- Pattrs(h.0);
      NodeAttrs(n, pattrs)
  }

  /** `parse_node_nlri`. */
  function DecodeNode(dest: Json): (r: Option<Fields>)
    ensures r.Some? ==> Get(r.value, "type") == Some(Str("node"))
  {
    match NodeResult(dest)
    case Ok(n) => Some(NodeFields(n))
    case Err(_) => None
  }

  // ===========================================================================
  // parse_link_nlri
  // ===========================================================================

  /** One attribute of a link path: a non-empty `link` part sets the metric and the adjacency SID. */
  function LinkAttr(l: LinkRec, pattr: Json): (r: Result<LinkRec>)
    ensures r.Ok? ==> r.value.(metric := l.metric, sid := l.sid) == l
  {
    var attr :- DictGet(pattr, "link", Obj([]));
    if !Truthy(attr) then Ok(l)
    else if !attr.Obj? then Err("AttributeError")
    else Ok(l.(metric := GetOr(attr.fields, "igp_metric", Null), sid := GetOr(attr.fields, "sr_adjacency_sid", Null)))
  }

  function LinkAttrs(l: LinkRec, pattrs: seq<Json>): (r: Result<LinkRec>)
    ensures r.Ok? ==> r.value.(metric := l.metric, sid := l.sid) == l
  {
    if pattrs == [] then Ok(l)
    else
      var prev :- LinkAttrs(l, pattrs[..|pattrs| - 1]);
      LinkAttr(prev, pattrs[|pattrs| - 1])
  }

  /** A node descriptor when the nested NLRI has a non-empty one, `{}` otherwise. */
  function DescriptorOr(nested: Json, k: string): (r: Result<Json>)
  {
    var x :- DictGet(nested, k, Obj([]));
    if Truthy(x) then NodeDescriptor(x) else Ok(Obj([]))
  }

  /** The link record before the path attributes: protocol, both node descriptors and both interface addresses. */
  function LinkBase(nd: Fields): (r: Result<LinkRec>)
    ensures r.Ok? ==> r.value.metric == Null && r.value.sid == Null
  {
    var nested := Nested(nd);
    var local :- DescriptorOr(nested, "local_node");
    var remote :- DescriptorOr(nested, "remote_node");
    var desc :- DictGet(nested, "link_descriptor", Obj([]));
    var l := LinkRec(GetOr(nd, "protocol_id", Str("unknown")), local, remote, Null, Null, Null, Null);
    if !Truthy(desc) then Ok(l)
    else if !desc.Obj? then Err("AttributeError")
    else Ok(l.(localIp := GetOr(desc.fields, "interface_addr_ipv4", Null), remoteIp := GetOr(desc.fields, "neighbor_addr_ipv4", Null)))
  }

  function LinkResult(dest: Json): (r: Result<LinkRec>)
  {
    var h :- Head(dest);
    LinkFrom(h)
  }

  /** The link decoder after the shared head. */
  function LinkFrom(h: (Json, Json)): (r: Result<LinkRec>)
    ensures r.Ok? ==> h.1.Obj? && Get(Pop(h.1.fields, "@type"), "type") == Some(Str(LinkType))
  {
    var nd :- Unwrapped(h.1);
    if GetOr(nd, "type", Null) != Str(LinkType) then Err("not a link")
    else
      var l :- LinkBase(nd);
      var pattrs :- Pattrs(h.0);
      LinkAttrs(l, pattrs)
  }

  /** `parse_link_nlri`. */
  function DecodeLink(dest: Json): (r: Option<Fields>)
    ensures r.Some? ==> Get(r.value, "type") == Some(Str("link"))
  {
    match LinkResult(dest)
    case Ok(l) => Some(LinkFields(l))
    case Err(_) => None
  }

  // ===========================================================================
  // parse_prefix_nlri
  // ===========================================================================

  /** One attribute of a prefix path: a non-empty `sr_prefix_sid` of a non-empty `prefix` part replaces the SID list. */
  function PrefixAttr(p: PrefixRec, pattr: Json): (r: Result<PrefixRec>)
    ensures r.Ok? ==> r.value.(sid := p.sid) == p
    ensures r.Ok? ==> r.value.sid == p.sid || Truthy(r.value.sid)
  {
    var attr :- DictGet(pattr, "prefix", Obj([]));
    if !Truthy(attr) then Ok(p)
    else
      var sid :- DictGet(attr, "sr_prefix_sid", Arr([]));
      if Truthy(sid) then Ok(p.(sid := sid)) else Ok(p)
  }

  function PrefixAttrs(p: PrefixRec, pattrs: seq<Json>): (r: Result<PrefixRec>)
    ensures r.Ok? ==> r.value.(sid := p.sid) == p
    ensures r.Ok? ==> r.value.sid == p.sid || Truthy(r.value.sid)
  {
    if pattrs == [] then Ok(p)
    else
      var prev :- PrefixAttrs(p, pattrs[..|pattrs| - 1]);
      PrefixAttr(prev, pattrs[|pattrs| - 1])
  }

  /** The prefix record before the path attributes: the first reachable prefix, and an empty SID list. */
  function PrefixBase(nd: Fields): (r: Result<PrefixRec>)
    ensures r.Ok? ==> r.value.sid == Arr([])
  {
    var nested := Nested(nd);
    var local :- DescriptorOr(nested, "local_node");
    var desc :- DictGet(nested, "prefix_descriptor", Obj([]));
    var p := PrefixRec(GetOr(nd, "protocol_id", Str("unknown")), local, Null, Arr([]));
    if !Truthy(desc) then Ok(p)
    else
      var reach :- DictGet(desc, "ip_reachability", Arr([]));
      if !Truthy(reach) then Ok(p)
      else
        var first :- First(reach);
        Ok(p.(prefix := first))
  }

  predicate IsPrefixType(t: Json) {
    t == Str(PrefixV4) || t == Str(PrefixV6)
  }

  function PrefixResult(dest: Json): (r: Result<PrefixRec>)
  {
    var h :- Head(dest);
    PrefixFrom(h)
  }

  /** The prefix decoder after the shared head. */
  function PrefixFrom(h: (Json, Json)): (r: Result<PrefixRec>)
    ensures r.Ok? ==> h.1.Obj? && Get(Pop(h.1.fields, "@type"), "type").Some?
    ensures r.Ok? ==> IsPrefixType(Get(Pop(h.1.fields, "@type"), "type").value)
  {
    var nd :- Unwrapped(h.1);
    if !IsPrefixType(GetOr(nd, "type", Str(""))) then Err("not a prefix")
    else
      var p :- PrefixBase(nd);
      var pattrs :- Pattrs(h.0);
      PrefixAttrs(p, pattrs)
  }

  /** `parse_prefix_nlri`. */
  function DecodePrefix(dest: Json): (r: Option<Fields>)
    ensures r.Some? ==> Get(r.value, "type") == Some(Str("prefix"))
  {
    match PrefixResult(dest)
    case Ok(p) => Some(PrefixFields(p))
    case Err(_) => None
  }

  // ===========================================================================
  // What the decoders accept
  // ===========================================================================

  /** The `type` entry of the NLRI of the first path, when the destination has that shape. */
  function Discriminator(dest: Json): Option<Json> {
    var paths := Paths(dest);
    if paths.Arr? && paths.items != [] && paths.items[0].Obj? then
      var nlri := GetOr(paths.items[0].fields, "nlri", Obj([]));
      if nlri.Obj? then Get(nlri.fields, "type") else None
    else None
  }

  /** The first path exists, is a dict, and carries a non-empty NLRI. */
  predicate HasNlri(dest: Json) {
    var paths := Paths(dest);
    paths.Arr? && paths.items != [] && paths.items[0].Obj? &&
    Truthy(GetOr(paths.items[0].fields, "nlri", Obj([])))
  }

  /** The shared head succeeds only on a destination with a first path and an NLRI, and then reads the discriminator. */
  lemma HeadShape(dest: Json)
    requires Head(dest).Ok?
    ensures HasNlri(dest)
    ensures Head(dest).value.0 == Paths(dest).items[0]
    ensures Head(dest).value.1 == GetOr(Paths(dest).items[0].fields, "nlri", Obj([]))
  {
    var h := Head(dest).value;
    assert First(Paths(dest)) == Ok(h.0);
  }

  /**
   Each decoder accepts only its own discriminator: `LS_NLRI_NODE`,
   `LS_NLRI_LINK`, or one of the two prefix types.
   */
  lemma DecodeDispatch(dest: Json)
    ensures DecodeNode(dest).Some? ==> HasNlri(dest) && Discriminator(dest) == Some(Str(NodeType))
    ensures DecodeLink(dest).Some? ==> HasNlri(dest) && Discriminator(dest) == Some(Str(LinkType))
    ensures DecodePrefix(dest).Some? ==> HasNlri(dest) && Discriminator(dest).Some? && IsPrefixType(Discriminator(dest).value)
  {
    if Head(dest).Ok? {
      HeadShape(dest);
      var h := Head(dest).value;
      if h.1.Obj? {
        UnwrappedType(h.1.fields);
      }
      DispatchFrom(dest, h);
    }
  }

  lemma DispatchFrom(dest: Json, h: (Json, Json))
    requires Head(dest) == Ok(h)
    ensures DecodeNode(dest).Some? ==> NodeFrom(h).Ok?
    ensures DecodeLink(dest).Some? ==> LinkFrom(h).Ok?
    ensures DecodePrefix(dest).Some? ==> PrefixFrom(h).Ok?
  {
  }

  /** Dropping `@type` does not touch `type`. */
  lemma UnwrappedType(fs: Fields)
    ensures Get(Pop(fs, "@type"), "type") == Get(fs, "type")
  {
    assert "type" != "@type";
  }

  /** A destination is decoded by at most one of the three decoders. */
  lemma DecodersExclusive(dest: Json)
    ensures !(DecodeNode(dest).Some? && DecodeLink(dest).Some?)
    ensures !(DecodeNode(dest).Some? && DecodePrefix(dest).Some?)
    ensures !(DecodeLink(dest).Some? && DecodePrefix(dest).Some?)
  {
    DecodeDispatch(dest);
  }

  /** Only the first path matters: two destinations whose first paths agree decode alike. */
  lemma FirstPathOnly(d1: Json, d2: Json)
    requires Paths(d1).Arr? && Paths(d2).Arr? && Paths(d1).items != [] && Paths(d2).items != []
    requires Paths(d1).items[0] == Paths(d2).items[0]
    requires d1.Obj? && d2.Obj?
    ensures DecodeNode(d1) == DecodeNode(d2)
    ensures DecodeLink(d1) == DecodeLink(d2)
    ensures DecodePrefix(d1) == DecodePrefix(d2)
  {
    HeadFirst(d1);
    HeadFirst(d2);
  }

  lemma HeadFirst(dest: Json)
    requires dest.Obj? && Paths(dest).Arr? && Paths(dest).items != []
    ensures Head(dest) == PathHead(Paths(dest).items[0])
  {
  }

  /** No paths, or an empty NLRI on the first one: every decoder gives None. */
  lemma NoNlriNone(dest: Json)
    requires !HasNlri(dest)
    ensures DecodeNode(dest).None? && DecodeLink(dest).None? && DecodePrefix(dest).None?
  {
    DecodeDispatch(dest);
  }

  // ===========================================================================
  // Round trips: what a well-formed advertisement decodes to
  // ===========================================================================

  /** A router as a BGP-LS node descriptor names it. */
  datatype RouterRef = RouterRef(asn: Json, igp: Json)

  function RefObj(r: RouterRef): Json {
    Obj([("asn", r.asn), ("igp_router_id", r.igp)])
  }

  /** An optional protobuf field: `MessageToDict` leaves an unset field out of the dict. */
  function Opt(k: string, v: Option<Json>): Fields {
    if v.Some? then [(k, v.value)] else []
  }

  function OrNull(v: Option<Json>): Json {
    if v.Some? then v.value else Null
  }

  /** One destination with a single path: the wrapped NLRI (tagged with its `@type`) and the path attributes. */
  function Destination(typeUrl: string, nlri: Fields, pattrs: seq<Json>): Json {
    Obj([("paths", Arr([Obj([("nlri", Obj([("@type", Str(typeUrl))] + nlri)), ("pattrs", Arr(pattrs))])]))])
  }

  /** A link advertisement: both node descriptors, optional interface addresses, optional metric and SID. */
  datatype LinkAd = LinkAd(
    protocol: Json, local: RouterRef, remote: RouterRef,
    localIp: Option<Json>, remoteIp: Option<Json>, metric: Option<Json>, sid: Option<Json>)

  function EncodeLink(typeUrl: string, attrUrl: string, a: LinkAd): Json {
    Destination(typeUrl,
      [("type", Str(LinkType)), ("protocol_id", a.protocol),
       ("nlri", Obj([("local_node", RefObj(a.local)), ("remote_node", RefObj(a.remote)),
                     ("link_descriptor", Obj(Opt("interface_addr_ipv4", a.localIp) + Opt("neighbor_addr_ipv4", a.remoteIp)))]))],
      [Obj([("@type", Str(attrUrl)), ("link", Obj(Opt("igp_metric", a.metric) + Opt("sr_adjacency_sid", a.sid)))])])
  }

  /** What the decoder should make of a link advertisement: every absent field is None. */
  function LinkOf(a: LinkAd): LinkRec {
    LinkRec(a.protocol, RefObj(a.local), RefObj(a.remote), OrNull(a.localIp), OrNull(a.remoteIp), OrNull(a.metric), OrNull(a.sid))
  }

  /** A link decodes to its advertised fields, with None for each field the advertisement leaves out. */
  lemma LinkRoundTrip(typeUrl: string, attrUrl: string, a: LinkAd)
    ensures DecodeLink(EncodeLink(typeUrl, attrUrl, a)) == Some(LinkFields(LinkOf(a)))
  {
    var nd := LinkNlri(a);
    var wrapped := Obj([("@type", Str(typeUrl))] + nd);
    var path := Obj([("nlri", wrapped), ("pattrs", Arr([LinkAttrObj(attrUrl, a)]))]);
    DestinationHead(typeUrl, nd, [LinkAttrObj(attrUrl, a)]);
    assert Get(nd, "type") == Some(Str(LinkType));
    assert "@type" !in Keys(nd) by { NoKey(nd, "@type"); }
    UnwrapTagged(typeUrl, nd);
    var base := LinkRec(a.protocol, RefObj(a.local), RefObj(a.remote), OrNull(a.localIp), OrNull(a.remoteIp), Null, Null);
    LinkBaseOf(a);
    LinkAttrOf(base, attrUrl, a);
    assert LinkAttrs(base, [LinkAttrObj(attrUrl, a)]) == LinkAttr(base, LinkAttrObj(attrUrl, a)) by {
      assert [LinkAttrObj(attrUrl, a)][..0] == [];
    }
    assert LinkFrom((path, wrapped)) == Ok(LinkOf(a));
  }

  /** The NLRI fields of a link advertisement, without the `@type` tag. */
  function LinkNlri(a: LinkAd): Fields {
    [("type", Str(LinkType)), ("protocol_id", a.protocol),
     ("nlri", Obj([("local_node", RefObj(a.local)), ("remote_node", RefObj(a.remote)),
                   ("link_descriptor", Obj(Opt("interface_addr_ipv4", a.localIp) + Opt("neighbor_addr_ipv4", a.remoteIp)))]))]
  }

  function LinkAttrObj(attrUrl: string, a: LinkAd): Json {
    Obj([("@type", Str(attrUrl)), ("link", Obj(Opt("igp_metric", a.metric) + Opt("sr_adjacency_sid", a.sid)))])
  }

  lemma NoKey(fs: Fields, k: string)
    requires forall i | 0 <= i < |fs| :: fs[i].0 != k
    ensures k !in Keys(fs)
  {
  }

  lemma DestinationHead(typeUrl: string, nd: Fields, pattrs: seq<Json>)
    ensures var wrapped := Obj([("@type", Str(typeUrl))] + nd);
      var path := Obj([("nlri", wrapped), ("pattrs", Arr(pattrs))]);
      Head(Destination(typeUrl, nd, pattrs)) == Ok((path, wrapped)) && Pattrs(path) == Ok(pattrs)
  {
    var wrapped := Obj([("@type", Str(typeUrl))] + nd);
    var path := Obj([("nlri", wrapped), ("pattrs", Arr(pattrs))]);
    assert Get(path.fields, "nlri") == Some(wrapped);
    assert Get(path.fields, "pattrs") == Some(Arr(pattrs));
    assert PathHead(path) == Ok((path, wrapped));
  }

  lemma UnwrapTagged(typeUrl: string, nd: Fields)
    requires "@type" !in Keys(nd)
    ensures Unwrapped(Obj([("@type", Str(typeUrl))] + nd)) == Ok(nd)
  {
    var fs := [("@type", Str(typeUrl))] + nd;
    assert fs[1..] == nd;
  }

  /** The descriptor dict of a router reads back as itself. */
  lemma RefObjDescriptor(r: RouterRef)
    ensures NodeDescriptor(RefObj(r)) == Ok(RefObj(r))
  {
    GetFirst(RefObj(r).fields, 1);
  }

  /** A dict of two optional fields: each reads back as given (None when left out), and it is empty when both are. */
  lemma OptPair(k1: string, v1: Option<Json>, k2: string, v2: Option<Json>)
    requires k1 != k2
    ensures var fs := Opt(k1, v1) + Opt(k2, v2);
      GetOr(fs, k1, Null) == OrNull(v1) && GetOr(fs, k2, Null) == OrNull(v2) &&
      (Truthy(Obj(fs)) <==> v1.Some? || v2.Some?)
  {
  }

  lemma LinkBaseOf(a: LinkAd)
    ensures LinkBase(LinkNlri(a)) ==
      Ok(LinkRec(a.protocol, RefObj(a.local), RefObj(a.remote), OrNull(a.localIp), OrNull(a.remoteIp), Null, Null))
  {
    var desc := Opt("interface_addr_ipv4", a.localIp) + Opt("neighbor_addr_ipv4", a.remoteIp);
    var inner := Obj([("local_node", RefObj(a.local)), ("remote_node", RefObj(a.remote)), ("link_descriptor", Obj(desc))]);
    LinkNested(a);
    LinkInner(a);
    OptPair("interface_addr_ipv4", a.localIp, "neighbor_addr_ipv4", a.remoteIp);
    LinkBaseSteps(LinkNlri(a), inner, RefObj(a.local), RefObj(a.remote), Obj(desc));
  }

  lemma LinkNested(a: LinkAd)
    ensures Nested(LinkNlri(a)) ==
      Obj([("local_node", RefObj(a.local)), ("remote_node", RefObj(a.remote)),
           ("link_descriptor", Obj(Opt("interface_addr_ipv4", a.localIp) + Opt("neighbor_addr_ipv4", a.remoteIp)))])
    ensures GetOr(LinkNlri(a), "protocol_id", Str("unknown")) == a.protocol
  {
    GetFirst(LinkNlri(a), 1);
    GetFirst(LinkNlri(a), 2);
  }

  lemma LinkInner(a: LinkAd)
    ensures var desc := Obj(Opt("interface_addr_ipv4", a.localIp) + Opt("neighbor_addr_ipv4", a.remoteIp));
      var inner := Obj([("local_node", RefObj(a.local)), ("remote_node", RefObj(a.remote)), ("link_descriptor", desc)]);
      DescriptorOr(inner, "local_node") == Ok(RefObj(a.local)) &&
      DescriptorOr(inner, "remote_node") == Ok(RefObj(a.remote)) &&
      DictGet(inner, "link_descriptor", Obj([])) == Ok(desc)
  {
    var desc := Obj(Opt("interface_addr_ipv4", a.localIp) + Opt("neighbor_addr_ipv4", a.remoteIp));
    var inner := [("local_node", RefObj(a.local)), ("remote_node", RefObj(a.remote)), ("link_descriptor", desc)];
    GetFirst(inner, 1);
    GetFirst(inner, 2);
    RefObjDescriptor(a.local);
    RefObjDescriptor(a.remote);
  }

  /** `LinkBase` read step by step from the values each lookup yields. */
  lemma LinkBaseSteps(nd: Fields, nested: Json, local: Json, remote: Json, desc: Json)
    requires Nested(nd) == nested && DescriptorOr(nested, "local_node") == Ok(local)
    requires DescriptorOr(nested, "remote_node") == Ok(remote)
    requires DictGet(nested, "link_descriptor", Obj([])) == Ok(desc) && desc.Obj?
    ensures var l := LinkRec(GetOr(nd, "protocol_id", Str("unknown")), local, remote,
                             GetOr(desc.fields, "interface_addr_ipv4", Null), GetOr(desc.fields, "neighbor_addr_ipv4", Null), Null, Null);
      LinkBase(nd) == Ok(if Truthy(desc) then l else l.(localIp := Null, remoteIp := Null))
  {
  }

  lemma LinkAttrOf(l: LinkRec, attrUrl: string, a: LinkAd)
    requires l.metric == Null && l.sid == Null
    ensures LinkAttr(l, LinkAttrObj(attrUrl, a)) == Ok(l.(metric := OrNull(a.metric), sid := OrNull(a.sid)))
  {
    var attr := Opt("igp_metric", a.metric) + Opt("sr_adjacency_sid", a.sid);
    assert Get(LinkAttrObj(attrUrl, a).fields, "link") == Some(Obj(attr));
    OptPair("igp_metric", a.metric, "sr_adjacency_sid", a.sid);
  }

  /** A prefix advertisement: the reachability list and the prefix-SID list (either may be empty). */
  datatype PrefixAd = PrefixAd(v6: bool, protocol: Json, local: RouterRef, reach: seq<Json>, sids: seq<Json>)

  function PrefixNlri(a: PrefixAd): Fields {
    [("type", Str(if a.v6 then PrefixV6 else PrefixV4)), ("protocol_id", a.protocol),
     ("nlri", Obj([("local_node", RefObj(a.local)), ("prefix_descriptor", Obj([("ip_reachability", Arr(a.reach))]))]))]
  }

  function PrefixAttrObj(attrUrl: string, a: PrefixAd): Json {
    Obj([("@type", Str(attrUrl)), ("prefix", Obj([("sr_prefix_sid", Arr(a.sids))]))])
  }

  function EncodePrefix(typeUrl: string, attrUrl: string, a: PrefixAd): Json {
    Destination(typeUrl, PrefixNlri(a), [PrefixAttrObj(attrUrl, a)])
  }

  /** What the decoder should make of it: the first reachable prefix (None when there is none) and the SID list as advertised. */
  function PrefixOf(a: PrefixAd): PrefixRec {
    PrefixRec(a.protocol, RefObj(a.local), if a.reach == [] then Null else a.reach[0], Arr(a.sids))
  }

  /** A prefix decodes to its first reachable prefix, and its SID list stays `[]` when none is advertised. */
  lemma PrefixRoundTrip(typeUrl: string, attrUrl: string, a: PrefixAd)
    ensures DecodePrefix(EncodePrefix(typeUrl, attrUrl, a)) == Some(PrefixFields(PrefixOf(a)))
  {
    var nd := PrefixNlri(a);
    var wrapped := Obj([("@type", Str(typeUrl))] + nd);
    var path := Obj([("nlri", wrapped), ("pattrs", Arr([PrefixAttrObj(attrUrl, a)]))]);
    DestinationHead(typeUrl, nd, [PrefixAttrObj(attrUrl, a)]);
    PrefixUnwrap(typeUrl, a);
    var base := PrefixRec(a.protocol, RefObj(a.local), if a.reach == [] then Null else a.reach[0], Arr([]));
    PrefixBaseOf(a);
    PrefixAttrOf(base, attrUrl, a);
    assert PrefixAttrs(base, [PrefixAttrObj(attrUrl, a)]) == PrefixAttr(base, PrefixAttrObj(attrUrl, a)) by {
      assert [PrefixAttrObj(attrUrl, a)][..0] == [];
    }
    PrefixFromSteps((path, wrapped), nd, base, [PrefixAttrObj(attrUrl, a)]);
  }

  /** The tagged prefix NLRI unwraps to its fields, whose type is a prefix type. */
  lemma PrefixUnwrap(typeUrl: string, a: PrefixAd)
    ensures Unwrapped(Obj([("@type", Str(typeUrl))] + PrefixNlri(a))) == Ok(PrefixNlri(a))
    ensures IsPrefixType(GetOr(PrefixNlri(a), "type", Str("")))
  {
    var nd := PrefixNlri(a);
    assert Get(nd, "type") == Some(Str(if a.v6 then PrefixV6 else PrefixV4));
    assert "@type" !in Keys(nd) by { NoKey(nd, "@type"); }
    UnwrapTagged(typeUrl, nd);
  }

  lemma PrefixFromSteps(h: (Json, Json), nd: Fields, p: PrefixRec, pattrs: seq<Json>)
    requires Unwrapped(h.1) == Ok(nd) && IsPrefixType(GetOr(nd, "type", Str("")))
    requires PrefixBase(nd) == Ok(p) && Pattrs(h.0) == Ok(pattrs)
    ensures PrefixFrom(h) == PrefixAttrs(p, pattrs)
  {
  }

  lemma PrefixBaseOf(a: PrefixAd)
    ensures PrefixBase(PrefixNlri(a)) ==
      Ok(PrefixRec(a.protocol, RefObj(a.local), if a.reach == [] then Null else a.reach[0], Arr([])))
  {
    var desc := Obj([("ip_reachability", Arr(a.reach))]);
    var inner := Obj([("local_node", RefObj(a.local)), ("prefix_descriptor", desc)]);
    PrefixNested(a);
    PrefixInner(a);
    PrefixBaseSteps(PrefixNlri(a), inner, RefObj(a.local), desc, Arr(a.reach));
  }

  lemma PrefixNested(a: PrefixAd)
    ensures Nested(PrefixNlri(a)) ==
      Obj([("local_node", RefObj(a.local)), ("prefix_descriptor", Obj([("ip_reachability", Arr(a.reach))]))])
    ensures GetOr(PrefixNlri(a), "protocol_id", Str("unknown")) == a.protocol
  {
    GetFirst(PrefixNlri(a), 1);
    GetFirst(PrefixNlri(a), 2);
  }

  lemma PrefixInner(a: PrefixAd)
    ensures var inner := Obj([("local_node", RefObj(a.local)), ("prefix_descriptor", Obj([("ip_reachability", Arr(a.reach))]))]);
      DescriptorOr(inner, "local_node") == Ok(RefObj(a.local)) &&
      DictGet(inner, "prefix_descriptor", Obj([])) == Ok(Obj([("ip_reachability", Arr(a.reach))])) &&
      DictGet(Obj([("ip_reachability", Arr(a.reach))]), "ip_reachability", Arr([])) == Ok(Arr(a.reach))
  {
    var inner := [("local_node", RefObj(a.local)), ("prefix_descriptor", Obj([("ip_reachability", Arr(a.reach))]))];
    GetFirst(inner, 1);
    RefObjDescriptor(a.local);
  }

  /** `PrefixBase` read step by step from the values each lookup yields. */
  lemma PrefixBaseSteps(nd: Fields, nested: Json, local: Json, desc: Json, reach: Json)
    requires Nested(nd) == nested && DescriptorOr(nested, "local_node") == Ok(local)
    requires DictGet(nested, "prefix_descriptor", Obj([])) == Ok(desc) && Truthy(desc)
    requires DictGet(desc, "ip_reachability", Arr([])) == Ok(reach) && reach.Arr?
    ensures PrefixBase(nd) ==
      Ok(PrefixRec(GetOr(nd, "protocol_id", Str("unknown")), local, if reach.items == [] then Null else reach.items[0], Arr([])))
  {
  }

  lemma PrefixAttrOf(p: PrefixRec, attrUrl: string, a: PrefixAd)
    requires p.sid == Arr([])
    ensures PrefixAttr(p, PrefixAttrObj(attrUrl, a)) == Ok(p.(sid := Arr(a.sids)))
  {
    var attr := PrefixAttrObj(attrUrl, a);
    GetFirst(attr.fields, 1);
  }

  /** A node advertisement: the local descriptor and the optional name, router id and SRGB ranges of the node attribute. */
  datatype NodeAd = NodeAd(protocol: Json, local: RouterRef, name: Option<Json>, routerId: Option<Json>, ranges: Option<Json>)

  function NodeNlri(a: NodeAd): Fields {
    [("type", Str(NodeType)), ("protocol_id", a.protocol), ("nlri", Obj([("local_node", RefObj(a.local))]))]
  }

  function Capabilities(ranges: Option<Json>): Option<Json> {
    if ranges.Some? then Some(Obj([("ranges", ranges.value)])) else None
  }

  function NodeAttrFields(a: NodeAd): Fields {
    Opt("name", a.name) + Opt("local_router_id", a.routerId) + Opt("sr_capabilities", Capabilities(a.ranges))
  }

  function NodeAttrObj(attrUrl: string, a: NodeAd): Json {
    Obj([("@type", Str(attrUrl)), ("node", Obj(NodeAttrFields(a)))])
  }

  function EncodeNode(typeUrl: string, attrUrl: string, a: NodeAd): Json {
    Destination(typeUrl, NodeNlri(a), [NodeAttrObj(attrUrl, a)])
  }

  /** What the decoder should make of it: absent name and router id are None, absent capabilities `{}`. */
  function NodeOf(a: NodeAd): NodeRec {
    NodeRec(a.protocol, a.local.igp, OrNull(a.routerId), OrNull(a.name), a.local.asn,
            if a.ranges.Some? then Obj([("ranges", a.ranges.value)]) else Obj([]))
  }

  /** A node decodes to its advertised descriptor and attribute, with None or `{}` for what is left out. */
  lemma NodeRoundTrip(typeUrl: string, attrUrl: string, a: NodeAd)
    ensures DecodeNode(EncodeNode(typeUrl, attrUrl, a)) == Some(NodeFields(NodeOf(a)))
  {
    var nd := NodeNlri(a);
    var wrapped := Obj([("@type", Str(typeUrl))] + nd);
    var path := Obj([("nlri", wrapped), ("pattrs", Arr([NodeAttrObj(attrUrl, a)]))]);
    DestinationHead(typeUrl, nd, [NodeAttrObj(attrUrl, a)]);
    assert "@type" !in Keys(nd) by { NoKey(nd, "@type"); }
    UnwrapTagged(typeUrl, nd);
    assert NodeUnwrapped(wrapped) == Ok(nd);
    var base := NodeRec(a.protocol, a.local.igp, Null, Null, a.local.asn, Obj([]));
    NodeBaseOf(a);
    NodeAttrOf(base, attrUrl, a);
    assert NodeAttrs(base, [NodeAttrObj(attrUrl, a)]) == NodeAttr(base, NodeAttrObj(attrUrl, a)) by {
      assert [NodeAttrObj(attrUrl, a)][..0] == [];
    }
    assert NodeFrom((path, wrapped)) == Ok(NodeOf(a));
  }

  lemma NodeBaseOf(a: NodeAd)
    ensures NodeBase(NodeNlri(a)) == Ok(NodeRec(a.protocol, a.local.igp, Null, Null, a.local.asn, Obj([])))
  {
    var nd := NodeNlri(a);
    GetFirst(nd, 1);
    GetFirst(nd, 2);
    GetFirst(RefObj(a.local).fields, 1);
  }

  lemma NodeAttrOf(n: NodeRec, attrUrl: string, a: NodeAd)
    requires n.name == Null && n.routerId == Null && n.caps == Obj([])
    ensures NodeAttr(n, NodeAttrObj(attrUrl, a)) ==
      Ok(n.(name := OrNull(a.name), routerId := OrNull(a.routerId),
            caps := if a.ranges.Some? then Obj([("ranges", a.ranges.value)]) else Obj([])))
  {
    var attr := NodeAttrObj(attrUrl, a);
    GetFirst(attr.fields, 1);
    OptTriple("name", a.name, "local_router_id", a.routerId, "sr_capabilities", Capabilities(a.ranges));
  }

  /** A dict of three optional fields: each reads back as given (None when left out), and it is empty when all are. */
  lemma OptTriple(k1: string, v1: Option<Json>, k2: string, v2: Option<Json>, k3: string, v3: Option<Json>)
    requires k1 != k2 && k1 != k3 && k2 != k3
    ensures var fs := Opt(k1, v1) + Opt(k2, v2) + Opt(k3, v3);
      GetOr(fs, k1, Null) == OrNull(v1) && GetOr(fs, k2, Null) == OrNull(v2) && GetOr(fs, k3, Null) == OrNull(v3) &&
      (Truthy(Obj(fs)) <==> v1.Some? || v2.Some? || v3.Some?)
  {
    var fs := Opt(k1, v1) + Opt(k2, v2) + Opt(k3, v3);
    if v1.Some? { GetFirst(fs, 0); }
    if v2.Some? { GetFirst(fs, |Opt(k1, v1)|); }
    if v3.Some? { GetFirst(fs, |Opt(k1, v1)| + |Opt(k2, v2)|); }
  }
}
