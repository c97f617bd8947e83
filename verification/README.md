# sdn_controller in Dafny

A model of the data plumbing of an SDN lab controller. Four collectors gather the network's state: GoBGP's BGP-LS routes, the NSO configuration database, LLDP neighbours read through NSO live-status, and the card state of a router. Their documents are normalised, and two push scripts then reconcile the result into a Neo4j graph in three steps:

- mark every `PROD_` element with `delete = true`;
- upsert the fresh batches with `delete = false`;
- sweep whatever is still marked.

The model also covers the small pure utilities around them:

- the RESTCONF request that shuts an interface;
- the duration formatter and card-status parser of the reboot script;
- the AI agent's JSON-schema cleaner;
- the traffic-engineering XML generator.

Everything is pure functions over immutable data:

- JSON values are a `Json` datatype.
- Python dicts are association lists, which keeps insertion order.
- Python exceptions are the `Err` case of a `Result`.
- The Neo4j database is a `Store` of labelled nodes and typed relationships. Each Cypher statement is a function from one store to the next.

| file | module | models |
|---|---|---|
| json.dfy | Json | JSON values, Python truthiness, dict operations, hashable keys, iteration |
| text.dfy | Text | `str.split`, `strip`, `rstrip`, `lstrip`, `lower`/`upper`, `int()`, `str()` |
| cdb.dfy | Cdb | script 5: the recursive document merge, the RESTCONF select rows, the AS plain-to-dot conversion |
| analyzers.dfy | CdbAnalyzers | script 5: the LOGICAL / LAG / PORT / ISIS analyses of the CDB rows |
| collector.dfy | Collector | script 5: dispatching each response to its analysis and merging the results |
| bgpls.dfy | Bgpls | script 1: the node, link and prefix NLRI decoders |
| bgpls_output.dfy | BgplsOutput | script 1: `parse_routes`, `generate_output`, the regrouping by IGP router id |
| lldp.dfy | Lldp | script 6: the CLI line pattern, the parser, the result and topology dicts |
| graph.dfy | Graph | scripts 2 and 7: the graph store, MERGE/SET, mark, the derived relationships, sweep |
| batches.dfy | Batches | script 7 (and its copy in script 2): the IS-IS, port/LAG/logical and LLDP batch builders |
| sync.dfy | Sync | scripts 2 and 7: URI check, uniqueness constraints, the whole mark–push–sweep cycle |
| restconf.dfy | Restconf | script 3: URL, payload, arguments, outcome of the PATCH |
| reboot.dfy | Reboot | script 0: `format_duration`, `get_card_status` |
| agent.dfy | Agent | `network_agent.py`: `clean_schema_for_vertexai`, `mcp_tools_to_vertexai` |
| te.dfy | TrafficEng | `tools.py`: the GDS projection entries, the path queries, `perform_traffic_engineering` |

The headline properties are these:

- `Graph.CycleSurvivors`, `Sync.Cycle7Survivors` and `Sync.Cycle2Survivors`: after a run, a node survives exactly when the run touched it or the scripts never managed it. `Sync.Cycle2Survivors` also shows that a BGP-LS-only run deletes the ports, LAGs and logical interfaces the full run created.
- `Cdb.MergeIdempotent` and the other merge laws.
- `Bgpls.NodeRoundTrip`, `Bgpls.LinkRoundTrip`, `Bgpls.PrefixRoundTrip`: a round trip for every decoder.
- `BgplsOutput.RegroupEntry`: the regrouped router holds exactly its own links and prefixes.
- `Lldp.MatchSound`, `Lldp.MatchComplete` and `Lldp.RenderParse`: the line parser is sound and complete for its pattern, and a printed line reads back.
- `Batches.LldpTopologyLink`: every LLDP neighbour the collector reports becomes an LLDP link row.
- `Restconf.UrlRoundTrip`, `Restconf.ArgsRoundTrip` and `Reboot.DurationRoundTrip`.
- `Agent.CleanIdempotent`.
- `TrafficEng.TeLines`: the line-by-line shape of the generated XML.

## Model

| member | source | states |
|---|---|---|
| Json.Put | scripts/1.get_gobgp_ls_info.py:376 | dict assignment adds the key if new, reads back the value, leaves every other key alone, and keeps an existing key in its place |
| Json.Pop | scripts/4.AINetwork_Agent/network_agent.py:112 | `pop(key, None)` removes exactly that key and leaves the others |
| Json.Update | scripts/4.AINetwork_Agent/network_agent.py:118 | `dict.update` gives the union of the keys, and keys the update lacks keep their values (the update's own keys: `Json.UpdateGet`) |
| Json.UpdateGet | scripts/4.AINetwork_Agent/network_agent.py:118 | after `d.update(e)` with a well-formed `e`, every key of `e` holds `e`'s value |
| Json.HashKey | scripts/1.get_gobgp_ls_info.py:376 | a value can be a dict key exactly when it is not a list or dict |
| Json.HashKeyIsEquality | scripts/1.get_gobgp_ls_info.py:376 | two hashable values select the same dict entry exactly when Python finds them equal, so `1`, `1.0` and `True` share an entry |
| Json.Iter | scripts/4.AINetwork_Agent/network_agent.py:116 | iteration succeeds on lists, dicts and strings only, yielding the items, one key per entry, or one character each |
| Text.PyIn | scripts/7.push_ALL_to_neo4j.py:665 | `in` is substring search on a string and key lookup on a dict, and raises on a number, boolean or None |
| Text.Split | scripts/6.get_lldp_info_live_status_nso.py:84 | `str.split(sep)` gives at least one part, the parts joined by the separator give the text back, no part holds the separator, and there are two or more exactly when the text holds it |
| Text.SplitJoin | scripts/6.get_lldp_info_live_status_nso.py:84 | splitting parts joined by a character they lack gives the parts back |
| Text.Strip | scripts/6.get_lldp_info_live_status_nso.py:85 | `strip()` gives the piece of the text left once the leading and trailing whitespace is gone: only whitespace precedes and follows it, and it neither starts nor ends with whitespace |
| Text.TrimRight | scripts/4.AINetwork_Agent/tools.py:233 | `rstrip()` keeps a prefix and drops only whitespace, leaving no trailing whitespace |
| Text.LStripChar | scripts/4.AINetwork_Agent/tools.py:212 | `lstrip('R')` drops exactly the leading run of that character |
| Text.ParseIntOfString | scripts/4.AINetwork_Agent/tools.py:212 | `int()` reads back every integer's decimal text |
| Text.Trunc | scripts/7.push_ALL_to_neo4j.py:980 | truncation toward zero: the integer lies within one of the real, on the side of zero |
| Text.PyStr | scripts/7.push_ALL_to_neo4j.py:401 | a string formats as itself, and an integer as decimal text that reads back to it |
| Cdb.Merge | scripts/5.get_nso_cdb_info.py:267-277 | the merged dict has exactly the keys of both dicts, stays well formed, and merging an empty dict changes nothing |
| Cdb.MergeInto | scripts/5.get_nso_cdb_info.py:272-275 | the loop over the second dict's items adds exactly the keys of the pairs it folds in |
| Cdb.MergeIntoGet | scripts/5.get_nso_cdb_info.py:272-275 | key by key, the loop stores the merge of the value already there and the incoming one; keys the second dict lacks keep their value |
| Cdb.MergeGet | scripts/5.get_nso_cdb_info.py:267-277 | two nested dicts under one key merge recursively; otherwise the second dict's value wins when the key is new or the value is truthy, and the first dict's value stays when it is falsy |
| Cdb.MergeKeepsTruthy | scripts/5.get_nso_cdb_info.py:273-275 | when exactly one of two non-dict values under a key is truthy, the merge keeps that one in either argument order |
| Cdb.MergeIntoFresh | scripts/5.get_nso_cdb_info.py:272-275 | pairs whose keys the copy does not hold are appended in the second dict's order |
| Cdb.MergeLeftIdentity | scripts/5.get_nso_cdb_info.py:267-277 | merging a well-formed dict into an empty one gives the dict back |
| Cdb.MergeIntoHeld | scripts/5.get_nso_cdb_info.py:272-275 | folding pairs the copy already holds, with well-formed values, changes nothing |
| Cdb.MergeValueHeld | scripts/5.get_nso_cdb_info.py:273-275 | merging a well-formed value onto itself gives it back |
| Cdb.MergeIdempotent | scripts/5.get_nso_cdb_info.py:267-277 | a dict merged with itself is unchanged |
| Cdb.FieldValue | scripts/5.get_nso_cdb_info.py:152 | a field's value is `value` if truthy, else `path` if truthy, else `data` with the empty string as default |
| Cdb.SelectStep | scripts/5.get_nso_cdb_info.py:151-153 | one field fails exactly when it has no string label, and otherwise binds its label to its value |
| Cdb.SelectRow | scripts/5.get_nso_cdb_info.py:150-154 | a row is built exactly when every field is labelled; its keys are the labels and each label holds the value of the last field carrying it |
| Cdb.ExtractItems | scripts/5.get_nso_cdb_info.py:146-156 | the rows are exactly those of the items `for item in` walks in `result` (a list's items, a dict's keys, a string's characters; a missing `query-result` or `result` reading as empty), one per item and in order, failing exactly when an item fails; a response that is not a dict, whose `query-result` is not a dict, or whose `result` cannot be iterated fails; every row is a well-formed dict |
| Cdb.Rows | scripts/5.get_nso_cdb_info.py:150-156 | one row per result item in order, each the item's own row; the list fails exactly when some item fails |
| Cdb.RowOf | scripts/5.get_nso_cdb_info.py:151-154 | an item's row is a well-formed dict, and an item that is not a dict fails |
| Cdb.PlainToDot | scripts/5.get_nso_cdb_info.py:163-170 | an int and a string `int()` accepts become the dotted form; any other string comes back unchanged |
| Cdb.DotRoundTrip | scripts/5.get_nso_cdb_info.py:165-166 | the dotted form is the quotient and the remainder by 65536, and reading it back as `a * 65536 + b` gives the number |
| CdbAnalyzers.SetDefault | scripts/5.get_nso_cdb_info.py:190 | a missing key yields a fresh empty dict; an existing dict is returned as stored; an existing non-dict fails |
| CdbAnalyzers.SubPut | scripts/5.get_nso_cdb_info.py:194 | after storing a dict under one key, that key reads back the stored dict and every other key reads as before |
| CdbAnalyzers.IsExcluded | scripts/5.get_nso_cdb_info.py:193 | the loopback/system test succeeds exactly on a path that supports `in`, and is true exactly when the path contains `LoopBack` or `system` |
| CdbAnalyzers.PortDescriptor | scripts/5.get_nso_cdb_info.py:197-199 | ATTACH is the text between the first and second `lag-` of the part before the first colon, or that whole part; VLAN is the second colon part unless absent or `0` |
| CdbAnalyzers.PortStep | scripts/5.get_nso_cdb_info.py:196-199 | a falsy port leaves the interface unchanged; a truthy port must be a string and sets exactly ATTACH and VLAN from its descriptor |
| CdbAnalyzers.StorePort | scripts/5.get_nso_cdb_info.py:198-199 | the two stores add ATTACH and VLAN with the given values and change no other key |
| CdbAnalyzers.StoreTwo | scripts/5.get_nso_cdb_info.py:198-199 | two stores under distinct keys set both and change no other key |
| CdbAnalyzers.AddressStep | scripts/5.get_nso_cdb_info.py:201-207 | without a truthy address and mask nothing changes; otherwise the step succeeds exactly when the address parses, and sets NETWORK, MASK and IP and nothing else |
| CdbAnalyzers.StoreAddress | scripts/5.get_nso_cdb_info.py:203-207 | the update adds NETWORK, MASK and IP with the given values and changes no other key |
| CdbAnalyzers.FillInterface | scripts/5.get_nso_cdb_info.py:194-207 | an interface gets IP exactly when it had one or the row has an address; a truthy port is a string whose descriptor fills ATTACH and VLAN; an address fills NETWORK, MASK and IP |
| CdbAnalyzers.AddressKeepsPort | scripts/5.get_nso_cdb_info.py:201-207 | the address update never touches ATTACH or VLAN and adds IP exactly when the row has an address |
| CdbAnalyzers.InterfaceStep | scripts/5.get_nso_cdb_info.py:194 | the row's interface name must be a string; LOGICAL gains exactly that name, whose entry is the filled interface; every other interface is unchanged |
| CdbAnalyzers.DeviceStep | scripts/5.get_nso_cdb_info.py:193-194 | a loopback or system row leaves the device dict as it was; any other row updates LOGICAL through the interface step |
| CdbAnalyzers.LogicalStep | scripts/5.get_nso_cdb_info.py:185-207 | DEVICE gains exactly the row's truthy device, which must be a string; every other device dict is unchanged |
| CdbAnalyzers.LogicalStepDevices | scripts/5.get_nso_cdb_info.py:186-190 | after a row, a device is present exactly when it was before or the row names it |
| CdbAnalyzers.LogicalStepInterfaces | scripts/5.get_nso_cdb_info.py:190-207 | after a row, an interface is present exactly when it was before or the row files it, and has IP exactly when it had one or the row files it with an address; other interfaces are unchanged |
| CdbAnalyzers.LogicalStepValues | scripts/5.get_nso_cdb_info.py:196-207 | the row's interface holds ATTACH and VLAN from the row's port and NETWORK, MASK and IP from its address |
| CdbAnalyzers.LogicalRowsContents | scripts/5.get_nso_cdb_info.py:180-209 | after the loop, a device is present exactly when some row names it, an interface exactly when some kept row files it, and IP exactly when some such row has an address |
| CdbAnalyzers.LogicalRowsLastPort | scripts/5.get_nso_cdb_info.py:196-198 | the last row filing an interface with a truthy port decides its ATTACH |
| CdbAnalyzers.AnalyzeLogical | scripts/5.get_nso_cdb_info.py:180-209 | the result is a dict whose only key is DEVICE |
| CdbAnalyzers.LagName | scripts/5.get_nso_cdb_info.py:222 | the LAG name is read exactly when `lag-name` is a string containing `lag-`, and is the text between its first and second `lag-` |
| CdbAnalyzers.RecordLag | scripts/5.get_nso_cdb_info.py:226-227 | LAG gains the named LAG holding the row's admin state, with the empty string as default; PORT is untouched |
| CdbAnalyzers.AttachPort | scripts/5.get_nso_cdb_info.py:229-231 | PORT gains the port, which names the LAG; other ports and LAG are untouched |
| CdbAnalyzers.LagDeviceStep | scripts/5.get_nso_cdb_info.py:225-231 | a LAG row records the LAG and its admin state, and attaches a truthy port, which must be a string, to it |
| CdbAnalyzers.LagStep | scripts/5.get_nso_cdb_info.py:216-231 | DEVICE gains exactly the row's truthy device, whose LAG name must be readable; an empty LAG name leaves the device dict as it was |
| CdbAnalyzers.LagDeviceStepConsistent | scripts/5.get_nso_cdb_info.py:225-231 | a step keeps every PORT entry naming a LAG recorded under the same device |
| CdbAnalyzers.LagStepConsistent | scripts/5.get_nso_cdb_info.py:216-231 | one row of the loop keeps each device's ports pointing at recorded LAGs |
| CdbAnalyzers.LagRowsConsistent | scripts/5.get_nso_cdb_info.py:212-233 | after the loop, every port of every device names a LAG recorded under that device |
| CdbAnalyzers.AnalyzeLags | scripts/5.get_nso_cdb_info.py:212-233 | the result is a dict whose only key is DEVICE |
| CdbAnalyzers.IsisEntry | scripts/5.get_nso_cdb_info.py:255-257 | METRIC is the metric read by `int()`; ADJ_SID is the adjacency SID read by `int()` when it is truthy, and otherwise stays as it was |
| CdbAnalyzers.PutNested | scripts/5.get_nso_cdb_info.py:254 | storing an entry under a device and an interface changes only that entry and adds only those keys |
| CdbAnalyzers.IsisStep | scripts/5.get_nso_cdb_info.py:242-257 | ISIS gains exactly the device and interface the row files, with their entry; every other entry is unchanged |
| CdbAnalyzers.IsisRowOnly | scripts/5.get_nso_cdb_info.py:248-254 | an IS-IS row names exactly one device and one interface |
| CdbAnalyzers.IsisRowsContents | scripts/5.get_nso_cdb_info.py:237-259 | after the loop, an interface is under a device in ISIS exactly when some kept row with a truthy metric names both |
| CdbAnalyzers.AnalyzeIsis | scripts/5.get_nso_cdb_info.py:237-259 | the result has exactly DEVICE and ISIS, DEVICE stays empty, and the analysis fails exactly when the row loop fails |
| Collector.RunAnalysis | scripts/5.get_nso_cdb_info.py:180-259 | an analysis result is a dict whose keys lie within DEVICE and ISIS, and a response that is not a dict fails |
| Collector.Entry | scripts/5.get_nso_cdb_info.py:127-133 | the stored entry holds `error` exactly when the returned data is falsy, and is then `{"error": status}`; truthy data without an analysis is stored with its status |
| Collector.ZipLen | scripts/5.get_nso_cdb_info.py:127 | `zip` stops at the shorter of the two lists |
| Collector.Entries | scripts/5.get_nso_cdb_info.py:127-133 | one entry per zipped pair in order, each the pair's own entry; the loop fails exactly when some pair's analysis fails |
| Collector.ProcessResults | scripts/5.get_nso_cdb_info.py:119-135 | the processed dict is well formed and fails exactly when some zipped analysis fails |
| Collector.ProcessResultsEntries | scripts/5.get_nso_cdb_info.py:119-135 | the processed keys are exactly the request names, and each name holds the entry of the last response with that name |
| Collector.MergeAll | scripts/5.get_nso_cdb_info.py:426-429 | the merge loop builds a well-formed dict |
| Collector.MergeAllKeys | scripts/5.get_nso_cdb_info.py:426-429 | the merged document has exactly the keys of the entries that are dicts without `error` |
| Collector.Values | scripts/5.get_nso_cdb_info.py:427 | the values of a dict, in insertion order |
| Collector.Collect | scripts/5.get_nso_cdb_info.py:422-429 | collecting succeeds exactly when processing the responses succeeds, and gives a well-formed dict |
| Collector.ProcessedEntry | scripts/5.get_nso_cdb_info.py:127-133 | every stored entry is the entry of some zipped response |
| Collector.MergeableEntryKeys | scripts/5.get_nso_cdb_info.py:128-129 | an error-free entry of a request with an analysis has only DEVICE and ISIS keys |
| Collector.ProcessedKeys | scripts/5.get_nso_cdb_info.py:119-135 | when every request has an analysis, every mergeable stored entry has only DEVICE and ISIS keys |
| Collector.MergedKeysBounded | scripts/5.get_nso_cdb_info.py:426-429 | when every request has an analysis, the merged entries contribute only DEVICE and ISIS |
| Collector.CollectKeys | scripts/5.get_nso_cdb_info.py:422-429 | when every request has an analysis, the final document's keys lie within DEVICE and ISIS |
| Bgpls.First | scripts/1.get_gobgp_ls_info.py:145 | `paths[0]` of a non-empty list is its first element, and indexing succeeds only on a list or a string |
| Bgpls.Head | scripts/1.get_gobgp_ls_info.py:141-150 | the shared head succeeds only on a dict whose paths are truthy, takes the first path, and returns its non-empty `nlri` |
| Bgpls.PathHead | scripts/1.get_gobgp_ls_info.py:147-150 | a path yields its own `nlri`, which must be non-empty |
| Bgpls.Unwrapped | scripts/1.get_gobgp_ls_info.py:227 | dropping `@type` succeeds exactly on a dict and removes only that key |
| Bgpls.NodeUnwrapped | scripts/1.get_gobgp_ls_info.py:155-161 | with or without an `@type` key, the node decoder's NLRI dict is the wrapped dict minus `@type` |
| Bgpls.NodeDescriptor | scripts/1.get_gobgp_ls_info.py:255-258 | a node descriptor is built exactly from a dict, holding its `asn` and `igp_router_id` or None |
| Bgpls.NodeAttr | scripts/1.get_gobgp_ls_info.py:187-200 | a node path attribute never changes the protocol, the IGP router id or the ASN |
| Bgpls.NodeAttrs | scripts/1.get_gobgp_ls_info.py:187-200 | the attribute loop never changes the protocol, the IGP router id or the ASN |
| Bgpls.NodeBase | scripts/1.get_gobgp_ls_info.py:168-185 | the node record starts with the NLRI's protocol id, `unknown` by default |
| Bgpls.NodeFrom | scripts/1.get_gobgp_ls_info.py:155-202 | a node is decoded only from a dict NLRI whose type is `LS_NLRI_NODE` |
| Bgpls.DecodeNode | scripts/1.get_gobgp_ls_info.py:129-208 | a decoded node has type `node` |
| Bgpls.LinkAttr | scripts/1.get_gobgp_ls_info.py:270-274 | a link path attribute changes at most the metric and the adjacency SID |
| Bgpls.LinkAttrs | scripts/1.get_gobgp_ls_info.py:270-274 | the attribute loop changes at most the metric and the adjacency SID |
| Bgpls.LinkBase | scripts/1.get_gobgp_ls_info.py:232-267 | before the path attributes a link has no metric and no adjacency SID |
| Bgpls.LinkFrom | scripts/1.get_gobgp_ls_info.py:227-276 | a link is decoded only from a dict NLRI whose type is `LS_NLRI_LINK` |
| Bgpls.DecodeLink | scripts/1.get_gobgp_ls_info.py:212-282 | a decoded link has type `link` |
| Bgpls.PrefixAttr | scripts/1.get_gobgp_ls_info.py:340-346 | a prefix path attribute changes at most the SID list, and only to a truthy one |
| Bgpls.PrefixAttrs | scripts/1.get_gobgp_ls_info.py:340-346 | after the loop the SID list is the initial one or a truthy list from some attribute |
| Bgpls.PrefixBase | scripts/1.get_gobgp_ls_info.py:317-338 | before the path attributes the prefix-SID list is `[]` |
| Bgpls.PrefixFrom | scripts/1.get_gobgp_ls_info.py:305-348 | a prefix is decoded only from a dict NLRI whose type is `LS_NLRI_PREFIX_V4` or `LS_NLRI_PREFIX_V6` |
| Bgpls.DecodePrefix | scripts/1.get_gobgp_ls_info.py:290-354 | a decoded prefix has type `prefix` |
| Bgpls.HeadShape | scripts/1.get_gobgp_ls_info.py:141-150 | the head succeeds only when the first path is a dict with a non-empty NLRI, and returns that path and NLRI |
| Bgpls.DecodeDispatch | scripts/1.get_gobgp_ls_info.py:163-165 | each decoder accepts only its own NLRI type, read from the first path: node, link, or one of the two prefix types |
| Bgpls.DispatchFrom | scripts/1.get_gobgp_ls_info.py:141-150 | a decoder that succeeds did so through the shared head |
| Bgpls.UnwrappedType | scripts/1.get_gobgp_ls_info.py:227-230 | dropping `@type` never changes the `type` the decoders dispatch on |
| Bgpls.DecodersExclusive | scripts/1.get_gobgp_ls_info.py:163-165 | no destination is decoded by two decoders |
| Bgpls.FirstPathOnly | scripts/1.get_gobgp_ls_info.py:145 | two destinations with the same first path decode the same way under all three decoders |
| Bgpls.NoNlriNone | scripts/1.get_gobgp_ls_info.py:141-150 | without paths, or with an empty NLRI on the first path, all three decoders give None |
| Bgpls.LinkRoundTrip | scripts/1.get_gobgp_ls_info.py:212-282 | an advertised link decodes to its own fields, with None for every field the advertisement leaves out |
| Bgpls.PrefixRoundTrip | scripts/1.get_gobgp_ls_info.py:290-354 | an advertised prefix decodes to its first reachable prefix, None when there is none, and its SID list, `[]` when none is advertised |
| Bgpls.NodeRoundTrip | scripts/1.get_gobgp_ls_info.py:129-208 | an advertised node decodes to its own descriptor and attribute, with None or `{}` for what is left out |
| BgplsOutput.NodeId | scripts/1.get_gobgp_ls_info.py:374 | a node is keyed by its IGP router id when that is truthy, and otherwise by the string form of its AS number |
| BgplsOutput.GobgpExclusive | scripts/1.get_gobgp_ls_info.py:370-387 | the three BGP-LS decoders never accept the same destination |
| BgplsOutput.KeyOf | scripts/1.get_gobgp_ls_info.py:373-376 | a node is stored only when it decodes and its id is truthy |
| BgplsOutput.Decoded | scripts/1.get_gobgp_ls_info.py:370-387 | the records of one kind are at most as many as the destinations |
| BgplsOutput.ParseStep | scripts/1.get_gobgp_ls_info.py:370-387 | one destination is tried as a node, then a link, then a prefix: a node is stored under its key, otherwise a link or else a prefix is appended; the step fails exactly on a node whose truthy id cannot be a dict key |
| BgplsOutput.ParseWith | scripts/1.get_gobgp_ls_info.py:361-387 | the node table built by the loop is well formed |
| BgplsOutput.ParseRoutes | scripts/1.get_gobgp_ls_info.py:361-387 | the links are exactly the destinations the link decoder accepts, and the prefixes exactly those the prefix decoder accepts, in order |
| BgplsOutput.ParseLists | scripts/1.get_gobgp_ls_info.py:370-387 | with exclusive decoders, links and prefixes are exactly the destinations each decoder accepts, in order |
| BgplsOutput.ParseFails | scripts/1.get_gobgp_ls_info.py:372-376 | parsing fails exactly when some node has a truthy id that cannot be a dict key |
| BgplsOutput.ParseKeys | scripts/1.get_gobgp_ls_info.py:372-376 | the node table holds exactly the keys of the nodes with a usable id |
| BgplsOutput.ParseLastWins | scripts/1.get_gobgp_ls_info.py:376 | under each key the table holds the node of the last destination with that key |
| BgplsOutput.ParseNodeStep | scripts/1.get_gobgp_ls_info.py:372-376 | the last destination decides the node under its own key and leaves every other key alone |
| BgplsOutput.StepNodes | scripts/1.get_gobgp_ls_info.py:372-376 | one step stores the destination's node under its key and leaves every other key alone |
| BgplsOutput.StepKeys | scripts/1.get_gobgp_ls_info.py:372-376 | one step adds at most the destination's node key |
| BgplsOutput.Values | scripts/1.get_gobgp_ls_info.py:404 | the node list is the table's values in insertion order |
| BgplsOutput.GenerateOutput | scripts/1.get_gobgp_ls_info.py:395-415 | the output is a dict |
| BgplsOutput.OutputCounts | scripts/1.get_gobgp_ls_info.py:402-413 | each statistics count is the length of the topology list it counts, and the node list is the table's values |
| BgplsOutput.RouterKey | scripts/1.get_gobgp_ls_info.py:447 | a router key exists only for a dict node with an `igp_router_id` key |
| BgplsOutput.Routers | scripts/1.get_gobgp_ls_info.py:446-452 | the router table built from the nodes is well formed |
| BgplsOutput.LinkSummary | scripts/1.get_gobgp_ls_info.py:456-467 | a link summary exists only for a dict link |
| BgplsOutput.PrefixSummary | scripts/1.get_gobgp_ls_info.py:474-481 | a prefix summary exists only for a dict prefix |
| BgplsOutput.Attach | scripts/1.get_gobgp_ls_info.py:469-471 | a summary is appended to the router it starts from and to no other; it is dropped when that router is unknown; the lookup fails exactly when the id cannot be a dict key |
| BgplsOutput.AttachAll | scripts/1.get_gobgp_ls_info.py:455-485 | the link and prefix loops never add or remove a router |
| BgplsOutput.Regroup | scripts/1.get_gobgp_ls_info.py:445-485 | the regrouped router table is well formed |
| BgplsOutput.Reorganize | scripts/1.get_gobgp_ls_info.py:431-493 | `router_count` is the number of routers, the routers are the regrouped topology, and the totals come from the statistics |
| BgplsOutput.Totals | scripts/1.get_gobgp_ls_info.py:487-491 | reading the totals requires a `statistics` entry |
| BgplsOutput.At | scripts/1.get_gobgp_ls_info.py:455-485 | the summaries attached to one router are at most as many as the items |
| BgplsOutput.AttachAllAt | scripts/1.get_gobgp_ls_info.py:455-485 | each existing router receives exactly the summaries of the items that start at it, in order |
| BgplsOutput.AttachAllFails | scripts/1.get_gobgp_ls_info.py:455-485 | the loop fails exactly when some item cannot be summarised or starts at an id that cannot be a dict key |
| BgplsOutput.RoutersFail | scripts/1.get_gobgp_ls_info.py:446-452 | building the routers fails exactly when some node has no hashable `igp_router_id` |
| BgplsOutput.RoutersKeys | scripts/1.get_gobgp_ls_info.py:446-452 | there is one router per distinct node id |
| BgplsOutput.RoutersLastWins | scripts/1.get_gobgp_ls_info.py:448-452 | a router entry holds the last node with its id, with no links or prefixes yet |
| BgplsOutput.RegroupKeys | scripts/1.get_gobgp_ls_info.py:445-485 | the regrouped routers are exactly the node ids |
| BgplsOutput.RegroupEntry | scripts/1.get_gobgp_ls_info.py:445-485 | a router holds its last node, the summaries of the links that start at it and those of its prefixes, each in input order |
| BgplsOutput.ReorganizeTotals | scripts/1.get_gobgp_ls_info.py:487-491 | regrouping the generated output reports the collector's own link and prefix counts |
| BgplsOutput.OutputTotals | scripts/1.get_gobgp_ls_info.py:410-412 | the generated statistics carry the number of links and prefixes |
| BgplsOutput.UnnamedNodesMerge | scripts/1.get_gobgp_ls_info.py:374-376 | two nodes with no IGP router id are parsed under different AS keys, yet regroup into a single router keyed None that holds the second |
| BgplsOutput.BareLinkFails | scripts/1.get_gobgp_ls_info.py:456 | a link decoded without a local node descriptor stops the regrouping with KeyError |
| Lldp.Span | scripts/6.get_lldp_info_live_status_nso.py:76 | a greedy `\S+` or `\s+` run: the longest prefix of matching characters, with the rest starting at a non-matching one |
| Lldp.SpanBack | scripts/6.get_lldp_info_live_status_nso.py:76 | the trailing whitespace run: the longest matching suffix, preceded by a non-matching character |
| Lldp.SpanOf | scripts/6.get_lldp_info_live_status_nso.py:76 | any split into a run and a non-matching rest is the one the greedy scan finds |
| Lldp.SpanBackOf | scripts/6.get_lldp_info_live_status_nso.py:76 | any split into a non-matching head and a matching suffix is the one the backward scan finds |
| Lldp.LastNonNewline | scripts/6.get_lldp_info_live_status_nso.py:76 | the last position up to a bound that holds something other than a newline, or none when all are newlines |
| Lldp.Tail | scripts/6.get_lldp_info_live_status_nso.py:76 | the text after group 4 is cut into a whitespace run, a newline-free group 5, a whitespace run and a last word, which concatenate back to the text |
| Lldp.LastWord | scripts/6.get_lldp_info_live_status_nso.py:76 | cutting off the last word keeps the cut a valid reading of the tail |
| Lldp.Middle | scripts/6.get_lldp_info_live_status_nso.py:76 | with a middle section, group 5 is that section trimmed, and the pieces concatenate back |
| Lldp.Single | scripts/6.get_lldp_info_live_status_nso.py:76 | with one whitespace run before the last word, group 5 is one non-newline character of that run |
| Lldp.LeadOf | scripts/6.get_lldp_info_live_status_nso.py:76 | groups 1 to 4 are whole whitespace-separated fields with their shapes, the rest starts with whitespace, and all concatenate back to the line |
| Lldp.MatchLine | scripts/6.get_lldp_info_live_status_nso.py:75-77 | a match has a non-empty all-digit group 4 |
| Lldp.MatchSound | scripts/6.get_lldp_info_live_status_nso.py:75-77 | every match is a reading of the whole line by the pattern: the groups have their shapes and concatenate with the runs back to the line |
| Lldp.MatchComplete | scripts/6.get_lldp_info_live_status_nso.py:75-77 | every reading of a line by the pattern makes it match, with the same groups 1, 2, 3, 4 and 6, and group 5 lazily trimmed |
| Lldp.LeadComplete | scripts/6.get_lldp_info_live_status_nso.py:76 | any reading of groups 1 to 4 followed by whitespace is the one found |
| Lldp.TailComplete | scripts/6.get_lldp_info_live_status_nso.py:76 | every split of the tail that fits the pattern is found, with the same last word; a group 5 that starts with a word is trimmed of its trailing whitespace |
| Lldp.TailWord | scripts/6.get_lldp_info_live_status_nso.py:76 | a group 5 holding a word is found exactly: the word trimmed, its trailing whitespace joined to the separator |
| Lldp.TailBlank | scripts/6.get_lldp_info_live_status_nso.py:76 | a tail whose group 5 is whitespace still matches, with the same last word |
| Lldp.ParseLine | scripts/6.get_lldp_info_live_status_nso.py:84-95 | a parsed neighbour has word-shaped port, scope and system name, a chassis id of hex digits and colons, and a remote port free of commas and newlines |
| Lldp.PortPart | scripts/6.get_lldp_info_live_status_nso.py:93 | the text before the first comma of group 5 has no newline |
| Lldp.Keep | scripts/6.get_lldp_info_live_status_nso.py:84-97 | the kept values are at most as many as the inputs, and each comes from some input |
| Lldp.KeepAppend | scripts/6.get_lldp_info_live_status_nso.py:84-97 | each line is judged on its own: keeping distributes over concatenation |
| Lldp.ParseLines | scripts/6.get_lldp_info_live_status_nso.py:84-97 | there are at most as many neighbours as lines, and each comes from a line that parses to it |
| Lldp.ParseLinesAppend | scripts/6.get_lldp_info_live_status_nso.py:84-97 | parsing distributes over concatenated line lists |
| Lldp.ParseOne | scripts/6.get_lldp_info_live_status_nso.py:87-95 | one line gives one neighbour when it matches and none otherwise |
| Lldp.SplitAtCrlf | scripts/6.get_lldp_info_live_status_nso.py:84 | the first CRLF of the output ends its first line |
| Lldp.ParseFirstLine | scripts/6.get_lldp_info_live_status_nso.py:80-97 | the output's first line is parsed on its own and the rest of the output independently |
| Lldp.RenderParse | scripts/6.get_lldp_info_live_status_nso.py:84-95 | a neighbour printed as a CLI line, with any remark after a comma, is read back unchanged |
| Lldp.RenderMatch | scripts/6.get_lldp_info_live_status_nso.py:75-77 | when group 5 starts and ends with a non-space, the match gives back exactly the groups of the reading |
| Lldp.PortOf | scripts/6.get_lldp_info_live_status_nso.py:93 | cutting a port and its remark at the first comma gives the port back |
| Lldp.StripFixed | scripts/6.get_lldp_info_live_status_nso.py:85 | a line the pattern reads is its own `strip()` |
| Lldp.BlankPortLine | scripts/6.get_lldp_info_live_status_nso.py:84-95 | a line whose columns after the index are three spaces and a word is still accepted, with a remote port of one space |
| Lldp.NeighborDict | scripts/6.get_lldp_info_live_status_nso.py:33-41 | a neighbour becomes a well-formed dict |
| Lldp.NeighborDictRoundTrip | scripts/6.get_lldp_info_live_status_nso.py:33-41 | the neighbour dict holds all six fields: reading it back gives the neighbour |
| Lldp.OutcomeDict | scripts/6.get_lldp_info_live_status_nso.py:55-63 | the dict always names the device, has an `error` key exactly when the error is truthy, and otherwise counts the neighbours |
| Lldp.OutcomeNeighbors | scripts/6.get_lldp_info_live_status_nso.py:59-63 | without error, the neighbour list has one dict per neighbour, each read back to that neighbour, in order |
| Lldp.Topology | scripts/6.get_lldp_info_live_status_nso.py:271-291 | the topology has exactly one key per device name |
| Lldp.TopologyLastWins | scripts/6.get_lldp_info_live_status_nso.py:275-289 | a device reported more than once keeps the entry of its last result |
| Lldp.TopologyPort | scripts/6.get_lldp_info_live_status_nso.py:280-289 | a device's neighbours are keyed by local port, one key per port, and each port holds its last neighbour's remote device, port and chassis id |
| Graph.SetAll | scripts/7.push_ALL_to_neo4j.py:494 | `SET x += m`: every non-null key of the map is written, every null key removed, and every other property kept |
| Graph.SetAllTwice | scripts/7.push_ALL_to_neo4j.py:494 | applying the same property map twice changes nothing more |
| Graph.Mark | scripts/7.push_ALL_to_neo4j.py:253-271 | marking sets `delete` on exactly the nodes with a `PROD_` label and the relationships between two such nodes; nothing else changes |
| Graph.MarkFlags | scripts/7.push_ALL_to_neo4j.py:253-257 | after marking with true, a node is flagged exactly when it has a `PROD_` label or was already flagged |
| Graph.Matches | scripts/7.push_ALL_to_neo4j.py:493 | `MERGE` on a label and key finds exactly the nodes with that label whose key property equals the non-null value |
| Graph.SetNodes | scripts/7.push_ALL_to_neo4j.py:493-494 | the map is applied to the found nodes only; all nodes are kept |
| Graph.MergeNode | scripts/7.push_ALL_to_neo4j.py:490-497 | merging a row fails exactly when its key is null, and never touches relationships |
| Graph.MergeNodeSpec | scripts/7.push_ALL_to_neo4j.py:490-497 | a merge keeps the store valid and every node, leaves labels alone, touches at least one node with the label, updates found nodes with the row's map and creates a fresh node only when none was found |
| Graph.MergeNodeFinds | scripts/7.push_ALL_to_neo4j.py:493 | the touched nodes are exactly the nodes the key value now matches |
| Graph.MergeNodeUnique | scripts/7.push_ALL_to_neo4j.py:493 | merging keeps the key unique among the label's nodes |
| Graph.MergeNodeTwice | scripts/7.push_ALL_to_neo4j.py:490-497 | merging the same row again touches the same nodes and changes nothing |
| Graph.MergeNodeKeeps | scripts/7.push_ALL_to_neo4j.py:493-494 | a node a key value matched still matches after a merge |
| Graph.MergeNodes | scripts/7.push_ALL_to_neo4j.py:490-497 | a batch succeeds exactly when every row has a non-null key, and relationships are untouched |
| Graph.MergeNodesKeeps | scripts/7.push_ALL_to_neo4j.py:490-497 | nodes matched before a batch are still matched after it |
| Graph.MergeNodesFound | scripts/7.push_ALL_to_neo4j.py:490-497 | after a batch, every row's key value matches some node |
| Graph.MergeNodesNoNew | scripts/7.push_ALL_to_neo4j.py:490-497 | a batch whose keys all exist already creates no node |
| Graph.MergeNodesAgain | scripts/7.push_ALL_to_neo4j.py:490-497 | running a batch a second time creates no node |
| Graph.Pairs | scripts/7.push_ALL_to_neo4j.py:546-548 | the relationships a `MERGE` between two matched sets denotes are exactly the pairs with that type |
| Graph.SetEdges | scripts/7.push_ALL_to_neo4j.py:548-549 | every listed relationship exists afterwards with the map applied; other relationships are unchanged |
| Graph.MergeEdge | scripts/7.push_ALL_to_neo4j.py:543-552 | a relationship merge never changes nodes |
| Graph.MergeEdgeSpec | scripts/7.push_ALL_to_neo4j.py:543-552 | a relationship merge keeps the store valid, does nothing when either endpoint is unmatched, and otherwise creates or updates exactly the relationships between the matched nodes |
| Graph.MergeEdges | scripts/7.push_ALL_to_neo4j.py:543-552 | a relationship batch never changes nodes |
| Graph.ToInteger | scripts/7.push_ALL_to_neo4j.py:980 | Cypher `toInteger` fails only on lists and maps, returns an integer or null, keeps integers and null, and truncates floats |
| Graph.RouteProps | scripts/7.push_ALL_to_neo4j.py:980-987 | a routing relationship gets exactly eight properties: the ISIS link's metric through `toInteger` (failing exactly when that fails), its adjacency SID, `update_time` and `delete`, the two routers' names and the two IP nodes' addresses |
| Graph.DeriveRouting | scripts/7.push_ALL_to_neo4j.py:977-989 | deriving routing links never changes nodes |
| Graph.SetDistances | scripts/7.push_ALL_to_neo4j.py:1044-1062 | setting distances keeps every node and relationship |
| Graph.IpLinks | scripts/7.push_ALL_to_neo4j.py:1020-1022 | an IP is linked to a logical interface exactly when both have their labels, share a router and the IP's name is the interface's router, `_` and address |
| Graph.LinkIpLogical | scripts/7.push_ALL_to_neo4j.py:1019-1026 | the IP-to-interface links are created or updated with the IP's timestamp and flag, and nothing else changes |
| Graph.SetAllCarries | scripts/7.push_ALL_to_neo4j.py:494 | after `SET x += m` every key of the map reads its value |
| Graph.LastRoute | scripts/7.push_ALL_to_neo4j.py:978 | the route that decides a routing link is the last matching ISIS path with that pair of routers, and there is none exactly when no path matches |
| Graph.DeriveSpec | scripts/7.push_ALL_to_neo4j.py:977-989 | the routing links are the old links plus one per matched pair of routers; each carries the properties of the last ISIS path that reaches it |
| Graph.DeriveAt | scripts/7.push_ALL_to_neo4j.py:977-989 | for one relationship: it exists exactly when it did or a path reaches it, and it carries the last such path's properties |
| Graph.DeriveStep | scripts/7.push_ALL_to_neo4j.py:977-989 | the statement handles one matched path and then the rest |
| Graph.RoutingLinks | scripts/7.push_ALL_to_neo4j.py:977-989 | every ISIS path between two routers yields a routing link, each new link comes from such a path, other relationship types are unchanged, and each link carries its last path's properties |
| Graph.RouteOrderMatters | scripts/7.push_ALL_to_neo4j.py:977-989 | when two ISIS links join the same routers with different flags, the routing link's `delete` depends on the order the paths are matched |
| Graph.CarriedDelete | scripts/7.push_ALL_to_neo4j.py:987 | a routing link that carries its path's properties has that path's `delete` |
| Graph.DistanceTableSpec | scripts/7.push_ALL_to_neo4j.py:1045-1052 | the distance table is symmetric, covers exactly the ordered pairs of distinct routers among R1, R2 and R3, and gives 20, 100 and 50 |
| Graph.SetDistancesSpec | scripts/7.push_ALL_to_neo4j.py:1055-1058 | a routing relationship whose end names are in the table gets that distance; every other relationship is unchanged |
| Graph.IpLogicalSpec | scripts/7.push_ALL_to_neo4j.py:1022-1024 | every IP-to-interface link carries the IP's `delete` and `update_time` |
| Graph.IpLinkCarries | scripts/7.push_ALL_to_neo4j.py:1023-1024 | a link set from the IP's properties reads the IP's flag and timestamp |
| Graph.IpLogicalValid | scripts/7.push_ALL_to_neo4j.py:1019-1026 | linking IPs to interfaces keeps the store valid |
| Graph.Exec | scripts/7.push_ALL_to_neo4j.py:977-1062 | statements other than node merges touch no node and leave nodes unchanged |
| Graph.MergeNodesValid | scripts/7.push_ALL_to_neo4j.py:490-497 | a node batch keeps the store valid |
| Graph.MergeEdgesValid | scripts/7.push_ALL_to_neo4j.py:543-552 | a relationship batch keeps the store valid |
| Graph.DeriveEnds | scripts/7.push_ALL_to_neo4j.py:978-979 | every derived routing link joins two existing nodes |
| Graph.ExecValid | scripts/7.push_ALL_to_neo4j.py:1226-1265 | every write statement keeps the store valid |
| Graph.MergeNodeTracks | scripts/7.push_ALL_to_neo4j.py:490-497 | a node merge with `delete = false` keeps the mark-to-sweep invariant, the merged nodes now counted as touched |
| Graph.MergeNodesTracks | scripts/7.push_ALL_to_neo4j.py:490-497 | a node batch with `delete = false` keeps the mark-to-sweep invariant |
| Graph.ExecTracks | scripts/7.push_ALL_to_neo4j.py:1226-1265 | every write statement keeps the mark-to-sweep invariant |
| Graph.RunAllTracks | scripts/7.push_ALL_to_neo4j.py:1226-1265 | the whole statement sequence keeps the mark-to-sweep invariant |
| Graph.CycleSurvivors | scripts/7.push_ALL_to_neo4j.py:1226-1274 | after mark, push and sweep, a node survives exactly when the push touched it or it had no `PROD_` label and no `delete = true`; every touched node carries a pushed label |
| Graph.CycleTracks | scripts/7.push_ALL_to_neo4j.py:1226-1265 | after marking and the pushes the invariant holds against the marked graph |
| Graph.RunTracks | scripts/7.push_ALL_to_neo4j.py:1226-1265 | from the marked graph the invariant holds after the pushes |
| Graph.MarkTracks | scripts/7.push_ALL_to_neo4j.py:1226-1229 | the invariant holds right after marking, with nothing touched |
| Graph.Survivor | scripts/7.push_ALL_to_neo4j.py:1272-1274 | under the invariant a node survives the sweep exactly when it was touched or was never a candidate for deletion |
| Graph.Sweep | scripts/7.push_ALL_to_neo4j.py:1118-1176 | the sweep removes exactly the flagged nodes and every relationship that is flagged or loses an end, keeps the rest unchanged, and counts the flagged relationships and nodes |
| Graph.SweepValid | scripts/7.push_ALL_to_neo4j.py:1118-1176 | the sweep keeps the store valid |
| Batches.Items | scripts/7.push_ALL_to_neo4j.py:374 | `.items()` succeeds exactly on a dict, and yields its entries in order |
| Batches.First | scripts/7.push_ALL_to_neo4j.py:389 | `[0]` gives the first element of a non-empty list, and succeeds only on a list or string |
| Batches.PyAdd | scripts/7.push_ALL_to_neo4j.py:395 | Python `+` adds two integers and raises on None or a dict |
| Batches.Stamp | scripts/7.push_ALL_to_neo4j.py:377-380 | every row starts with `update_time` and `delete = False` |
| Batches.RowsAppend | scripts/7.push_ALL_to_neo4j.py:390-445 | appending fresh rows that lack the merge key keeps a batch so |
| Batches.JoinPaired | scripts/7.push_ALL_to_neo4j.py:398-445 | appending two batches keeps the IP rows paired with their adjacency rows, and the IP rows clean |
| Batches.JoinPairs | scripts/7.push_ALL_to_neo4j.py:398-445 | appending two batches keeps each adjacency's local IP, remote IP, IP-to-router and adjacency rows aligned |
| Batches.JoinAnchored | scripts/7.push_ALL_to_neo4j.py:424-432 | appending two batches keeps every IP-to-router row pointing at a router of the batch |
| Batches.JoinGood | scripts/7.push_ALL_to_neo4j.py:374-445 | the invariant of IS-IS batches is kept by appending |
| Batches.LocalIpRow | scripts/7.push_ALL_to_neo4j.py:399-410 | the local IP row is keyed by the uid it is given, is fresh, and carries the address, the router name and its `uid_isis_router_name`, but neither merge key |
| Batches.RemoteIpRow | scripts/7.push_ALL_to_neo4j.py:412-422 | the remote IP row is keyed by the uid it is given, is fresh, carries the address, and has no name or merge key |
| Batches.LinkBatch | scripts/7.push_ALL_to_neo4j.py:398-445 | one adjacency contributes its two IP rows, its IP-to-router row and its adjacency row, in that order, all consistent |
| Batches.LinkRows | scripts/7.push_ALL_to_neo4j.py:398-445 | a link yields its rows exactly when it is a dict with `local_ip`, `remote_ip`, `remote_node_igp_router_id`, `igp_metric` and `sr_adjacency_sid`; the local IP is keyed `<igp id>_<local_ip>` and named `<router>_<local_ip>`, the remote IP is keyed `<remote igp id>_<remote_ip>`, the IP-to-router row runs from that name to the router, and the adjacency joins the two keys with the link's metric and adjacency SID |
| Batches.JoinLinks | scripts/7.push_ALL_to_neo4j.py:398-445 | appending the rows of two links of one router keeps them the router's links |
| Batches.LinksRows | scripts/7.push_ALL_to_neo4j.py:398-445 | the links of one router yield one adjacency each, in order, and adjacency i holds exactly the rows of link i |
| Batches.Loopbacks | scripts/7.push_ALL_to_neo4j.py:392-396 | the count is the number of prefixes equal to `<loopback>/32`; with none the properties are unchanged; otherwise `sr_prefix_sid` is the last such prefix's SID and `sr_prefix_sid_absolute` that SID plus the SRGB start, and every other property is kept |
| Batches.Copies | scripts/7.push_ALL_to_neo4j.py:390-396 | the router row is appended once, and once more per matching loopback prefix, always the same row |
| Batches.WithRouter | scripts/7.push_ALL_to_neo4j.py:390-396 | a router with its links forms a good batch whose router rows are copies of one row |
| Batches.RouterBatch | scripts/7.push_ALL_to_neo4j.py:374-445 | one router's batch is good, holds its router row once plus once per loopback prefix, always the same row, and adjacency i holds the rows of the router's link i |
| Batches.RouterRow | scripts/7.push_ALL_to_neo4j.py:375-396 | the router row is keyed by the node name and carries the IGP router id, loopback, AS number and SRGB start, the SIDs of the last loopback prefix or no SID at all, is fresh and has no `name`; the count is the number of loopback prefixes |
| Batches.RouterProps | scripts/7.push_ALL_to_neo4j.py:375-389 | the router's base properties are fresh, carry no `name` and no SID key |
| Batches.RouterRowFresh | scripts/7.push_ALL_to_neo4j.py:392-396 | adding the SID properties keeps the row fresh and without `name` |
| Batches.RoutersBatch | scripts/7.push_ALL_to_neo4j.py:374-445 | the batches of all routers together are good, hold every router's row and every link's rows, and have one adjacency per link |
| Batches.IsisBatches | scripts/7.push_ALL_to_neo4j.py:352-451 | the IS-IS batches are built only from a document whose `routers` is a dict; they are good, hold the row of every router and the rows of every link, and have one adjacency per link |
| Batches.PortRows | scripts/7.push_ALL_to_neo4j.py:630-660 | a port yields its row keyed `<router>_<port>` with its `portId`; exactly when it is attached to a dict with a truthy LAG it also yields the LAG row keyed `<router>_LAG<lag>` and named after the LAG, and the port-to-LAG row between the two keys |
| Batches.PortsRows | scripts/7.push_ALL_to_neo4j.py:630-660 | the ports of a router yield one row each, in order, and the LAG rows of the attached ports, in order, each joined to its port |
| Batches.PortKeyedCons | scripts/7.push_ALL_to_neo4j.py:630-639 | a port row keyed by the first port, before the rows of the others, keeps the rows aligned with the ports |
| Batches.MergeJoined | scripts/7.push_ALL_to_neo4j.py:627-705 | appending port batches keeps the LAG rows joined and the rows fresh, and keeps logical rows tied to one router |
| Batches.LogicalRows | scripts/7.push_ALL_to_neo4j.py:664-705 | a logical interface is read when it is a string, list or dict (`in` on other values raises, and a string holding `IP` raises on `['IP']`), and yields one interface exactly when it is a dict with a non-empty IP |
| Batches.LogicalBatch | scripts/7.push_ALL_to_neo4j.py:665-705 | an interface with an IP yields one row keyed `<router>_<name>` carrying its name, IP, mask, VLAN and router; a row to the LAG `<router>_LAG<attach>` exactly when its attach is truthy; and its row to the router |
| Batches.LogicalsRows | scripts/7.push_ALL_to_neo4j.py:663-705 | the logical interfaces of a router yield, in order, one row for each dict with a non-empty IP, tied to that router and fresh |
| Batches.DeviceRows | scripts/7.push_ALL_to_neo4j.py:627-705 | one device yields the rows of its `PORT` and `LOGICAL` tables, joined and fresh |
| Batches.DevicesRows | scripts/7.push_ALL_to_neo4j.py:627-705 | the devices yield, in order, the port rows, LAG rows and logical rows of each device, joined and fresh |
| Batches.PortBatches | scripts/7.push_ALL_to_neo4j.py:593-713 | the batches are built only from a dict, and hold, in order, a row for every port of every device, a LAG row for every port attached to a truthy LAG, and a row for every logical interface with an IP, all joined and fresh |
| Batches.NeighborRow | scripts/7.push_ALL_to_neo4j.py:934-946 | a neighbour yields its row exactly when it is a dict with `remote_device` and `remote_port`; the row starts at `<router>_<local port>` and is fresh |
| Batches.NeighborsRows | scripts/7.push_ALL_to_neo4j.py:934-946 | a device's neighbours yield one row each, in order, and fail exactly when one is unreadable |
| Batches.LldpDeviceRows | scripts/7.push_ALL_to_neo4j.py:933-946 | a device with readable neighbours yields its rows; when its `neighbors` is a dict the rows are exactly that dict's neighbour rows, one per entry in order, and otherwise the device yields no row |
| Batches.LldpDevicesRows | scripts/7.push_ALL_to_neo4j.py:930-946 | readable devices always yield their rows; the batch has one row per neighbour entry of all the devices, and every row is a row of some device |
| Batches.LldpDevicesAppend | scripts/7.push_ALL_to_neo4j.py:930-946 | the devices are handled in order: the rows of two lists of devices, one after the other, are the first list's rows followed by the second's |
| Batches.LldpRows | scripts/7.push_ALL_to_neo4j.py:927-949 | the LLDP batch is built only from a dict, and always is when every device is readable; it has one row per neighbour entry, and every row is a row of some device of the topology |
| Batches.DevicesRowsHas | scripts/7.push_ALL_to_neo4j.py:930-946 | every row of a device is in the batch of all devices |
| Batches.DeviceEntryReadable | scripts/7.push_ALL_to_neo4j.py:933-936 | every device entry the LLDP collector writes can be read here |
| Batches.NeighborsReadable | scripts/7.push_ALL_to_neo4j.py:934-936 | every neighbour entry the collector writes has the two fields read here |
| Batches.LinkEntryReadable | scripts/7.push_ALL_to_neo4j.py:935-936 | a neighbour entry has `remote_device` and `remote_port` |
| Batches.LldpTopologyReadable | scripts/7.push_ALL_to_neo4j.py:927-949 | the LLDP topology the collector produces always yields its rows |
| Batches.LldpTopologyLink | scripts/7.push_ALL_to_neo4j.py:930-946 | for the last result of each device and the last neighbour on each port, the batch holds a link from `<device>_<local port>` to `<remote system>_<remote port>` |
| Batches.LldpTopologySound | scripts/7.push_ALL_to_neo4j.py:930-946 | conversely, every row of the batch built from the collector's topology is the link from `<device>_<local port>` to `<remote system>_<remote port>` of the last neighbour on some port of the last error-free result of some device |
| Batches.DeviceEntrySound | scripts/7.push_ALL_to_neo4j.py:933-946 | a device entry that yields a row is one without error, and the row is the link of the last neighbour on one of its ports |
| Batches.NeighborsSound | scripts/7.push_ALL_to_neo4j.py:934-946 | every row of a neighbours' dict the collector built is the link of the last neighbour on some port |
| Batches.DevicesHave | scripts/7.push_ALL_to_neo4j.py:930-946 | a row of a device that is in the topology is in the batch |
| Batches.DeviceEntryLink | scripts/7.push_ALL_to_neo4j.py:934-946 | the last neighbour on a port yields its link row from the device's entry |
| Batches.EntryRows | scripts/7.push_ALL_to_neo4j.py:933-946 | a device entry without error yields exactly the rows of its neighbour dict |
| Batches.NeighborsHave | scripts/7.push_ALL_to_neo4j.py:934-946 | a neighbour present in the dict yields a row in the device's rows |
| Batches.LinkEntryRow | scripts/7.push_ALL_to_neo4j.py:938-945 | a neighbour entry yields the link between the two port keys, stamped fresh |
| Batches.FixedCopies | scripts/7.push_ALL_to_neo4j.py:390-396 | merging copies of a row that changes nothing changes nothing |
| Batches.RouterCopiesOnce | scripts/7.push_ALL_to_neo4j.py:390-396 | merging a router row several times gives the same graph as merging it once |
| Sync.CheckUri | scripts/7.push_ALL_to_neo4j.py:46-51 | a connection URI is accepted exactly when it is non-empty and starts with one of the six driver schemes, and is kept unchanged |
| Sync.ScriptUri | scripts/7.push_ALL_to_neo4j.py:1199-1203 | the script's own `bolt://localhost:7687` is accepted, while an address without a scheme is refused |
| Sync.Expected | scripts/7.push_ALL_to_neo4j.py:310-317 | every expected constraint is named `<label>_<property>` and comes from an entry of the table |
| Sync.PerLabel | scripts/7.push_ALL_to_neo4j.py:312-317 | a label asks for one constraint per property, in order, each with its name |
| Sync.ExpectedHas | scripts/7.push_ALL_to_neo4j.py:310-317 | every (label, property) entry of the table is expected, under its name |
| Sync.ShownNames | scripts/7.push_ALL_to_neo4j.py:320-323 | the existing names are exactly the `name` of each shown row, with `""` for a row without one |
| Sync.Missing | scripts/7.push_ALL_to_neo4j.py:326-329 | a constraint is missing exactly when it is expected and its name is not shown, and none is added |
| Sync.CheckConstraints | scripts/7.push_ALL_to_neo4j.py:301-348 | a constraint is created exactly when it is expected and its name is not among the shown names, and the created constraints keep the order of the table, label by label and property by property |
| Sync.ConstraintsSettle | scripts/7.push_ALL_to_neo4j.py:284-348 | once the missing constraints are created, checking again creates nothing |
| Sync.MissingNone | scripts/7.push_ALL_to_neo4j.py:332-333 | when every expected name is shown, nothing is missing |
| Sync.Cycle2 | scripts/2.push_bgpls_to_neo4j.py:774-816 | when the database is unreachable nothing is written |
| Sync.Cycle7 | scripts/7.push_ALL_to_neo4j.py:1206-1274 | when the database is unreachable nothing is written |
| Sync.Reconcile | scripts/7.push_ALL_to_neo4j.py:1226-1274 | after mark, push and sweep every node outside the managed labels survives, every survivor is either such a node or carries a pushed label, and no surviving node changes labels |
| Sync.IsisFresh | scripts/7.push_ALL_to_neo4j.py:368-451 | the IS-IS statements write only rows with `delete = False` |
| Sync.PortsFresh | scripts/7.push_ALL_to_neo4j.py:620-713 | all statements of the full push write only rows with `delete = False` |
| Sync.Labels2Of | scripts/2.push_bgpls_to_neo4j.py:454-535 | the BGP-LS push merges only routers and IPs |
| Sync.Labels7Of | scripts/7.push_ALL_to_neo4j.py:481-899 | the full push merges only routers, IPs, ports, LAGs and logical interfaces |
| Sync.Cycle2Survivors | scripts/2.push_bgpls_to_neo4j.py:774-816 | a BGP-LS run keeps every unmanaged node, leaves only unmanaged nodes or router and IP nodes, and removes every `PROD_` node of another label, such as ports |
| Sync.Cycle7Survivors | scripts/7.push_ALL_to_neo4j.py:1206-1274 | a full run keeps every unmanaged node, leaves only unmanaged nodes or nodes of the five pushed labels, and removes every `PROD_` node of any other label |
| Restconf.Encode | scripts/3.nso_shutdown_interface.py:58 | the encoded interface name has no `/`, and a name without `/` is unchanged |
| Restconf.EncodeCons | scripts/3.nso_shutdown_interface.py:58 | each `/` becomes `%2F` and every other character is kept, one character at a time |
| Restconf.EncodeFirst | scripts/3.nso_shutdown_interface.py:58 | the first encoded character is `%` for a `/` and the character itself otherwise |
| Restconf.EncodeStart | scripts/3.nso_shutdown_interface.py:58 | an encoding that starts with `%2F` from a name not starting with `/` means the name itself starts with `%2F` |
| Restconf.Decode | scripts/3.nso_shutdown_interface.py:58 | decoding never lengthens the text |
| Restconf.DecodeEncode | scripts/3.nso_shutdown_interface.py:58 | a name without a literal `%2F` is recovered from its encoding |
| Restconf.InterfaceUrl | scripts/3.nso_shutdown_interface.py:55-64 | the URL is the base URL followed by the RESTCONF path of the device, router and encoded interface |
| Restconf.PathSegments | scripts/3.nso_shutdown_interface.py:60-64 | the path is its nine segments joined by `/` |
| Restconf.UrlRoundTrip | scripts/3.nso_shutdown_interface.py:55-64 | for names without `/` and an interface without `%2F`, splitting the path at `/` gives back the device, router and interface |
| Restconf.AdminState | scripts/3.nso_shutdown_interface.py:80 | the admin state is `disable` exactly for `shutdown`, and `enable` for every other action |
| Restconf.Payload | scripts/3.nso_shutdown_interface.py:82-86 | the PATCH body is a dict with the single key `nokia-conf:interface` |
| Restconf.PayloadRoundTrip | scripts/3.nso_shutdown_interface.py:80-86 | the admin state can be read back from the body, and for the two accepted actions so can the action |
| Restconf.ParseArgs | scripts/3.nso_shutdown_interface.py:204-218 | fewer than two arguments is an error; otherwise the call succeeds exactly when the action, if given, is `shutdown` or `no-shutdown`, and takes device and interface from the first two arguments |
| Restconf.ArgsRoundTrip | scripts/3.nso_shutdown_interface.py:204-218 | an action written as a command line is parsed back; without action or router the defaults `shutdown` and `Base` are taken |
| Restconf.SetAdminState | scripts/3.nso_shutdown_interface.py:108-130 | the outcome is a success exactly when the server answered with a 2xx status, and then reports the status, device, interface, admin state and response text; otherwise it reports the error |
| Reboot.FloorDiv3600 | scripts/0.manage_reboot_card.py:58-59 | Python `seconds // 3600` is the floor of the seconds divided by 3600, and `seconds % 3600` lies in [0, 3600) |
| Reboot.FloorDiv60 | scripts/0.manage_reboot_card.py:59-60 | Python `// 60` and `% 60` give the whole minutes and a remainder in [0, 60) |
| Reboot.Sexagesimal | scripts/0.manage_reboot_card.py:58-60 | hours, minutes and seconds recompose the whole number of seconds, with minutes below 60 |
| Reboot.ClockOf | scripts/0.manage_reboot_card.py:58-60 | the hours, minutes and seconds recompose the whole seconds, minutes and seconds are below 60, and hours are non-negative for a non-negative duration |
| Reboot.DurationParts | scripts/0.manage_reboot_card.py:62-67 | there are one to three parts |
| Reboot.FormatDuration | scripts/0.manage_reboot_card.py:56-69 | the text has hours exactly when there is at least one hour, minutes exactly when the minutes are positive, and always ends with the seconds |
| Reboot.AmountOf | scripts/0.manage_reboot_card.py:64-67 | each part is a number followed by its unit letter |
| Reboot.DurationRoundTrip | scripts/0.manage_reboot_card.py:56-69 | reading the formatted text back gives the whole number of seconds |
| Reboot.Spaces | scripts/0.manage_reboot_card.py:108 | `\s+` takes the whole run of whitespace from a position |
| Reboot.Word | scripts/0.manage_reboot_card.py:108 | `\w+` takes the whole run of word characters from a position |
| Reboot.MatchAt | scripts/0.manage_reboot_card.py:107-111 | a match at the start of a line captures two non-empty words |
| Reboot.Search | scripts/0.manage_reboot_card.py:107-111 | `re.search` with `MULTILINE` finds a match exactly when some line start from the position matches, and its words are non-empty |
| Reboot.CardStatus | scripts/0.manage_reboot_card.py:98-124 | a status is found exactly when some line of the output matches the card row, and it is non-empty and lowercase |
| Reboot.CardRowStatus | scripts/0.manage_reboot_card.py:107-120 | a well-formed card 1 row after lines that do not start with `1` yields its operational state, lowercased, whatever follows it |
| Reboot.SearchSkips | scripts/0.manage_reboot_card.py:107-111 | lines that do not start with `1` are skipped by the search |
| Reboot.RowMatch | scripts/0.manage_reboot_card.py:108 | a card row at a line start matches with its admin and operational states |
| Reboot.SpacesStop | scripts/0.manage_reboot_card.py:108 | any whitespace run ending at a non-space is the one `\s+` takes |
| Reboot.WordStops | scripts/0.manage_reboot_card.py:108 | any word run ending at a non-word character is the one `\w+` takes |
| Reboot.TokenStops | scripts/0.manage_reboot_card.py:108 | any non-space run ending at whitespace is the one `\S+` takes |
| Agent.DropKeys | scripts/4.AINetwork_Agent/network_agent.py:111-112 | popping the unsupported keys removes exactly those keys and keeps every other value |
| Agent.FirstOption | scripts/4.AINetwork_Agent/network_agent.py:116-119 | the chosen option is the first dict whose `type` is not `"null"`, and there is none exactly when no option qualifies |
| Agent.Merge | scripts/4.AINetwork_Agent/network_agent.py:114-119 | without `anyOf` the dict is unchanged; merging raises exactly when `anyOf` holds a value that cannot be iterated |
| Agent.MergeOption | scripts/4.AINetwork_Agent/network_agent.py:115-119 | iterating a scalar raises; only a list can supply a dict option, so other iterables leave the dict as it was; the result is smaller than the dict with `anyOf` still in it |
| Agent.OptionMerged | scripts/4.AINetwork_Agent/network_agent.py:116-119 | a list of options whose first eligible option is at position i merges exactly that option into the other fields |
| Agent.OptionDropped | scripts/4.AINetwork_Agent/network_agent.py:115-119 | a list of options none of which is a dict whose `type` is other than `"null"` is simply dropped, leaving the other fields as they were |
| Agent.Resolve | scripts/4.AINetwork_Agent/network_agent.py:111-119 | repeating the two steps until nothing changes removes every `anyOf` and every given keyword, and keeps a settled dict unchanged |
| Agent.Step | scripts/4.AINetwork_Agent/network_agent.py:111-119 | one pass over a dict never grows it, leaves a dict free of bad keys as it is, and without `anyOf` only drops the unsupported keys |
| Agent.Clean | scripts/4.AINetwork_Agent/network_agent.py:101-130 | a non-dict schema is returned unchanged, a dict stays a dict, and the repeated cleaner leaves no unsupported keyword and no `anyOf` in every dict reached through dict values and the dict items of lists |
| Agent.ListInListKept | scripts/4.AINetwork_Agent/network_agent.py:121-127 | a list nested directly in a list is not entered: `{"items": [xs]}` comes back unchanged whatever dicts `xs` holds |
| Agent.CleanDict | scripts/4.AINetwork_Agent/network_agent.py:109-128 | a cleaned dict has exactly the keys one pass leaves |
| Agent.CleanValues | scripts/4.AINetwork_Agent/network_agent.py:121-127 | every value is cleaned in place, keys and order kept |
| Agent.CleanValue | scripts/4.AINetwork_Agent/network_agent.py:121-127 | scalars and strings are left alone |
| Agent.CleanItems | scripts/4.AINetwork_Agent/network_agent.py:124-127 | a list keeps its length, and under the repeated cleaner every item is clean |
| Agent.CleanValuesAt | scripts/4.AINetwork_Agent/network_agent.py:121-127 | each value of a cleaned dict is its old value cleaned, at the same position |
| Agent.CleanItemsAt | scripts/4.AINetwork_Agent/network_agent.py:124-127 | each item of a cleaned list is its old item cleaned, at the same position |
| Agent.TidyKept | scripts/4.AINetwork_Agent/network_agent.py:101-130 | a schema with nothing to remove is returned unchanged |
| Agent.CleanIdempotent | scripts/4.AINetwork_Agent/network_agent.py:101-130 | cleaning twice with the repeated cleaner is the same as cleaning once |
| Agent.OnePassSuffices | scripts/4.AINetwork_Agent/network_agent.py:101-130 | on a schema without `anyOf` the function as written and the repeated cleaner agree |
| Agent.OnePassTidy | scripts/4.AINetwork_Agent/network_agent.py:101-130 | on a dict without `anyOf`, the function as written succeeds exactly when the repeated cleaner does, and its result is clean |
| Agent.CleanKeys | scripts/4.AINetwork_Agent/network_agent.py:109-128 | on a dict without `anyOf` the cleaned top level keeps exactly the supported keys |
| Agent.MergedKeys | scripts/4.AINetwork_Agent/network_agent.py:111-119 | after one pass the keys are the supported keys other than `anyOf` plus the first eligible option's keys; the other keys keep their values, and (for an option without repeated keys) every option key holds the option's value |
| Agent.StepMerges | scripts/4.AINetwork_Agent/network_agent.py:111-119 | one pass is popping the unsupported keys, popping `anyOf`, then updating with the first eligible option |
| Agent.ScalarAnyOfRaises | scripts/4.AINetwork_Agent/network_agent.py:114-116 | an `anyOf` holding a number, boolean or null raises |
| Agent.MergedKeywordSurvives | scripts/4.AINetwork_Agent/network_agent.py:114-119 | a keyword the merged option brings, is still in the cleaned schema, so the result is not free of unsupported keywords |
| Agent.DefaultKept | scripts/4.AINetwork_Agent/network_agent.py:138 | the default schema is its own cleaned form |
| Agent.Declare | scripts/4.AINetwork_Agent/network_agent.py:138-143 | a declaration keeps the tool's name, its description when truthy and `Tool: <name>` otherwise; a falsy schema becomes the default schema and a non-dict one is passed through |
| Agent.Successes | scripts/4.AINetwork_Agent/network_agent.py:135-146 | the converted tools are at most as many as the tools, and all of them when none fails |
| Agent.Declarations | scripts/4.AINetwork_Agent/network_agent.py:133-146 | the declarations are exactly the conversions of the tools that convert, in tool order: one per such tool (`OkFrom` lists their positions, increasing and complete), and all tools when none fails |
| Agent.SuccessesAt | scripts/4.AINetwork_Agent/network_agent.py:135-146 | the values a skip-on-failure loop collects are exactly the values of the calls that returned, in order |
| Agent.OkFrom | scripts/4.AINetwork_Agent/network_agent.py:136-145 | the positions of the calls that returned, increasing, with no returned call missing |
| Agent.DeclarationsFrom | scripts/4.AINetwork_Agent/network_agent.py:135-146 | each declaration comes from a tool, in order |
| Agent.DeclarationsAll | scripts/4.AINetwork_Agent/network_agent.py:135-146 | when no conversion fails, the i-th declaration is the i-th tool's |
| TrafficEng.NumericProps | scripts/4.AINetwork_Agent/tools.py:74 | a property is numeric exactly when its value is an integer or a float, and the list is no longer than the properties |
| TrafficEng.ProjectionEntries | scripts/4.AINetwork_Agent/tools.py:65-89 | without a relationship there is no property; with one, the projection fails exactly when no property is numeric; otherwise it weights by the requested property when numeric and by `igp_metric` otherwise, and carries every numeric property and nothing else |
| TrafficEng.BooleanNotProjected | scripts/4.AINetwork_Agent/tools.py:74 | a boolean property is never projected, although Python counts it as an integer |
| TrafficEng.PathParts | scripts/4.AINetwork_Agent/tools.py:155-160 | a path of fewer than two routers has no pattern; otherwise the pattern alternates router `i` and hop `i`, with one piece per router and per hop |
| TrafficEng.PropsQuery | scripts/4.AINetwork_Agent/tools.py:155-163 | the query is `MATCH `, the path pattern (router `i` and hop `i` alternating) joined by spaces, ` RETURN `, and one `properties(r<i>) AS rel<i>_props` column per hop joined by commas; every parameter `$node<i>` that the parameter map binds to router `i` occurs in it |
| TrafficEng.NodePartParam | scripts/4.AINetwork_Agent/tools.py:158-160 | router `i`'s piece of the pattern names the parameter `$node<i>` |
| TrafficEng.QueryHasParam | scripts/4.AINetwork_Agent/tools.py:162-163 | a parameter named in a piece of the pattern occurs in the whole query |
| TrafficEng.QueryHasParams | scripts/4.AINetwork_Agent/tools.py:155-163 | every router `i` of a pattern of `n` routers has its parameter `$node<i>` in the query |
| TrafficEng.NatToStringInjective | scripts/4.AINetwork_Agent/tools.py:158-163 | distinct indices give distinct parameter and variable names |
| TrafficEng.NodeParams | scripts/4.AINetwork_Agent/tools.py:163 | there is one parameter per router, `node<i>` bound to the i-th name |
| TrafficEng.NodeParamsBind | scripts/4.AINetwork_Agent/tools.py:163 | the parameters have distinct names and `node<i>` reads the i-th router name |
| TrafficEng.Colour | scripts/4.AINetwork_Agent/tools.py:211-214 | when the end node without its leading `R`s is not an integer the colour is 100 |
| TrafficEng.ColourOfRouter | scripts/4.AINetwork_Agent/tools.py:212 | router `R<n>` has colour 100 + n |
| TrafficEng.Sids | scripts/4.AINetwork_Agent/tools.py:218-221 | the SIDs exist exactly when every segment has a truthy `sr_adjacency_sid`, one per segment, in path order |
| TrafficEng.LabelLines | scripts/4.AINetwork_Agent/tools.py:222 | one `<label-path>` line per SID, in order |
| TrafficEng.Header | scripts/4.AINetwork_Agent/tools.py:226-232 | the configuration opens with seven lines |
| TrafficEng.TrafficEngineering | scripts/4.AINetwork_Agent/tools.py:202-237 | an error of the path computation is returned as is; a segment without a SID gives the missing-SID error |
| TrafficEng.LabelPathsJoin | scripts/4.AINetwork_Agent/tools.py:217-222 | the accumulated label paths are the label lines joined by newlines, with a final newline |
| TrafficEng.LabelBlock | scripts/4.AINetwork_Agent/tools.py:233 | `rstrip()` of the label paths leaves the label lines joined by newlines |
| TrafficEng.StripFramed | scripts/4.AINetwork_Agent/tools.py:237 | `strip()` removes exactly the leading and trailing newline of the template |
| TrafficEng.SplitFramed | scripts/4.AINetwork_Agent/tools.py:225-237 | a stripped framed document splits at its newlines into the header, the block's lines and the closing tags |
| TrafficEng.HeaderNoNewline | scripts/4.AINetwork_Agent/tools.py:226-232 | with single-line names, each header line is one line |
| TrafficEng.TeUnfold | scripts/4.AINetwork_Agent/tools.py:202-237 | for a path whose SIDs all exist, the output is the stripped XML template with the label block |
| TrafficEng.TeLines | scripts/4.AINetwork_Agent/tools.py:202-237 | for single-line inputs and SIDs, the output's lines are the seven header lines, one `<label-path>` line per SID in path order (one empty line when there are none), then the two closing tags |

## Left out

- Network, SSH and database I/O are inputs or left out: the gRPC session and `MessageToDict`, the aiohttp clients of scripts 3, 5 and 6, the Netmiko calls of script 0, the Neo4j driver, the Vertex AI / Gemini / MCP agent loop. The model starts from the data these return: destinations, query responses, CLI text, an HTTP `Exchange`, a reachable flag, path data.
- Concurrency, timing and console output are left out: semaphores, `gather`, thread pools, the reboot lock, the `monitor_card` retry loop, `execution_time`, `log`, `print`, `format_summary`. None of them changes a value the model computes.
- File I/O is left out (`FileManager.save/load`, `save_to_file`, the JSON files read in the `__main__` blocks). A document written by one script and read by the next is taken to be the same value; float and `repr` differences through JSON are not modelled.
- `CALL { … } IN TRANSACTIONS OF 1000 ROWS` is modelled as the rows applied one by one in order. Transaction boundaries only matter when a batch fails half-way, and the model does not say what a partially written batch leaves behind.
- Graph.Matches: property equality is structural, so Cypher's numeric equality (`1 = 1.0`) is not modelled. The scripts only match on string keys.
- Graph.ToInteger: a string is parsed as a decimal integer only; Cypher's `toInteger('1.5')` (which gives 1) returns null here.
- Graph.Store: at most one relationship per (source, type, target). MERGE never creates a second one, but a graph that already holds parallel relationships from elsewhere is not representable.
- The node and relationship statistics queries of scripts 2 and 7, and the constraint-creation Cypher text, are left out: they only report. `Sync.CheckConstraints` models which constraints get created.
- Sync.Cycle2 and Sync.Cycle7 build every batch before the first write, so an error in a later builder (a `KeyError` in the port loop, say) is reported before any write. In the scripts the earlier statements would already have run, and the model does not describe that partially written state.
- `_add_property_if_exists` (script 7) is never called and is left out.
- `IPRelationshipBuilder.build` (script 5) is left out because it depends on a jsonpath query, whose path rendering is library behaviour. So are the `IP_RELATION` key it adds to the document and the saved per-key files.
- `NSOQueryBuilder.build` and `get_request_configs` (script 5) are constant data: the model takes each request's name and analysis as given.
- CdbAnalyzers.AddressStep: `IPv4Interface` is a parameter (an address and mask to network and address, or failure). Its network computation belongs to the standard library and is not modelled.
- Cdb.SelectStep: a field whose label is not a string fails with `TypeError`, whereas Python would key the row dict on any hashable label (a number, boolean or None). Dicts are modelled as string-keyed association lists. The NSO query results label their fields with strings, and the documents go through JSON, whose keys are strings.
- Cdb.SelectRow: a row with a label that is not a string fails with `TypeError`, for the reason given for Cdb.SelectStep.
- CdbAnalyzers.InterfaceStep: an interface name that is not a string fails with `TypeError`, whereas Python would key the LOGICAL dict on any hashable value, for the reason given for Cdb.SelectStep.
- CdbAnalyzers.LogicalStep: a device or interface name that is not a string fails with `TypeError`, whereas Python would key the DEVICE and LOGICAL dicts on any hashable value, for the reason given for Cdb.SelectStep.
- CdbAnalyzers.LagDeviceStep: a port that is not a string fails with `TypeError`, whereas Python would key the PORT dict on any hashable value, for the reason given for Cdb.SelectStep.
- CdbAnalyzers.LagStep: a device name or port that is not a string fails with `TypeError`, whereas Python would key the DEVICE and PORT dicts on any hashable value, for the reason given for Cdb.SelectStep.
- CdbAnalyzers.IsisStep: a device or interface name that is not a string fails with `TypeError`, whereas Python would key the ISIS dicts on any hashable value, for the reason given for Cdb.SelectStep.
- Text.PyStr: `str()` of a float, list or dict goes through Python's `repr`, which is a parameter. Strings, integers, booleans (`True`, `False`) and None (`None`) are rendered by the model itself, exactly.
- Text.IsSpace: whitespace is exactly space, tab, line feed, vertical tab (`\x0b`), form feed (`\x0c`) and carriage return. Python's `strip`, `split` and regex `\s` also treat `\x1c`–`\x1f` and Unicode whitespace (such as `\x85` and `\xa0`) as whitespace; these are not modelled. Regex `\w` is ASCII letters, digits and `_`.
- Text.Lower and Text.Upper: only ASCII letters change case. Unicode case mapping is not modelled.
- Text.ParseInt: `int()` accepts an optional sign and ASCII digits around optional whitespace. Underscores between digits and non-ASCII digits are not modelled.
- Reboot.FormatDuration: seconds are a real number, and the float rounding of Python's `//` and `%` on doubles is not modelled.
- Reboot: connecting, rebooting and waiting for the router (`connect_to_router`, `reboot_router`, `wait_for_router_online`, `monitor_card`) are I/O loops and are left out. Only the parsing of `show card 1` is modelled.
- Restconf.Decode exists only to state the round trip. It undoes `%2F` and nothing else, which is why `Restconf.DecodeEncode` requires a name without a literal `%2F`.
- `get_interface_status` (script 3) is an HTTP GET whose result is the server's JSON, so it is left out.
- Lldp.ParseLine: the regex is modelled for this one pattern, not by a general regex engine. `Lldp.BlankPortLine` shows a line the pattern accepts with fewer than six words. The index group `(\d+)` accepts ASCII digits only (`Text.IsDigit`), whereas on a Python `str` `\d` matches any Unicode decimal digit; a line whose index uses other digits is refused here.
- TrafficEng.TrafficEngineering: an empty error string counts as an error here. In the source, `if path_data.get("error")` lets `""` through to a `KeyError` on `segments`; `_calculate_shortest_path_data` never produces an empty error.
- `find_shortest_path` (tools.py) is left out because its output is console text. Also left out are the GDS `graph.list`/`graph.drop`/`graph.project`/Dijkstra calls and the exception fallbacks `Erreur: {e}` and `Erreur GDS: {e}`. The path a Dijkstra call returns is an input (`PathData`).
- TrafficEng.ProjectionEntries returns a set, because the entries pass through `set()`, whose iteration order Python leaves unspecified. The joined string's order is therefore not modelled.
- `get_shortest_path_declaration` and `get_traffic_engineering_declaration` are constant declarations and are left out. Vertex AI's validation inside `FunctionDeclaration(...)` is not modelled: a conversion fails only when cleaning the schema raises.
- Agent.Declarations takes the cleaner as a parameter: `AsWritten` is the source's single pass, and `Repeated` is the corrected one (see Findings).
- Agent.Clean works on a copy, as `copy.deepcopy` does. Aliasing between the original schema and the result is therefore not modelled.
- Agent.Clean: lists nested directly in lists are not cleaned, as in the source (network_agent.py:124-127 enters only the dict items of a list), so `{"items": [[{"$ref": "x"}]]}` keeps its `$ref` under either cleaner (`Agent.ListInListKept`). `Tidy` promises nothing about such dicts.
- Graph.NameJoins: the join holds only when `router` and `ip` are both strings. Cypher's `+` would also join a number and a string (giving the number's text), so a logical interface whose `ip` were a number would be linked by Neo4j and not here. The push writes `router` as a string and `ip` as the CDB answer's value, which the NSO query answers carry as strings.
- `config.py` (environment loading) and the NSO service packages under `nso/packages` are not part of this model.
- Batches.IsisBatches: IP rows never carry `uid_isis_igp_router_name`, a property named in the script's uniqueness constraints but never written (`Batches.IpsClean`).
- Sync.Cycle2Survivors: the BGP-LS-only script also marks every `PROD_` port, LAG and logical interface, and then deletes them. This is stated as the script's behaviour, not as a defect, because that script may be meant to run alone.

## Findings

| source | as written | input that shows it | evidently intended | confidence | as-written member | corrected member |
|---|---|---|---|---|---|---|
| scripts/4.AINetwork_Agent/network_agent.py:114-119 | unsupported keywords are popped before the first `anyOf` option is merged in with `obj.update(option)`, and are not popped again, so keywords that the option brings stay in the cleaned schema | `{"anyOf": [{"$ref": "#/$defs/X"}]}` is cleaned to `{"$ref": "#/$defs/X"}` | the cleaned schema holds no unsupported keyword and no `anyOf` in every dict reached through dict values and the dict items of lists | not executed | Agent.MergedKeywordSurvives | Agent.Clean (with `Repeated`, proved `Tidy`; `Agent.CleanIdempotent`) |
